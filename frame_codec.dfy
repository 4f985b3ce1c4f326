/**
 * The GUI-facing TCP session of the medium server (CServerSess): bytes read
 * from the socket are gathered in a fixed buffer, complete length-prefixed
 * frames are cut off its front and dispatched in stream order, and the
 * unconsumed tail is moved back to the start of the buffer.
 *
 * The frame layout is specified by `Extract`, a function on the byte
 * stream; the session's `OnReadComplete` is proved to dispatch exactly the
 * frames `Extract` finds and to keep exactly its leftover.
 */
module FrameCodec {
  import opened Common

  /** Bytes of the length field at the front of every frame header. */
  const LENGTH_FIELD_SIZE: nat := 4

  /**
   * The total frame length a header declares (TransBaseMsg_t::GetSize):
   * the first four bytes of the frame, read as an unsigned little-endian
   * 32-bit number.
   */
  function DeclaredSize(s: seq<byte>): nat
    requires |s| >= LENGTH_FIELD_SIZE
  {
    (s[0] as int) + 256 * (s[1] as int) + 65536 * (s[2] as int) + 16777216 * (s[3] as int)
  }

  /**
   * The loop condition of do_read, with the header read afresh from the
   * current front of the buffer: at least a header is present, and at
   * least the (non-zero) size that header declares.
   */
  predicate FrameReady(s: seq<byte>, hdr: nat)
    requires hdr >= LENGTH_FIELD_SIZE
  {
    |s| >= hdr && 0 < DeclaredSize(s) <= |s|
  }

  /** A frame whose header declares exactly its own length. */
  predicate WellFormed(f: seq<byte>, hdr: nat)
    requires hdr >= LENGTH_FIELD_SIZE
  {
    |f| >= hdr && DeclaredSize(f) == |f|
  }

  /** The frames laid end to end. */
  function Concat(fs: seq<seq<byte>>): seq<byte>
  {
    if |fs| == 0 then [] else fs[0] + Concat(fs[1..])
  }

  /**
   * Splits a byte stream into the frames the session dispatches, in order,
   * and the leftover it keeps for the next read.
   */
  function Extract(s: seq<byte>, hdr: nat): (r: (seq<seq<byte>>, seq<byte>))
    requires hdr >= LENGTH_FIELD_SIZE
    decreases |s|
  {
    if FrameReady(s, hdr) then
      var n := DeclaredSize(s);
      var rest := Extract(s[n..], hdr);
      ([s[..n]] + rest.0, rest.1)
    else
      ([], s)
  }

  /**
   * Nothing is lost or reordered: the frames and the leftover, laid end to
   * end, rebuild the stream; and the leftover is shorter than a header, or
   * than the size its header declares (or that header declares 0).
   */
  lemma {:induction false} ExtractPartition(s: seq<byte>, hdr: nat)
    requires hdr >= LENGTH_FIELD_SIZE
    ensures Concat(Extract(s, hdr).0) + Extract(s, hdr).1 == s
    ensures !FrameReady(Extract(s, hdr).1, hdr)
    decreases |s|
  {
    if FrameReady(s, hdr) {
      var n := DeclaredSize(s);
      var rest := Extract(s[n..], hdr);
      ExtractPartition(s[n..], hdr);
      ConcatCons(s[..n], rest.0);
      AppendAssoc(s[..n], Concat(rest.0), rest.1);
      assert s[..n] + s[n..] == s;
    }
  }

  /** The declared size depends on the first four bytes only. */
  lemma DeclaredSizePrefix(s: seq<byte>, k: nat)
    requires LENGTH_FIELD_SIZE <= k <= |s|
    ensures DeclaredSize(s[..k]) == DeclaredSize(s)
  {
    assert s[..k][0] == s[0] && s[..k][1] == s[1] && s[..k][2] == s[2] && s[..k][3] == s[3];
  }

  /**
   * No partial frame is dispatched: every frame is non-empty, and one long
   * enough to carry a length field declares exactly its own length.
   */
  lemma {:induction false} ExtractFramesSized(s: seq<byte>, hdr: nat)
    requires hdr >= LENGTH_FIELD_SIZE
    ensures var fs := Extract(s, hdr).0;
            forall i :: 0 <= i < |fs| ==>
              |fs[i]| > 0 && (|fs[i]| >= LENGTH_FIELD_SIZE ==> DeclaredSize(fs[i]) == |fs[i]|)
    decreases |s|
  {
    if FrameReady(s, hdr) {
      var n := DeclaredSize(s);
      ExtractStep(s, hdr);
      ExtractFramesSized(s[n..], hdr);
      if n >= LENGTH_FIELD_SIZE {
        DeclaredSizePrefix(s, n);
      }
      var fs := Extract(s, hdr).0;
      var rest := Extract(s[n..], hdr).0;
      assert fs == [s[..n]] + rest;
      forall i | 0 <= i < |fs|
        ensures |fs[i]| > 0 && (|fs[i]| >= LENGTH_FIELD_SIZE ==> DeclaredSize(fs[i]) == |fs[i]|)
      {
        if i > 0 {
          assert fs[i] == rest[i - 1];
        }
      }
    } else {
      ExtractNotReady(s, hdr);
    }
  }

  /** Concat distributes over the split of a frame list at its head. */
  lemma ConcatCons(f: seq<byte>, fs: seq<seq<byte>>)
    ensures Concat([f] + fs) == f + Concat(fs)
  {
    assert ([f] + fs)[1..] == fs;
  }

  /** Concat of two frame lists is the concatenation of their Concats. */
  lemma {:induction false} ConcatAppend(a: seq<seq<byte>>, b: seq<seq<byte>>)
    ensures Concat(a + b) == Concat(a) + Concat(b)
    decreases |a|
  {
    if |a| == 0 {
      assert a + b == b;
    } else {
      assert a + b == [a[0]] + (a[1..] + b);
      ConcatCons(a[0], a[1..] + b);
      ConcatAppend(a[1..], b);
      ConcatCons(a[0], a[1..]);
      assert a == [a[0]] + a[1..];
    }
  }

  /** One step of Extract at a ready frame. */
  lemma ExtractStep(s: seq<byte>, hdr: nat)
    requires hdr >= LENGTH_FIELD_SIZE
    requires FrameReady(s, hdr)
    ensures var n := DeclaredSize(s);
            var rest := Extract(s[n..], hdr);
            Extract(s, hdr) == ([s[..n]] + rest.0, rest.1)
  {
  }

  /**
   * Taking the ready frame at the front of what is left keeps the frames
   * taken so far, followed by what is left, equal to the whole extraction.
   */
  lemma TakeFrame(whole: (seq<seq<byte>>, seq<byte>), taken: seq<seq<byte>>, before: seq<byte>, hdr: nat)
    requires hdr >= LENGTH_FIELD_SIZE && FrameReady(before, hdr)
    requires whole.0 == taken + Extract(before, hdr).0 && whole.1 == Extract(before, hdr).1
    ensures var n := DeclaredSize(before);
            && whole.0 == (taken + [before[..n]]) + Extract(before[n..], hdr).0
            && whole.1 == Extract(before[n..], hdr).1
  {
    var n := DeclaredSize(before);
    ExtractStep(before, hdr);
    AppendAssoc(taken, [before[..n]], Extract(before[n..], hdr).0);
  }

  /** A leftover with no ready frame extracts to itself. */
  lemma ExtractNotReady(s: seq<byte>, hdr: nat)
    requires hdr >= LENGTH_FIELD_SIZE
    requires !FrameReady(s, hdr)
    ensures Extract(s, hdr) == ([], s)
  {
  }

  /** A well-formed frame at the front of a stream is cut off exactly. */
  lemma ExtractFrontFrame(f: seq<byte>, more: seq<byte>, hdr: nat)
    requires hdr >= LENGTH_FIELD_SIZE
    requires WellFormed(f, hdr)
    ensures Extract(f + more, hdr) == ([f] + Extract(more, hdr).0, Extract(more, hdr).1)
  {
    var s := f + more;
    assert s[..|f|] == f;
    DeclaredSizePrefix(s, |f|);
    assert s[|f|..] == more;
    ExtractStep(s, hdr);
  }

  /**
   * Round trip: a stream made of well-formed frames followed by any tail is
   * cut back into exactly those frames, then whatever the tail yields.
   */
  lemma {:induction false} ExtractConcat(fs: seq<seq<byte>>, tail: seq<byte>, hdr: nat)
    requires hdr >= LENGTH_FIELD_SIZE
    requires forall i :: 0 <= i < |fs| ==> WellFormed(fs[i], hdr)
    ensures Extract(Concat(fs) + tail, hdr) == (fs + Extract(tail, hdr).0, Extract(tail, hdr).1)
    decreases |fs|
  {
    if |fs| == 0 {
      assert Concat(fs) + tail == tail;
      assert fs + Extract(tail, hdr).0 == Extract(tail, hdr).0;
    } else {
      var f := fs[0];
      var more := Concat(fs[1..]) + tail;
      ConcatCons(f, fs[1..]);
      assert fs == [f] + fs[1..];
      assert Concat(fs) + tail == f + more;
      assert WellFormed(f, hdr);
      ExtractFrontFrame(f, more, hdr);
      ExtractConcat(fs[1..], tail, hdr);
      AppendAssoc([f], fs[1..], Extract(tail, hdr).0);
    }
  }

  /** Whole frames alone come back exactly, with nothing left over. */
  lemma ExtractFramesExactly(fs: seq<seq<byte>>, hdr: nat)
    requires hdr >= LENGTH_FIELD_SIZE
    requires forall i :: 0 <= i < |fs| ==> WellFormed(fs[i], hdr)
    ensures Extract(Concat(fs), hdr) == (fs, [])
  {
    ExtractConcat(fs, [], hdr);
    AppendEmpty(Concat(fs));
    AppendEmpty(fs);
  }

  /**
   * A frame ready at the front of a stream stays ready, with the same
   * declared size, when more bytes arrive behind it.
   */
  lemma ReadyPrefix(s: seq<byte>, t: seq<byte>, hdr: nat)
    requires hdr >= LENGTH_FIELD_SIZE
    requires FrameReady(s, hdr)
    ensures FrameReady(s + t, hdr) && DeclaredSize(s + t) == DeclaredSize(s)
  {
    assert (s + t)[..LENGTH_FIELD_SIZE] == s[..LENGTH_FIELD_SIZE];
  }

  /**
   * Extraction does not depend on where a read boundary falls: extracting
   * `s` and then the leftover followed by `t` gives what extracting `s + t`
   * at once gives.
   */
  lemma {:induction false} ExtractAppend(s: seq<byte>, t: seq<byte>, hdr: nat)
    requires hdr >= LENGTH_FIELD_SIZE
    ensures Extract(s + t, hdr).0 == Extract(s, hdr).0 + Extract(Extract(s, hdr).1 + t, hdr).0
    ensures Extract(s + t, hdr).1 == Extract(Extract(s, hdr).1 + t, hdr).1
    decreases |s|
  {
    if FrameReady(s, hdr) {
      var n := DeclaredSize(s);
      ReadyPrefix(s, t, hdr);
      ExtractStep(s, hdr);
      ExtractStep(s + t, hdr);
      assert (s + t)[..n] == s[..n];
      assert (s + t)[n..] == s[n..] + t;
      ExtractAppend(s[n..], t, hdr);
      var rest := Extract(s[n..], hdr);
      var e2 := Extract(rest.1 + t, hdr);
      assert Extract(s, hdr).1 == rest.1;
      AppendAssoc([s[..n]], rest.0, e2.0);
    } else {
      ExtractNotReady(s, hdr);
      AppendEmpty(Extract(s + t, hdr).0);
    }
  }

  /** The frames dispatched over a run of reads, each read appended to the leftover of the last. */
  function PumpFrames(pending: seq<byte>, chunks: seq<seq<byte>>, hdr: nat): seq<seq<byte>>
    requires hdr >= LENGTH_FIELD_SIZE
    decreases |chunks|
  {
    if |chunks| == 0 then []
    else
      var e := Extract(pending + chunks[0], hdr);
      e.0 + PumpFrames(e.1, chunks[1..], hdr)
  }

  /** The leftover after a run of reads. */
  function PumpRest(pending: seq<byte>, chunks: seq<seq<byte>>, hdr: nat): seq<byte>
    requires hdr >= LENGTH_FIELD_SIZE
    decreases |chunks|
  {
    if |chunks| == 0 then pending
    else PumpRest(Extract(pending + chunks[0], hdr).1, chunks[1..], hdr)
  }

  /**
   * However the stream is fragmented into reads, the frames dispatched and
   * the leftover kept are those of the whole stream (starting from a
   * leftover, which holds no complete frame).
   */
  lemma {:induction false} PumpIsExtract(pending: seq<byte>, chunks: seq<seq<byte>>, hdr: nat)
    requires hdr >= LENGTH_FIELD_SIZE
    requires !FrameReady(pending, hdr)
    ensures PumpFrames(pending, chunks, hdr) == Extract(pending + Concat(chunks), hdr).0
    ensures PumpRest(pending, chunks, hdr) == Extract(pending + Concat(chunks), hdr).1
    decreases |chunks|
  {
    if |chunks| == 0 {
      assert pending + Concat(chunks) == pending;
      ExtractNotReady(pending, hdr);
    } else {
      var e := Extract(pending + chunks[0], hdr);
      ExtractPartition(pending + chunks[0], hdr);
      PumpIsExtract(e.1, chunks[1..], hdr);
      ExtractAppend(pending + chunks[0], Concat(chunks[1..]), hdr);
      ConcatCons(chunks[0], chunks[1..]);
      assert chunks == [chunks[0]] + chunks[1..];
      assert pending + Concat(chunks) == (pending + chunks[0]) + Concat(chunks[1..]);
    }
  }

  // ---------------------------------------------------------------------
  // The loop as written, which builds the header object once (line 19)
  // ---------------------------------------------------------------------

  /**
   * What the loop of do_read consumes when the size is taken from the
   * header object built once before the loop: every round removes `size`
   * bytes, whatever the header now at the front of the buffer says.
   */
  function ConsumeAsWritten(s: seq<byte>, hdr: nat, size: nat): (r: (seq<seq<byte>>, seq<byte>))
    requires size > 0
    ensures Concat(r.0) + r.1 == s
    ensures forall i :: 0 <= i < |r.0| ==> |r.0[i]| == size
    decreases |s|
  {
    if |s| >= hdr && |s| >= size then
      var rest := ConsumeAsWritten(s[size..], hdr, size);
      ConcatCons(s[..size], rest.0);
      AppendAssoc(s[..size], Concat(rest.0), rest.1);
      assert s[..size] + s[size..] == s;
      ([s[..size]] + rest.0, rest.1)
    else
      ([], s)
  }

  /** A frame of 8 bytes (header declares 8), then one of 12 (header declares 12). */
  function FrameA(): seq<byte> { [8, 0, 0, 0, 1, 1, 1, 1] }
  function FrameB(): seq<byte> { [12, 0, 0, 0, 2, 2, 2, 2, 3, 3, 3, 3] }

  /**
   * Two back-to-back frames of different sizes arriving in one read: taking
   * every size from the first header cuts the second frame after 8 bytes and
   * keeps 4 bytes of it as a bogus leftover, while re-reading each header
   * yields both frames and no leftover.
   */
  lemma HeaderReadOnceSplitsSecondFrame()
    ensures WellFormed(FrameA(), 8) && WellFormed(FrameB(), 8)
    ensures ConsumeAsWritten(FrameA() + FrameB(), 8, DeclaredSize(FrameA() + FrameB()))
            == ([FrameA(), FrameB()[..8]], FrameB()[8..])
    ensures Extract(FrameA() + FrameB(), 8) == ([FrameA(), FrameB()], [])
  {
    var a, b := FrameA(), FrameB();
    var s := a + b;
    assert |a| == 8 && |b| == 12;
    assert DeclaredSize(s) == 8;
    assert s[..8] == a;
    assert s[8..] == b;
    var tail := b[8..];
    assert |tail| == 4;
    assert ConsumeAsWritten(tail, 8, 8) == ([], tail);
    var rb := ConsumeAsWritten(b, 8, 8);
    assert rb.0 == [b[..8]] + ConsumeAsWritten(tail, 8, 8).0;
    AppendEmpty([b[..8]]);
    assert rb == ([b[..8]], tail);
    var rs := ConsumeAsWritten(s, 8, 8);
    assert rs.0 == [a] + rb.0;
    assert [a] + [b[..8]] == [a, b[..8]];
    ExtractFramesExactly([a, b], 8);
    assert [b][1..] == [] && [a, b][1..] == [b];
    assert Concat([b]) == b + Concat([]) == b;
    assert Concat([a, b]) == a + Concat([b]) == s;
  }

  /**
   * The loop as written when the header at the front declares size 0: the
   * round consumes nothing, so after any number of rounds the buffer length
   * is unchanged and the loop condition still holds.
   */
  function AsWrittenRounds(curlen: nat, size: nat, k: nat): nat
    decreases k
  {
    if k == 0 || curlen < size then curlen else AsWrittenRounds(curlen - size, size, k - 1)
  }

  lemma {:induction false} ZeroSizeNeverExits(curlen: nat, hdr: nat, k: nat)
    requires curlen >= hdr
    ensures AsWrittenRounds(curlen, 0, k) == curlen
    ensures AsWrittenRounds(curlen, 0, k) >= hdr
    decreases k
  {
    if k > 0 {
      ZeroSizeNeverExits(curlen, hdr, k - 1);
    }
  }

  // ---------------------------------------------------------------------
  // The session
  // ---------------------------------------------------------------------

  class ServerSess {
    /** Capacity of the receive buffer (max_length). */
    const maxLength: nat
    /** sizeof(Header): bytes needed before a frame size can be trusted. */
    const headerSize: nat
    /** sizeof(TransBaseMsg_t): reads of at most this many bytes are ignored. */
    const baseMsgSize: nat
    /** Whether the session has an owning server (m_server != nullptr). */
    const hasServer: bool

    var recvbuf: array<byte>
    var recvpos: nat
    /** m_bConnect */
    var connected: bool
    /** A read is outstanding on the socket (do_read armed). */
    var reading: bool
    /** Frames handed to the owning server's DispatchRecvTcpMsg, in order. */
    var dispatched: seq<seq<byte>>
    /** How many times the owning server was told OnSessClose. */
    var closeNotices: nat

    ghost predicate Valid()
      reads this
    {
      recvbuf.Length == maxLength && recvpos <= maxLength && headerSize >= LENGTH_FIELD_SIZE
    }

    /** The bytes received and not yet dispatched. */
    function Pending(): seq<byte>
      reads this, recvbuf
      requires Valid()
    {
      recvbuf[..recvpos]
    }

    constructor (maxLength: nat, headerSize: nat, baseMsgSize: nat, hasServer: bool)
      requires headerSize >= LENGTH_FIELD_SIZE
      ensures Valid() && fresh(recvbuf)
      ensures this.maxLength == maxLength && this.headerSize == headerSize
      ensures this.baseMsgSize == baseMsgSize && this.hasServer == hasServer
      ensures Pending() == [] && connected && reading
      ensures dispatched == [] && closeNotices == 0
    {
      this.maxLength := maxLength;
      this.headerSize := headerSize;
      this.baseMsgSize := baseMsgSize;
      this.hasServer := hasServer;
      recvbuf := new byte[maxLength];
      recvpos := 0;
      connected := true;
      reading := true;
      dispatched := [];
      closeNotices := 0;
    }

    /**
     * Where a read may write: the window starts at recvpos and is
     * max_length - recvpos long, so it ends exactly at the buffer's end.
     */
    function ReadWindow(): (w: (nat, nat))
      reads this
      requires Valid()
      ensures w.0 == recvpos
      ensures w.0 + w.1 == recvbuf.Length
    {
      (recvpos, maxLength - recvpos)
    }

    /** handle_message: pass a frame to the owning server, if there is one. */
    method HandleMessage(frame: seq<byte>)
      modifies this`dispatched
      ensures dispatched == old(dispatched) + (if hasServer then [frame] else [])
    {
      if hasServer {
        dispatched := dispatched + [frame];
      }
    }

    /** CloseSocket: mark the session disconnected and tell the owning server. */
    method CloseSocket()
      modifies this`connected, this`closeNotices
      ensures !connected
      ensures closeNotices == old(closeNotices) + (if hasServer then 1 else 0)
    {
      connected := false;
      if hasServer {
        closeNotices := closeNotices + 1;
      }
    }

    /** The socket stores `data` in the read window. */
    method Receive(data: seq<byte>)
      requires Valid()
      requires |data| <= maxLength - recvpos
      modifies recvbuf
      ensures recvbuf[..recvpos] == old(Pending())
      ensures recvbuf[..recvpos + |data|] == old(Pending()) + data
    {
      var i := 0;
      while i < |data|
        invariant 0 <= i <= |data|
        invariant recvbuf[..recvpos] == old(Pending())
        invariant recvbuf[recvpos..recvpos + i] == data[..i]
      {
        recvbuf[recvpos + i] := data[i];
        i := i + 1;
        assert recvbuf[recvpos..recvpos + i] == recvbuf[recvpos..recvpos + i - 1] + [data[i - 1]];
        assert data[..i] == data[..i - 1] + [data[i - 1]];
      }
      assert data[..|data|] == data;
      assert recvbuf[..recvpos + |data|] == recvbuf[..recvpos] + recvbuf[recvpos..recvpos + |data|];
    }

    /** memmove(recvbuf, recvbuf + from, len): move `len` bytes to the front, in order. */
    method Compact(from: nat, len: nat)
      requires from + len <= recvbuf.Length
      modifies recvbuf
      ensures recvbuf[..len] == old(recvbuf[from..from + len])
    {
      var i := 0;
      while i < len
        invariant 0 <= i <= len
        invariant recvbuf[..i] == old(recvbuf[from..from + i])
        invariant forall k :: i <= k < recvbuf.Length ==> recvbuf[k] == old(recvbuf[k])
      {
        recvbuf[i] := recvbuf[from + i];
        i := i + 1;
      }
    }

    /**
     * The loop of do_read over the first `len` buffered bytes: while a
     * complete frame is at the front it is handed on and the rest moved to
     * the front. Returns the number of bytes left (curlen).
     */
    method DrainFrames(len: nat) returns (curlen: nat)
      requires Valid() && len <= maxLength
      modifies recvbuf, this`dispatched
      ensures curlen <= len
      ensures recvbuf[..curlen] == Extract(old(recvbuf[..len]), headerSize).1
      ensures dispatched == old(dispatched) + (if hasServer then Extract(old(recvbuf[..len]), headerSize).0 else [])
    {
      curlen := len;
      ghost var whole := Extract(recvbuf[..len], headerSize);
      ghost var taken: seq<seq<byte>> := [];
      ghost var rest := recvbuf[..len];
      AppendEmpty(whole.0);
      AppendEmpty(dispatched);
      while curlen >= headerSize && 0 < DeclaredSize(recvbuf[..curlen]) <= curlen
        invariant curlen <= len <= recvbuf.Length
        invariant rest == recvbuf[..curlen]
        invariant whole.0 == taken + Extract(rest, headerSize).0
        invariant whole.1 == Extract(rest, headerSize).1
        invariant hasServer ==> dispatched == old(dispatched) + taken
        invariant !hasServer ==> dispatched == old(dispatched)
        decreases curlen
      {
        // the header now at the front of the buffer gives this frame's size
        var size := DeclaredSize(recvbuf[..curlen]);
        var frame := recvbuf[..size];
        assert frame == rest[..size];
        TakeFrame(whole, taken, rest, headerSize);
        HandleMessage(frame);
        AppendAssoc(old(dispatched), taken, [frame]);
        taken := taken + [frame];
        curlen := curlen - size;
        rest := rest[size..];
        assert rest == recvbuf[size..size + curlen];
        Compact(size, curlen);
      }
      ExtractNotReady(rest, headerSize);
      AppendEmpty(taken);
    }

    /**
     * Completion of the read armed by do_read, with `data` the bytes the
     * socket delivered and `ec` whether it reported an error.
     */
    method OnReadComplete(data: seq<byte>, ec: bool)
      requires Valid() && reading
      requires |data| <= maxLength - recvpos
      modifies recvbuf, this`recvpos, this`reading, this`connected, this`dispatched, this`closeNotices
      ensures Valid()
      // a read of at most sizeof(TransBaseMsg_t) bytes is dropped and reading is not re-armed
      ensures |data| <= baseMsgSize ==>
                && Pending() == old(Pending()) && dispatched == old(dispatched)
                && !reading && connected == old(connected) && closeNotices == old(closeNotices)
      // otherwise every complete frame is dispatched, in order, and the rest is kept
      ensures |data| > baseMsgSize ==>
                var e := Extract(old(Pending()) + data, headerSize);
                && dispatched == old(dispatched) + (if hasServer then e.0 else [])
                && Pending() == e.1
                && reading == (recvpos < maxLength && !ec)
                && connected == (old(connected) && reading)
                && closeNotices == old(closeNotices) + (if !reading && hasServer then 1 else 0)
    {
      reading := false;
      Receive(data);
      if |data| > baseMsgSize {
        var curlen := DrainFrames(recvpos + |data|);
        recvpos := curlen;
        if recvpos < maxLength && !ec {
          reading := true;
        } else {
          CloseSocket();
        }
      }
    }
  }
}
