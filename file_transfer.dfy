/**
 * The chunked file-transfer engine of the relay: a file is cut into
 * 1024-byte chunks numbered from 1; the receiver writes and acknowledges a
 * chunk whose index is within the announced total and closes its file at
 * the last one; the sender answers each acknowledgement with the next chunk
 * or, after the last one, with a verification request.
 */
module FileTransfer {
  import opened Common
  import opened Messages

  /** Bytes per chunk (the 1024 passed to OnReadData). */
  const CHUNK_SIZE: nat := 1024

  /**
   * Number of chunks announced for a file of `size` bytes (1263, 1303,
   * 2831 of CMediumServer.cpp): the least n with n chunks covering the file.
   */
  function ChunkCount(size: nat): (n: nat)
    ensures n * CHUNK_SIZE >= size
    ensures n > 0 ==> (n - 1) * CHUNK_SIZE < size
  {
    size / CHUNK_SIZE + (if size % CHUNK_SIZE == 0 then 0 else 1)
  }

  /** The chunk count is the only number of chunks that covers the file with no chunk to spare. */
  lemma ChunkCountUnique(size: nat, n: nat)
    requires n * CHUNK_SIZE >= size
    requires n > 0 ==> (n - 1) * CHUNK_SIZE < size
    ensures n == ChunkCount(size)
  {
  }

  /** An empty file is announced with zero chunks; any other file with at least one. */
  lemma ChunkCountZero(size: nat)
    ensures ChunkCount(size) == 0 <==> size == 0
  {
  }

  /** The receiver writes and acknowledges a chunk exactly when its index is within the total. */
  predicate Acknowledges(index: int, total: int) { index <= total }

  /** The receiver closes its write file exactly at the last chunk. */
  predicate ClosesWrite(index: int, total: int) { index == total }

  /** The sender answers an acknowledgement with another chunk exactly when chunks remain. */
  predicate SendsNext(index: int, total: int) { index < total }

  /**
   * The progress percentage reported to the GUI: 100*index/total with C++
   * truncating division, left unset (None) when the total is zero.
   */
  function Percent(index: int, total: int): (p: Option<int>)
    ensures p.Some? <==> total != 0
  {
    if total != 0 then Some(TruncDiv(100 * index, total)) else None
  }

  /** Within a transfer the percentage stays between 0 and 100, and is 100 at the last chunk. */
  lemma PercentBounds(index: int, total: int)
    requires 0 <= index <= total && total > 0
    ensures Percent(index, total).Some?
    ensures 0 <= Percent(index, total).value <= 100
    ensures index == total ==> Percent(index, total).value == 100
  {
    assert 100 * index <= 100 * total;
    assert (100 * total) / total == 100;
  }

  /** The percentage never goes down as the index grows. */
  lemma PercentMonotone(i: int, j: int, total: int)
    requires 0 <= i <= j && total > 0
    ensures Percent(i, total).value <= Percent(j, total).value
  {
    assert 100 * i <= 100 * j;
    DivMonotone(100 * i, 100 * j, total);
  }

  lemma DivMonotone(a: nat, b: nat, d: nat)
    requires a <= b && d > 0
    ensures a / d <= b / d
  {
    var q, p := a / d, b / d;
    assert q * d <= a;
    assert b < (p + 1) * d;
    MulLessCancel(q, p + 1, d);
  }

  lemma MulLessCancel(x: int, y: int, d: int)
    requires d > 0 && x * d < y * d
    ensures x < y
  {
  }

  /**
   * What the sender does on an acknowledgement of chunk `rsp.index`
   * (DoSendBackFileDataSendRsp, 231-264, and its UDP twin, 272-337).
   */
  datatype SendStep =
    | NextChunk(req: Msg)          // the next data request (a blank one when reading failed)
    | VerifyFile(req: Msg)         // the verification request; the read file is then closed

  /**
   * `chunk` is what reading the next chunk of the open file yields (None
   * when the read fails); `newId` is the message id the relay generates;
   * `path` is the name under which file `rsp.fileId` was opened.
   */
  function AfterAck(rsp: Msg, chunk: Option<seq<byte>>, newId: string, path: string, d: Disk, baseName: string): (s: SendStep)
    requires rsp.FileDataSendRsp?
    ensures s.NextChunk? <==> SendsNext(rsp.index, rsp.total)
    ensures s.NextChunk? && chunk.Some? ==>
              s.req.FileDataSendReq? && s.req.index == rsp.index + 1 && s.req.data == chunk.value &&
              (s.req.fileId, s.req.userId, s.req.friendId, s.req.total) == (rsp.fileId, rsp.userId, rsp.friendId, rsp.total)
    ensures s.NextChunk? && chunk.None? ==> s.req == BlankDataSendReq()
    ensures s.VerifyFile? ==>
              s.req.FileVerifyReq? && s.req.fileHash == CalcHash(d, path) && s.req.fileSize == FileSize(d, path) &&
              (s.req.fileId, s.req.userId, s.req.friendId) == (rsp.fileId, rsp.userId, rsp.friendId)
  {
    if SendsNext(rsp.index, rsp.total) then
      match chunk
      case Some(data) =>
        NextChunk(FileDataSendReq(newId, rsp.fileId, rsp.userId, rsp.friendId, rsp.total, rsp.index + 1, data))
      case None => NextChunk(BlankDataSendReq())
    else
      VerifyFile(FileVerifyReq(newId, rsp.fileId, rsp.userId, rsp.friendId, baseName, FileSize(d, path), CalcHash(d, path)))
  }

  /**
   * How many message ids the sender's answer consumes: one for the
   * verification request, one for a chunk that was read, none when the read
   * of the next chunk fails.
   */
  function AckIds(rsp: Msg, chunk: Option<seq<byte>>): (n: nat)
    requires rsp.FileDataSendRsp?
    ensures n <= 1
    ensures n == 0 <==> SendsNext(rsp.index, rsp.total) && chunk.None?
  {
    if SendsNext(rsp.index, rsp.total) && chunk.None? then 0 else 1
  }

  /** What the data field of a request holds: the chunk read, or nothing when the read fails. */
  function ReadOrEmpty(chunk: Option<seq<byte>>): (data: seq<byte>)
    ensures chunk.Some? ==> data == chunk.value
    ensures chunk.None? ==> data == []
  {
    if chunk.Some? then chunk.value else []
  }

  /** The receiver's acknowledgement of a chunk sent peer to peer (159-167): the request's fields echoed. */
  function SendAckOf(req: Msg): (rsp: Msg)
    requires req.FileDataSendReq?
  {
    FileDataSendRsp(req.msgId, req.fileId, req.userId, req.friendId, req.total, req.index)
  }

  /** The receiver's acknowledgement of a chunk relayed by the server (1346-1354, 1375-1382). */
  function RecvAckOf(req: Msg): (rsp: Msg)
    requires req.FileDataRecvReq?
  {
    FileDataRecvRsp(req.msgId, req.fileId, req.userId, req.friendId, req.total, req.index)
  }

  /**
   * The two ends agree: the sender's answer to the receiver's
   * acknowledgement of chunk i is chunk i + 1 of the same file while chunks
   * remain (and the read succeeds); otherwise it is the verification of the
   * same file, and that happens exactly when the receiver closed its file.
   */
  lemma AckedChunkAdvances(req: Msg, data: seq<byte>, newId: string, path: string, d: Disk, baseName: string)
    requires req.FileDataSendReq? && Acknowledges(req.index, req.total)
    ensures var s := AfterAck(SendAckOf(req), Some(data), newId, path, d, baseName);
            SendsNext(req.index, req.total) ==>
              s == NextChunk(FileDataSendReq(newId, req.fileId, req.userId, req.friendId, req.total, req.index + 1, data))
    ensures var s := AfterAck(SendAckOf(req), Some(data), newId, path, d, baseName);
            !SendsNext(req.index, req.total) ==>
              s.VerifyFile? && ClosesWrite(req.index, req.total) && s.req.fileId == req.fileId
  {
  }

  /**
   * One whole transfer as seen on the wire when every read succeeds and
   * nothing is lost: the sender sends chunk `index`; the receiver answers
   * only when it acknowledges it; the sender then goes on with the next
   * chunk or finishes with the verification request.
   */
  datatype Step = Data(index: int) | Verify

  function Trace(index: int, total: int): seq<Step>
    decreases if index <= total then total - index + 1 else 0
  {
    if !Acknowledges(index, total) then [Data(index)]          // no answer: the transfer stalls
    else if SendsNext(index, total) then [Data(index)] + Trace(index + 1, total)
    else [Data(index), Verify]
  }

  /**
   * Starting from chunk `i` of a `total`-chunk file, the chunks i..total
   * are sent in order, exactly once each, followed by one verification
   * request and nothing else; in particular the write file is closed once.
   */
  lemma {:induction false} TraceShape(i: int, total: int)
    requires 1 <= i <= total
    ensures |Trace(i, total)| == total - i + 2
    ensures forall k :: 0 <= k <= total - i ==> Trace(i, total)[k] == Data(i + k)
    ensures Trace(i, total)[total - i + 1] == Verify
    decreases total - i
  {
    if i < total {
      TraceShape(i + 1, total);
      var t := Trace(i + 1, total);
      assert Trace(i, total) == [Data(i)] + t;
      forall k | 0 <= k <= total - i ensures Trace(i, total)[k] == Data(i + k) {
        if k > 0 {
          assert Trace(i, total)[k] == t[k - 1];
        }
      }
    }
  }

  /** A whole transfer: chunks 1..total in order, then one verification request. */
  lemma TransferCompletes(total: int)
    requires total >= 1
    ensures |Trace(1, total)| == total + 1
    ensures forall k :: 0 <= k < total ==> Trace(1, total)[k] == Data(k + 1)
    ensures Trace(1, total)[total] == Verify
    ensures forall k :: 0 <= k < total ==> (ClosesWrite(Trace(1, total)[k].index, total) <==> k == total - 1)
  {
    TraceShape(1, total);
  }

  /**
   * An empty file is announced with zero chunks, but its first request
   * still carries index 1, which the receiver does not acknowledge: the
   * transfer never reaches verification.
   */
  lemma EmptyFileStalls()
    ensures Trace(1, ChunkCount(0)) == [Data(1)]
  {
  }
}
