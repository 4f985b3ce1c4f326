/**
 * Shared vocabulary of the relay model: optional values, byte and id types,
 * session handles, error codes and the states a login can be in.
 */
module Common {

  datatype Option<+T> = None | Some(value: T)

  /** One octet of a TCP or UDP stream. */
  type byte = x: int | 0 <= x < 256

  /** Ids and names are strings on the wire (user ids, message ids, hashes). */
  type UserId = string

  /**
   * Sessions are opaque handles: the model only compares them for equality.
   * A ClientSess talks to the backend chat server, a ServerSess to a GUI,
   * a UdpSess is the per-user UDP socket.
   */
  datatype ClientSess = ClientSess(handle: nat)
  datatype ServerSess = ServerSess(handle: nat)
  datatype UdpSess = UdpSess(handle: nat)

  /** A UDP peer address. */
  datatype Endpoint = Endpoint(ip: string, port: int)

  /** The error codes the relay reads or writes (ERROR_CODE_TYPE). */
  datatype ErrorCode =
    | Succeed           // E_CODE_SUCCEED
    | LoginFailed       // E_CODE_LOGIN_FAILED
    | FileTransing      // E_CODE_FILE_TRANSING
    | OtherError(code: int)

  /** Login state of a user (CLIENT_SESS_STATE). */
  datatype SessState = LoginSend | LoginFinished | Logout

  /** What a file transfer carries (CHAT_MSG_TYPE of a file). */
  datatype FileType = FileTypeFile | FileTypeImage | OtherFileType(code: int)

  /** Direction of a transfer, as reported to the GUI. */
  datatype Direction = SendDirection | RecvDirection

  /** How a file offer is to be carried (FILE_TRANS_TYPE). */
  datatype TransMode = TcpOfflineMode | UdpOnlineP2PMode | UdpOfflineMode | OtherMode(code: int)

  /** Outcome of a whole file transfer, as reported to the GUI. */
  datatype TransResult = TransSucceed | TransFailed

  /** The id and name a session has been told (UserId() / UserName()). */
  datatype Ident = Ident(userId: UserId, userName: string)

  /** What the file helper reports about one file on disk. */
  datatype FileInfo = FileInfo(size: nat, hash: string)

  /**
   * The file system as the relay's file helper sees it during one handler:
   * the folders that exist and the files with their sizes and content hashes.
   * Writes, copies and removals are requests (effects); the snapshot is what
   * the helper's queries answer.
   */
  datatype Disk = Disk(folders: set<string>, files: map<string, FileInfo>)

  /** CalcHash: the content hash of a file, empty when the file is missing. */
  function CalcHash(d: Disk, path: string): string
  {
    if path in d.files then d.files[path].hash else ""
  }

  /** GetFileSize: the size of a file, left at 0 when the file is missing. */
  function FileSize(d: Disk, path: string): nat
  {
    if path in d.files then d.files[path].size else 0
  }

  /** Lookup in a map, None when the key is absent. */
  function Lookup<K, V>(m: map<K, V>, k: K): (r: Option<V>)
    ensures r.Some? <==> k in m
    ensures r.Some? ==> r.value == m[k]
  {
    if k in m then Some(m[k]) else None
  }

  /** `std::map::insert`: a no-op when the key is already present. */
  function InsertIfAbsent<K, V>(m: map<K, V>, k: K, v: V): (r: map<K, V>)
    ensures k in r && r[k] == (if k in m then m[k] else v)
    ensures r.Keys == m.Keys + {k}
    ensures forall j :: j in m && j != k ==> r[j] == m[j]
  {
    if k in m then m else m[k := v]
  }

  /**
   * C++ integer division of two ints: the quotient is truncated toward zero
   * (Dafny's own `/` is Euclidean and differs on negative operands).
   */
  function TruncDiv(a: int, b: int): (q: int)
    requires b != 0
    ensures a >= 0 && b > 0 ==> q == a / b
  {
    var n := if a < 0 then -a else a;
    var d := if b < 0 then -b else b;
    if (a < 0) == (b < 0) then n / d else -(n / d)
  }

  /**
   * `order` lists every element of `s` exactly once: the order in which a
   * loop over a map's keys visits them (std::map's own order is not modelled).
   */
  ghost predicate Enumerates<K(!new)>(order: seq<K>, s: set<K>)
  {
    (forall i, j :: 0 <= i < j < |order| ==> order[i] != order[j]) &&
    (forall k :: k in order <==> k in s)
  }

  /**
   * Sequence concatenation is associative and has the empty sequence as
   * unit. Stated once for any element type, so that proofs about sequences
   * of sequences need not compare elements.
   */
  lemma AppendAssoc<T>(a: seq<T>, b: seq<T>, c: seq<T>)
    ensures (a + b) + c == a + (b + c)
  {
  }

  lemma AppendEmpty<T>(a: seq<T>)
    ensures a + [] == a && [] + a == a
  {
  }
}
