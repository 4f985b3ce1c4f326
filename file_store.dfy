/**
 * The per-user message store's table of received files (content hash to
 * file name), and the answers and notices the relay builds around a file
 * upload or download: the answer to a begin request, the answer to a
 * verification request, and the transfer-result notice a GUI is given for
 * ordinary files (images get none).
 */
module FileStore {
  import opened Common
  import opened Messages

  /**
   * Get_FileByHash on the user's store (2562-2570): the file stored for
   * `hash`, or "" when the user has no open store or the store does not
   * know the hash.
   */
  function FileByHash(stores: map<UserId, map<string, string>>, id: UserId, hash: string): (name: string)
    ensures id !in stores ==> name == ""
    ensures id in stores && hash !in stores[id] ==> name == ""
    ensures id in stores && hash in stores[id] ==> name == stores[id][hash]
  {
    if id in stores && hash in stores[id] then stores[id][hash] else ""
  }

  /**
   * Save_FileHash after a verified download (1114-1122): the user's store,
   * when it is open, records `name` under `hash`; without a store nothing is
   * saved.
   */
  function SavedHash(stores: map<UserId, map<string, string>>, id: UserId, name: string, hash: string)
    : (r: map<UserId, map<string, string>>)
    ensures r.Keys == stores.Keys
    ensures id in stores ==> r[id] == stores[id][hash := name]
    ensures forall u :: u in stores && u != id ==> r[u] == stores[u]
  {
    if id in stores then stores[id := stores[id][hash := name]] else stores
  }

  /**
   * A file saved after verification is found again by its hash: a later
   * begin request for the same content is answered as already present
   * (when the saved name is not empty) instead of being transferred anew.
   */
  lemma SavedThenFound(stores: map<UserId, map<string, string>>, id: UserId, name: string, hash: string, h2: string)
    requires id in stores
    ensures FileByHash(SavedHash(stores, id, name, hash), id, hash) == name
    ensures h2 != hash ==> FileByHash(SavedHash(stores, id, name, hash), id, h2) == FileByHash(stores, id, h2)
  {
  }

  /** The answer to a begin request (2576-2583, 2599-2606): the request's fields echoed under `code`. */
  function BeginRspOf(req: Msg, code: ErrorCode): (rsp: Msg)
    requires req.FileSendDataBeginReq?
    ensures rsp.FileSendDataBeginRsp? && rsp.errCode == code
    ensures (rsp.msgId, rsp.fileId, rsp.userId, rsp.friendId, rsp.fileName, rsp.fileType) ==
            (req.msgId, req.fileId, req.userId, req.friendId, req.fileName, req.fileType)
  {
    FileSendDataBeginRsp(req.msgId, code, req.fileId, req.userId, req.friendId, req.fileName, req.fileType)
  }

  /**
   * The answer to a verification request (1101-1135): success with the
   * hash when the received file's hash matches the one claimed, otherwise
   * the login-failure code with an empty hash.
   */
  function VerifyRspOf(req: Msg, recvHash: string): (rsp: Msg)
    requires req.FileVerifyReq?
    ensures rsp.FileVerifyRsp?
    ensures rsp.errCode == Succeed <==> req.fileHash == recvHash
    ensures rsp.errCode != Succeed ==> rsp.errCode == LoginFailed && rsp.fileHash == ""
    ensures rsp.errCode == Succeed ==> rsp.fileHash == recvHash
    ensures (rsp.msgId, rsp.fileId, rsp.userId, rsp.friendId, rsp.fileName) ==
            (req.msgId, req.fileId, req.userId, req.friendId, req.fileName)
  {
    var ok := req.fileHash == recvHash;
    FileVerifyRsp(req.msgId, if ok then Succeed else LoginFailed, req.fileId, req.userId, req.friendId,
                  req.fileName, if ok then recvHash else "")
  }

  /**
   * The transfer-result notice for the content with hash `hash` (1141-1176,
   * 1207-1239): only content recorded as an ordinary file gets one; it goes
   * to the user's GUI session, and with no GUI session the handler
   * dereferences a null session (NullDeref at `line`).
   */
  function ResultNotice(hashType: map<string, FileType>, gui: Option<ServerSess>, hash: string,
                        notice: Msg, line: nat): (r: seq<Effect>)
    ensures |r| <= 1
    ensures r != [] <==> hash in hashType && hashType[hash] == FileTypeFile
    ensures r != [] && gui.Some? ==> r[0] == ToGui(gui.value, Built(notice))
    ensures r != [] && gui.None? ==> r[0] == NullDeref(line)
  {
    if hash in hashType && hashType[hash] == FileTypeFile then
      if gui.Some? then [ToGui(gui.value, Built(notice))] else [NullDeref(line)]
    else []
  }

  /**
   * A failed verification answers with the empty hash, so its failure
   * notice is sent only if the empty hash was itself recorded as a file:
   * the receiving GUI is normally never told of a failed download.
   */
  lemma FailedVerifyNoticeKeyedByEmpty(req: Msg, recvHash: string, hashType: map<string, FileType>,
                                       gui: Option<ServerSess>, notice: Msg, line: nat)
    requires req.FileVerifyReq? && req.fileHash != recvHash
    requires "" !in hashType
    ensures ResultNotice(hashType, gui, VerifyRspOf(req, recvHash).fileHash, notice, line) == []
  {
  }
}
