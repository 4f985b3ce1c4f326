/**
 * The medium server (CMediumServer) of the TinyIM client core: it sits
 * between the GUI sessions and the backend chat server, keeps the tables
 * that say which user is on which connection, holds chat messages whose
 * images are still being transferred, drives the chunked file transfers
 * and the UDP rendezvous between friends, and runs a once-a-second
 * housekeeping timer.
 *
 * The tables are the class's fields; everything a handler does to the
 * world outside them (messages sent, connections started, files written)
 * is appended to `effects` in the order the handler does it. Message ids
 * come from `genId` applied to a counter, and the file system is a
 * read-only snapshot (`Disk`) handed to the handlers that query it.
 */
module Relay {
  import opened Common
  import opened Messages
  import opened Sessions
  import opened ChatContent
  import opened UserPaths
  import opened Rendezvous
  import opened RelayPlans
  import opened ConnectionRounds
  import opened HeldMessages
  import opened FileStore
  import Dispatch
  import FileTransfer
  import Housekeeping
  import RetryQueue

  /** The stored fields of a login request, and the request they give back. */
  function CredentialsOf(req: LoginReq): (l: Credentials)
    ensures LoginMsg(l) == req
  {
    Credentials(req.msgId, req.userName, req.password, req.osType)
  }

  function LoginMsg(l: Credentials): (m: LoginReq)
    ensures m.userName == l.userName
  {
    UserLoginReq(l.msgId, l.userName, l.password, l.osType)
  }

  /**
   * The GUI and backend pairings are each other's inverse, and every
   * paired session is older than the next one of its kind to be made.
   */
  ghost predicate PairsValid(forward: map<ServerSess, ClientSess>, back: map<ClientSess, ServerSess>,
                             nextHandle: nat, nextGui: nat)
  {
    Paired(forward, back) &&
    (forall c :: c in back ==> c.handle < nextHandle) &&
    (forall s :: s in forward ==> s.handle < nextGui)
  }

  /**
   * What a successful login sends, given the UDP sessions and next UDP
   * handle before it and the message id it generates: the new UDP session
   * is started when the user had none, the user's folders are created
   * where missing, the friend list is requested on the login's backend
   * session, and the answer is passed on to the user's GUI session.
   */
  function LoginTraffic(c: ClientSess, rsp: Msg, d: Disk, curDir: string, udpSessOf: map<UserId, UdpSess>, nextUdp: nat,
                        gui: map<UserId, ServerSess>, msgId: string): (r: seq<Effect>)
    requires rsp.UserLoginRsp?
  {
    (if rsp.userId in udpSessOf then [] else [StartUdp(UdpSess(nextUdp))]) +
    UserFolders(d, curDir, rsp.userName) +
    [ToBackend(c, Built(GetFriendListReq(msgId, rsp.userId)))] +
    (if rsp.userId in gui then [ToGui(gui[rsp.userId], Built(rsp))] else [])
  }

  /** The user's main, image and file folders, in that order, each requested where the disk lacks it. */
  function UserFolders(d: Disk, curDir: string, name: string): (r: seq<Effect>)
    ensures forall e :: e in r ==>
              e.CreateFolder? && e.path !in d.folders &&
              (e.path == MainFolder(curDir, name) || e.path == ImageDir(curDir, name) || e.path == FileDir(curDir, name))
    ensures MainFolder(curDir, name) !in d.folders ==> CreateFolder(MainFolder(curDir, name)) in r
    ensures ImageDir(curDir, name) !in d.folders ==> CreateFolder(ImageDir(curDir, name)) in r
    ensures FileDir(curDir, name) !in d.folders ==> CreateFolder(FileDir(curDir, name)) in r
  {
    CreateIfMissing(d, MainFolder(curDir, name)) + CreateIfMissing(d, ImageDir(curDir, name)) +
    CreateIfMissing(d, FileDir(curDir, name))
  }

  /** A CreateFolder request for a folder the disk does not have. */
  function CreateIfMissing(d: Disk, path: string): seq<Effect>
  {
    if path in d.folders then [] else [CreateFolder(path)]
  }

  /** The message stores after a login: a user's store is opened when it is not, and opening it works. */
  function OpenedStore(stores: map<UserId, map<string, string>>, id: UserId, db: Option<map<string, string>>)
    : (r: map<UserId, map<string, string>>)
    ensures id in stores ==> r == stores
    ensures id !in stores && db.Some? ==> id in r && r[id] == db.value
    ensures forall u :: u != id ==> (u in r <==> u in stores)
  {
    if id !in stores && db.Some? then stores[id := db.value] else stores
  }

  /**
   * The first data request of an agreed file offer (1259-1273, 1294-1304):
   * chunk 1 of the file's chunk count, carrying what the first read yields.
   */
  function FirstChunk(id: string, n: Msg, chunk: Option<seq<byte>>, d: Disk): (req: Msg)
    requires n.FriendNotifyFileMsgReq?
    ensures req.FileDataSendReq? && req.index == 1 && req.total == FileTransfer.ChunkCount(FileSize(d, n.fileName))
    ensures (req.msgId, req.fileId, req.userId, req.friendId) == (id, n.fileId, n.userId, n.friendId)
  {
    FileDataSendReq(id, n.fileId, n.userId, n.friendId, FileTransfer.ChunkCount(FileSize(d, n.fileName)), 1,
                    FileTransfer.ReadOrEmpty(chunk))
  }

  /** A message sent on a user's backend session, when the registry has one for the user. */
  function BackendSend(r: Registry, id: UserId, m: Msg): (e: seq<Effect>)
    ensures |e| <= 1 && (e != [] <==> id in r.clientSessOf)
    ensures e != [] ==> e[0] == ToBackend(r.clientSessOf[id], Built(m))
  {
    if id in r.clientSessOf then [ToBackend(r.clientSessOf[id], Built(m))] else []
  }

  /** A message sent on a user's GUI session, when the user has one. */
  function GuiSend(r: Registry, id: UserId, m: Msg): (e: seq<Effect>)
    ensures |e| <= 1 && (e != [] <==> id in r.guiSessOf)
    ensures e != [] ==> e[0] == ToGui(r.guiSessOf[id], Built(m))
  {
    if id in r.guiSessOf then [ToGui(r.guiSessOf[id], Built(m))] else []
  }

  /**
   * What the world outside the tables answers while one packet is handled:
   * the file system snapshot, the user's message store as opened from its
   * database file (None when opening fails), the next chunk read from an
   * open file (None when the read fails), the clock, the file ids drawn for
   * a chat message's images, whether a GUI's backend session is connected,
   * and the records a chat-history query on a user's store returns.
   */
  datatype Env = Env(d: Disk, db: Option<map<string, string>>, chunk: Option<seq<byte>>, now: int,
                     fileIds: nat -> int, connected: bool, history: seq<string>)

  /**
   * The default case of HandleSendForward (2146-2166): a packet of a kind
   * without a case is passed on as it came, on the backend session paired
   * with the GUI session when there is one, otherwise on the backend
   * session of the GUI's user; with neither it is dropped.
   */
  function RawForward(r: Registry, s: ServerSess, p: Packet): (e: seq<Effect>)
    ensures |e| <= 1
    ensures e == [] <==> s !in r.forward && GuiUserId(r, s) !in r.clientSessOf
    ensures forall x :: x in e ==> x.ToBackend? && x.wire == Verbatim(p)
    ensures s in r.forward ==> e == [ToBackend(r.forward[s], Verbatim(p))]
  {
    if s in r.forward then [ToBackend(r.forward[s], Verbatim(p))]
    else if GuiUserId(r, s) in r.clientSessOf then [ToBackend(r.clientSessOf[GuiUserId(r, s)], Verbatim(p))]
    else []
  }

  /**
   * The GUI session SendBack answers on (1068-1072): the one of the backend
   * session's user id, else the one registered under its user name taken
   * as an id.
   */
  function BackGui(r: Registry, c: ClientSess): (g: Option<ServerSess>)
    ensures SessUserId(r, c) in r.guiSessOf ==> g == Some(r.guiSessOf[SessUserId(r, c)])
    ensures SessUserId(r, c) !in r.guiSessOf ==> g == GetGuiSess(r, SessUserName(r, c))
  {
    if SessUserId(r, c) in r.guiSessOf then GetGuiSess(r, SessUserId(r, c)) else GetGuiSess(r, SessUserName(r, c))
  }

  /**
   * The begin request HSF_FileSendDataBeginReq passes on (1823-1864): it
   * carries the content hash of the named file and, when the user's store
   * already holds that content, the stored name; otherwise the file's base
   * name.
   */
  function GuiBeginReq(req: Msg, hash: string, stored: string): (out: Msg)
    requires req.FileSendDataBeginReq?
    ensures out.FileSendDataBeginReq? && out.fileHash == hash
    ensures stored != "" ==> out.fileName == stored
    ensures stored == "" ==> out.fileName == BaseName(req.fileName)
    ensures (out.msgId, out.fileId, out.userId, out.friendId, out.fileType) ==
            (req.msgId, req.fileId, req.userId, req.friendId, req.fileType)
  {
    FileSendDataBeginReq(req.msgId, req.fileId, req.userId, req.friendId,
                         if stored != "" then stored else BaseName(req.fileName), hash, req.fileType)
  }

  /** The chat messages HandleSendBack's parsing cases act on, with the ones whose handlers are empty. */
  predicate BackChatKind(m: Msg)
  {
    m.FriendChatRecvTxtReq? || m.FriendChatSendTxtRsp? || m.RecvGroupTextReq? || m.FriendUnReadNotifyReq? ||
    m.NotifyGroupMsgReq? || m.SendGroupTextRsp? || m.FriendRecvFileMsgReq? || m.UserRegisterRsp?
  }

  /** The session messages HandleSendBack's parsing cases act on. */
  predicate BackSessionKind(m: Msg)
  {
    m.UserLoginRsp? || m.UserLogoutRsp? || m.KeepAliveRsp? || m.KeepAliveReq? || m.QueryUserUdpAddrRsp? ||
    m.GetFriendListRsp?
  }

  /** The groups HandleSendBack's parsing cases fall into. */
  datatype BackGroup = ChatGroup | SessionGroup | FileGroup | NoGroup

  function BackGroupOf(m: Msg): (g: BackGroup)
    ensures g == ChatGroup <==> BackChatKind(m)
    ensures g == SessionGroup <==> BackSessionKind(m)
    ensures g == FileGroup <==> BackFileKind(m)
  {
    if BackChatKind(m) then ChatGroup
    else if BackSessionKind(m) then SessionGroup
    else if BackFileKind(m) then FileGroup
    else NoGroup
  }

  /** The file-transfer messages HandleSendBack's parsing cases act on. */
  predicate BackFileKind(m: Msg)
  {
    m.FileSendDataBeginReq? || m.FileSendDataBeginRsp? || m.FileVerifyReq? || m.FileDownLoadRsp? ||
    m.FileDataSendRsp? || m.FileDataRecvReq? || m.FileVerifyRsp? || m.FriendNotifyFileMsgReq?
  }

  /** The messages HandleSendForward's parsing cases act on (2081-2145). */
  predicate ForwardCallKind(m: Msg)
  {
    m.GetFriendChatHistoryReq? || m.GetGroupChatHistoryReq? || m.FileSendDataBeginReq? || m.FriendChatSendTxtReq? ||
    m.UserLoginReq? || m.SendGroupTextReq? || m.FriendSendFileMsgReq?
  }

  /**
   * Where an upload of `fileName` is received: its base name in the image
   * folder of the user called `name`, under the helper's directory `curDir`.
   */
  function RecvPath(curDir: string, name: string, fileName: string): string
  {
    ImageDir(curDir, name) + BaseName(fileName)
  }

  /** What a handler leaves of the held messages and the open files, and the traffic it sends. */
  datatype Began = Began(held: Held, openFiles: map<int, string>, effects: seq<Effect>)

  /**
   * HSB_FileSendDataBeginReq (2558-2612) on the tables `h` and open files
   * `files`, for an upload of content the user's store holds under
   * `stored` ("" when it does not); `path` is where new content is
   * received. New content is recorded as in transfer, its receive file
   * (id fileId + 1) is opened, and it is accepted. Content already stored
   * is refused as in transfer, and then the messages waiting for that
   * image are released as if it had just arrived under its stored name.
   */
  function BeginAnswer(h: Held, files: map<int, string>, c: ClientSess, user: UserId, gui: map<UserId, ServerSess>,
                       req: Msg, stored: string, path: string): (b: Began)
    requires req.FileSendDataBeginReq?
    ensures stored == "" ==> b.held == h.(transHashes := h.transHashes + [req.fileHash])
    ensures stored == "" ==> b.openFiles == files[req.fileId + 1 := path]
    ensures stored == "" ==> b.effects == [ToBackend(c, Built(BeginRspOf(req, Succeed)))]
    ensures stored != "" ==> b.held == ReleaseImage(h, Some(c), user, gui, stored, req.fileHash).held
    ensures stored != "" ==> b.openFiles == files
    ensures stored != "" ==> b.effects == [ToBackend(c, Built(BeginRspOf(req, FileTransing)))] +
                                           ReleaseImage(h, Some(c), user, gui, stored, req.fileHash).effects
    ensures b.held.sendWait == h.sendWait && b.held.groupSendWait == h.groupSendWait && b.held.hashType == h.hashType
    ensures |b.effects| >= 1 && b.effects[0] == ToBackend(c, Built(BeginRspOf(req, if stored == "" then Succeed else FileTransing)))
  {
    if stored == "" then
      Began(h.(transHashes := h.transHashes + [req.fileHash]), files[req.fileId + 1 := path],
            [ToBackend(c, Built(BeginRspOf(req, Succeed)))])
    else
      var r := ReleaseImage(h, Some(c), user, gui, stored, req.fileHash);
      Began(r.held, files, [ToBackend(c, Built(BeginRspOf(req, FileTransing)))] + r.effects)
  }

  /** What the idle check of a tick leaves: the idle counter, the retry queue, the traffic. */
  datatype Idle = Idle(noSess: nat, retry: RetryQueue.Queue, effects: seq<Effect>)

  /**
   * The idle check at the end of OnTimer (976-992) on tick `t`, with the
   * backend sessions `sess` and the retry queue `q` visited in `waiting`:
   * with a session the idle counter is reset and, on a retry tick, the queue
   * flushed; without one the counter is counted up and the server stopped
   * past the limit.
   */
  function IdleTick(t: nat, noSess: nat, sess: map<UserId, ClientSess>, q: RetryQueue.Queue,
                    waiting: seq<UserId>): (o: Idle)
    ensures o.noSess == Housekeeping.NextNoSess(t, noSess, sess != map[])
    ensures Housekeeping.FlushesRetries(t, sess != map[]) ==>
              o.retry == RetryQueue.Kept(q, sess.Keys) && o.effects == RetryQueue.FlushSends(waiting, q, sess)
    ensures !Housekeeping.FlushesRetries(t, sess != map[]) ==> o.retry == q
    ensures Housekeeping.StopsServer(t, noSess, sess != map[]) ==> o.effects == [StopServer]
    ensures !Housekeeping.FlushesRetries(t, sess != map[]) && !Housekeeping.StopsServer(t, noSess, sess != map[]) ==>
              o.effects == []
  {
    var has := sess != map[];
    var flush := Housekeeping.FlushesRetries(t, has);
    Idle(Housekeeping.NextNoSess(t, noSess, has),
         if flush then RetryQueue.Kept(q, sess.Keys) else q,
         (if flush then RetryQueue.FlushSends(waiting, q, sess) else []) +
         (if Housekeeping.StopsServer(t, noSess, has) then [StopServer] else []))
  }

  /**
   * The idle check's statements, with CheckWaitMsgVec (927-950) inlined:
   * the flush runs only on a retry tick.
   */
  method IdleRound(t: nat, noSess: nat, sess: map<UserId, ClientSess>, q: RetryQueue.Queue,
                   waiting: seq<UserId>) returns (o: Idle)
    requires Enumerates(waiting, q.Keys)
    ensures o == IdleTick(t, noSess, sess, q, waiting)
  {
    var has := sess != map[];
    var sent, notSent := [], q;
    if Housekeeping.FlushesRetries(t, has) {
      sent, notSent := RetryQueue.Flush(waiting, q, sess);
    }
    var stop := Housekeeping.StopsServer(t, noSess, has);
    o := Idle(Housekeeping.NextNoSess(t, noSess, has), notSent, sent + (if stop then [StopServer] else []));
  }

  /** What a verification request changes: the held messages, the message stores, and the traffic. */
  datatype Verified = Verified(held: Held, stores: map<UserId, map<string, string>>, effects: seq<Effect>)

  /**
   * HandleFileVerifyReq (1095-1178) on the tables, for a file received as
   * `name` with content hash `hash`: a match ends the transfer of the hash,
   * releases the messages waiting for the image (for the user's backend
   * session, NullDeref when there is none) and records the file in the
   * user's store; a mismatch removes the file. The answer (VerifyRspOf) goes
   * to the user's backend session either way, then the result notice for
   * an ordinary file, under message id `id`.
   */
  function VerifyDownload(h: Held, stores: map<UserId, map<string, string>>, r: Registry, msg: Msg,
                          name: string, hash: string, id: string): (v: Verified)
    requires msg.FileVerifyReq?
    ensures var client := GetClientSess(r, msg.userId);
            var o := ReleaseImage(h.(transHashes := RemoveFirst(h.transHashes, hash)), client,
                                  if client.Some? then SessUserId(r, client.value) else "", r.guiSessOf, name, hash);
            msg.fileHash == hash ==>
              v.held == o.held && v.stores == SavedHash(stores, msg.userId, name, hash) &&
              v.effects == o.effects + BackendSend(r, msg.userId, VerifyRspOf(msg, hash)) +
                           ResultNotice(h.hashType, GetGuiSess(r, msg.userId), hash,
                                        FriendTransFileResultNotify(id, msg.userId, msg.friendId, msg.fileName,
                                                                    RecvDirection, TransSucceed), 1160)
    ensures msg.fileHash != hash ==>
              v.held == h && v.stores == stores &&
              v.effects == [RemoveFile(name)] + BackendSend(r, msg.userId, VerifyRspOf(msg, hash)) +
                           ResultNotice(h.hashType, GetGuiSess(r, msg.userId), "",
                                        FriendTransFileResultNotify(id, msg.userId, msg.friendId, msg.fileName,
                                                                    RecvDirection, TransFailed), 1172)
    ensures v.held.sendWait == h.sendWait && v.held.groupSendWait == h.groupSendWait && v.held.hashType == h.hashType
  {
    var ok := msg.fileHash == hash;
    var client := GetClientSess(r, msg.userId);
    var o := ReleaseImage(h.(transHashes := RemoveFirst(h.transHashes, hash)), client,
                          if client.Some? then SessUserId(r, client.value) else "", r.guiSessOf, name, hash);
    var notice := FriendTransFileResultNotify(id, msg.userId, msg.friendId, msg.fileName, RecvDirection,
                                              if ok then TransSucceed else TransFailed);
    Verified(if ok then o.held else h,
             if ok then SavedHash(stores, msg.userId, name, hash) else stores,
             (if ok then o.effects else [RemoveFile(name)]) + BackendSend(r, msg.userId, VerifyRspOf(msg, hash)) +
             ResultNotice(h.hashType, GetGuiSess(r, msg.userId), if ok then hash else "", notice,
                          if ok then 1160 else 1172))
  }

  /**
   * HSB_FileDownLoadRsp (2735-2778) on the held messages, for the image
   * expected at `name`: on success the hash is tied to the related message
   * (first writer wins) and, when the image is there with that hash, the
   * messages waiting for it are released on `c`; on failure the messages
   * waiting under the related id are acknowledged, and only the friend one
   * is dropped (the erase at 2774 is made on the friend table).
   */
  function DownloadAnswered(h: Held, c: ClientSess, r: Registry, rsp: Msg, name: string, d: Disk): (o: Outcome)
    requires rsp.FileDownLoadRsp?
    ensures rsp.errCode != Succeed ==> o == DownloadFailedAsWritten(h, c, rsp.relateMsgId)
    ensures var h1 := h.(hashToMsgId := InsertIfAbsent(h.hashToMsgId, rsp.fileHash, rsp.relateMsgId));
            rsp.errCode == Succeed && name in d.files && rsp.fileHash == CalcHash(d, name) ==>
              o == ReleaseImage(h1, Some(c), SessUserId(r, c), r.guiSessOf, name, rsp.fileHash)
    ensures var h1 := h.(hashToMsgId := InsertIfAbsent(h.hashToMsgId, rsp.fileHash, rsp.relateMsgId));
            rsp.errCode == Succeed && !(name in d.files && rsp.fileHash == CalcHash(d, name)) ==>
              o == Outcome(h1, [])
    ensures rsp.errCode == Succeed ==> rsp.fileHash in o.held.hashToMsgId
  {
    var h1 := h.(hashToMsgId := InsertIfAbsent(h.hashToMsgId, rsp.fileHash, rsp.relateMsgId));
    if rsp.errCode != Succeed then DownloadFailedAsWritten(h, c, rsp.relateMsgId)
    else if name in d.files && rsp.fileHash == CalcHash(d, name) then
      ReleaseImage(h1, Some(c), SessUserId(r, c), r.guiSessOf, name, rsp.fileHash)
    else Outcome(h1, [])
  }

  class MediumServer {
    var reg: Registry                               // who is where
    var held: Held                                  // what waits for an image
    var retry: RetryQueue.Queue                     // m_RecvWaitMsgMap
    var fileStore: map<UserId, map<string, string>> // each user's message store: content hash to file
    var openFiles: map<int, string>                 // the file helper's open files: file id to name
    var freeClient: ClientSess                      // m_freeClientSess
    var nextHandle: nat                             // the next fresh backend session handle
    var nextGui: nat                                // the next fresh GUI session handle
    var nextUdp: nat                                // the next fresh UDP session handle
    var timeCount: nat                              // m_timeCount
    var noSessCount: nat                            // m_nNoSessTimeCount
    var idCount: nat                                // message ids generated so far
    var effects: seq<Effect>
    /** GenerateMsgId: the n-th id generated. */
    const genId: nat -> string
    /** The file helper's current directory. */
    const curDir: string
    /** FromString: whether a packet's text parses, and into what. */
    const parse: Packet -> Option<Msg>

    /** The spare backend session and the pairings are sound (PairsValid). */
    ghost predicate Valid()
      reads this`reg, this`freeClient, this`nextHandle, this`nextGui
    {
      freeClient.handle < nextHandle && PairsValid(reg.forward, reg.back, nextHandle, nextGui)
    }

    constructor (genId: nat -> string, curDir: string, parse: Packet -> Option<Msg>)
      ensures Valid()
      ensures this.genId == genId && this.curDir == curDir && this.parse == parse
      ensures reg == Empty() && held == NoneHeld()
      ensures retry == map[] && fileStore == map[] && openFiles == map[]
      ensures freeClient == ClientSess(0) && nextHandle == 1 && nextGui == 0 && nextUdp == 0
      ensures timeCount == 0 && noSessCount == 0 && idCount == 0 && effects == []
    {
      this.genId := genId;
      this.curDir := curDir;
      this.parse := parse;
      reg := Empty();
      held := NoneHeld();
      retry, fileStore, openFiles := map[], map[], map[];
      freeClient, nextHandle, nextGui, nextUdp := ClientSess(0), 1, 0, 0;
      timeCount, noSessCount, idCount, effects := 0, 0, 0, [];
    }

    /** CFileUtil::GetFileName: the name a file id was opened under, "" when it is not open. */
    function GetFileName(fileId: int): (name: string)
      reads this`openFiles
      ensures fileId !in openFiles ==> name == ""
    {
      if fileId in openFiles then openFiles[fileId] else ""
    }

    /** The user folders (3377-3440): the path helpers applied to the user's name. */
    function UserMainFolder(id: UserId): (p: string)
      reads this`reg
      ensures p == "" <==> GetUserNameById(reg, id) == ""
    {
      MainFolder(curDir, GetUserNameById(reg, id))
    }

    function UserImageDir(id: UserId): (p: string)
      reads this`reg
      ensures p == "" <==> GetUserNameById(reg, id) == ""
    {
      ImageDir(curDir, GetUserNameById(reg, id))
    }

    function UserFileDir(id: UserId): (p: string)
      reads this`reg
      ensures p == "" <==> GetUserNameById(reg, id) == ""
    {
      FileDir(curDir, GetUserNameById(reg, id))
    }

    function UserDataBaseFileName(id: UserId): (p: string)
      reads this`reg
      ensures p == "" <==> GetUserNameById(reg, id) == ""
    {
      DataBaseFileName(curDir, GetUserNameById(reg, id))
    }

    /** A message sent to a user's GUI session, when the user has one. */
    function ToGuiOf(id: UserId, m: Msg): (r: seq<Effect>)
      reads this`reg
      ensures |r| <= 1 && (r != [] <==> id in reg.guiSessOf)
      ensures r != [] ==> r[0] == ToGui(reg.guiSessOf[id], Built(m))
    {
      if id in reg.guiSessOf then [ToGui(reg.guiSessOf[id], Built(m))] else []
    }

    /** A message sent on a user's backend session, when the user has one. */
    function ToBackendOf(id: UserId, m: Msg): (r: seq<Effect>)
      reads this`reg
      ensures |r| <= 1 && (r != [] <==> id in reg.clientSessOf)
      ensures r != [] ==> r[0] == ToBackend(reg.clientSessOf[id], Built(m))
    {
      BackendSend(reg, id, m)
    }

    /** A message sent from a user's UDP session to a peer, when the user has one. */
    function UdpSendOf(id: UserId, peer: Endpoint, m: Msg): (r: seq<Effect>)
      reads this`reg
      ensures |r| <= 1 && (r != [] <==> id in reg.udpSessOf)
      ensures r != [] ==> r[0] == UdpSend(reg.udpSessOf[id], peer, m)
    {
      if id in reg.udpSessOf then [UdpSend(reg.udpSessOf[id], peer, m)] else []
    }

    /** The next generated message id; the counter moves on. */
    method NewMsgId() returns (id: string)
      modifies this`idCount
      ensures id == genId(old(idCount)) && idCount == old(idCount) + 1
    {
      id := genId(idCount);
      idCount := idCount + 1;
    }

    // ------------------------------------------------------------------
    // Identity registry (830-921, 2851-3040)

    /** SetUserIdUserName (3346-3350). */
    method SetUserIdUserName(id: UserId, name: string)
      modifies this`reg
      ensures reg == WithUserName(old(reg), id, name)
    {
      reg := reg.(nameOfId := reg.nameOfId[id := name]);
    }

    /**
     * CreateClientSess (912-921): hands out the spare backend session and
     * starts a fresh one in its place, so the session handed out is never
     * the new spare.
     */
    method CreateClientSess() returns (c: ClientSess)
      requires Valid()
      modifies this`freeClient, this`nextHandle, this`effects
      ensures Valid()
      ensures c == old(freeClient) && c != freeClient
      ensures freeClient == ClientSess(old(nextHandle)) && nextHandle == old(nextHandle) + 1
      ensures effects == old(effects) + [StartConnect(freeClient)]
    {
      c := freeClient;
      freeClient := ClientSess(nextHandle);
      nextHandle := nextHandle + 1;
      effects := effects + [StartConnect(freeClient)];
    }

    /**
     * do_accept (830-869): a GUI connected. When a backend server is
     * configured a new GUI session and a new backend session are made, the
     * backend session is started, and the two are paired; otherwise no
     * session is made and the connection is left alone.
     */
    method Accept(configured: bool) returns (s: Option<ServerSess>)
      requires Valid()
      modifies this`reg, this`nextHandle, this`nextGui, this`effects
      ensures Valid()
      ensures !configured ==> s == None && nextGui == old(nextGui) && reg == old(reg) &&
                              nextHandle == old(nextHandle) && effects == old(effects)
      ensures configured ==>
                var c := ClientSess(old(nextHandle));
                s == Some(ServerSess(old(nextGui))) && nextGui == old(nextGui) + 1 &&
                reg == Accepted(old(reg), s.value, c) && reg.forward[s.value] == c && reg.back[c] == s.value &&
                nextHandle == old(nextHandle) + 1 && effects == old(effects) + [StartConnect(c)]
    {
      s := None;
      if configured {
        var g := ServerSess(nextGui);
        nextGui := nextGui + 1;
        var c := ClientSess(nextHandle);
        nextHandle := nextHandle + 1;
        effects := effects + [StartConnect(c)];
        AcceptedPaired(reg, g, c);
        reg := reg.(forward := InsertIfAbsent(reg.forward, g, c), back := InsertIfAbsent(reg.back, c, g));
        s := Some(g);
      }
    }

    twostate predicate OnLoginRspDone(c: ClientSess, rsp: Msg, d: Disk, db: Option<map<string, string>>)
      requires rsp.UserLoginRsp?
      reads this
    {
      && (rsp.errCode != Succeed ==> unchanged(this))
      && (rsp.errCode == Succeed ==>
            reg == LoggedIn(old(reg), c, Ident(rsp.userId, rsp.userName), UdpSess(old(nextUdp))) &&
            nextUdp == old(nextUdp) + (if rsp.userId in old(reg).udpSessOf then 0 else 1) &&
            fileStore == OpenedStore(old(fileStore), rsp.userId, db))
      && (rsp.errCode == Succeed ==>
            idCount == old(idCount) + 1 &&
            effects == old(effects) +
                       LoginTraffic(c, rsp, d, curDir, old(reg).udpSessOf, old(nextUdp), reg.guiSessOf, genId(old(idCount))))
    }

    /**
     * HSB_UserLoginRsp (2851-2971). On success the registry takes the login
     * (RegisterLogin) and the relay announces it (AnnounceLogin). A failed
     * login changes nothing.
     */
    method OnLoginRsp(c: ClientSess, rsp: Msg, d: Disk, db: Option<map<string, string>>)
      requires rsp.UserLoginRsp? && Valid()
      modifies this`reg, this`nextUdp, this`fileStore, this`idCount, this`effects
      ensures Valid()
      ensures OnLoginRspDone(c, rsp, d, db)
    {
      if rsp.errCode == Succeed {
        var udpSessOf, next := reg.udpSessOf, nextUdp;
        RegisterLogin(c, Ident(rsp.userId, rsp.userName), db);
        AnnounceLogin(c, rsp, d, udpSessOf, next);
      }
    }

    /**
     * The tables of a successful login (2854-2934): the registry takes the
     * login (Sessions.LoggedIn), a UDP session is made when the user has
     * none (and returned), and the user's message store is opened when it
     * is not (`db` is what opening the store file yields).
     */
    method RegisterLogin(c: ClientSess, ident: Ident, db: Option<map<string, string>>)
      requires Valid()
      modifies this`reg, this`nextUdp, this`fileStore
      ensures Valid()
      ensures reg == LoggedIn(old(reg), c, ident, UdpSess(old(nextUdp)))
      ensures nextUdp == old(nextUdp) + (if ident.userId in old(reg).udpSessOf then 0 else 1)
      ensures fileStore == OpenedStore(old(fileStore), ident.userId, db)
    {
      var started := ident.userId !in reg.udpSessOf;
      LoginKeepsPaired(reg, c, ident, UdpSess(nextUdp));
      reg := LoggedIn(reg, c, ident, UdpSess(nextUdp));
      if started {
        nextUdp := nextUdp + 1;
      }
      fileStore := OpenedStore(fileStore, ident.userId, db);
    }

    /**
     * The traffic of a successful login (2890-2957): the new UDP session is
     * started, the user's folders are created where missing, the friend list
     * is requested under a fresh message id, and the answer is passed to the
     * user's GUI session.
     */
    method AnnounceLogin(c: ClientSess, rsp: Msg, d: Disk, udpSessOf: map<UserId, UdpSess>, nextUdp: nat)
      requires rsp.UserLoginRsp?
      modifies this`idCount, this`effects
      ensures idCount == old(idCount) + 1
      ensures effects == old(effects) + LoginTraffic(c, rsp, d, curDir, udpSessOf, nextUdp, reg.guiSessOf, genId(old(idCount)))
    {
      var id := rsp.userId;
      var traffic := (if id in udpSessOf then [] else [StartUdp(UdpSess(nextUdp))]) +
                     UserFolders(d, curDir, rsp.userName) +
                     [ToBackend(c, Built(GetFriendListReq(genId(idCount), id)))] + ToGuiOf(id, rsp);
      effects := effects + traffic;
      idCount := idCount + 1;
    }

    twostate predicate OnLogoutRspDone(c: ClientSess, rsp: Msg)
      requires rsp.UserLogoutRsp?
      reads this
    {
      && (rsp.errCode != Succeed ==> unchanged(this))
      && (rsp.errCode == Succeed ==>
            reg == LoggedOut(old(reg), c, rsp.userName) &&
            effects == old(effects) + (if c in old(reg.back) then [StopGui(old(reg.back)[c])] else []) + [StopConnect(c)])
    }

    /**
     * HSB_UserLogoutRsp (2979-3006). On success the registry drops the user
     * (Sessions.LoggedOut); a GUI session still paired with this backend
     * session is stopped, and so is the backend session. A failed logout
     * changes nothing.
     */
    method OnLogoutRsp(c: ClientSess, rsp: Msg)
      requires rsp.UserLogoutRsp? && Valid()
      modifies this`reg, this`effects
      ensures Valid()
      ensures OnLogoutRspDone(c, rsp)
    {
      if rsp.errCode != Succeed {
        return;
      }
      LogoutKeepsPaired(reg, c, rsp.userName);
      var stopped := if c in reg.back then [StopGui(reg.back[c])] else [];
      reg := LoggedOut(reg, c, rsp.userName);
      effects := effects + stopped + [StopConnect(c)];
    }

    /** ServerSessClose (3014-3040): the registry forgets the GUI session's user (Sessions.SessClosed). */
    method ServerSessClose(s: ServerSess)
      requires Valid()
      modifies this`reg
      ensures Valid()
      ensures reg == SessClosed(old(reg), s)
    {
      CloseKeepsPaired(reg, s);
      reg := SessClosed(reg, s);
    }

    // ------------------------------------------------------------------
    // Connection state (3047-3071, 3216-3227, 2042-2068, 2172-2198)

    twostate predicate OnNetFailedDone(c: ClientSess, now: int)
      reads this
    {
      && (reg == NetFailed(old(reg), c, now))
      && (effects == old(effects) + (if Lookup(old(reg).stateOf, SessUserId(old(reg), c)) == Some(Logout)
                                     then [StopConnect(c)] else []))
    }

    /**
     * HSB_NetFailed (3047-3071) at time `now`: the state moves as
     * Sessions.NetFailed says, and a logged-out user's session is stopped.
     */
    method OnNetFailed(c: ClientSess, now: int)
      requires Valid()
      modifies this`reg, this`effects
      ensures Valid()
      ensures OnNetFailedDone(c, now)
    {
      var stopped := Lookup(reg.stateOf, SessUserId(reg, c)) == Some(Logout);
      reg := NetFailed(reg, c, now);
      if stopped {
        effects := effects + [StopConnect(c)];
      }
    }

    twostate predicate OnNetRecoverDone(c: ClientSess)
      reads this
    {
      var id, name := SessUserId(reg, c), SessUserName(reg, c);
      effects == old(effects) +
                 (if Lookup(reg.stateOf, id) == Some(LoginSend) && name in reg.loginReqOf
                  then [ToBackend(c, Built(LoginMsg(reg.loginReqOf[name])))] else [])
    }

    /**
     * The NetRecover branch of HandleSendBack (3216-3227): a user whose
     * login was interrupted (LoginSend) has its stored login request sent
     * again on the recovered session.
     */
    method OnNetRecover(c: ClientSess)
      modifies this`effects
      ensures OnNetRecoverDone(c)
    {
      var id := SessUserId(reg, c);
      if id in reg.stateOf && reg.stateOf[id] == LoginSend {
        var name := SessUserName(reg, c);
        if name in reg.loginReqOf {
          effects := effects + [ToBackend(c, Built(LoginMsg(reg.loginReqOf[name])))];
        }
      }
    }

    twostate predicate OnGuiLoginReqDone(s: ServerSess, req: LoginReq, connected: bool)
      reads this
    {
      && (reg == WithLoginReq(old(reg), CredentialsOf(req)))
      && (effects == old(effects) +
                     (if s !in old(reg).forward then []
                      else if connected then [ToBackend(old(reg).forward[s], Built(req))]
                      else [StartConnect(old(reg).forward[s])]))
    }

    /**
     * HSF_UserLoginReq (2042-2068): a GUI asks to log in. The request goes
     * to the GUI's spare backend session when that is connected (otherwise
     * the session is started), and is remembered under the user name,
     * replacing an earlier one.
     */
    method OnGuiLoginReq(s: ServerSess, req: LoginReq, connected: bool)
      modifies this`effects, this`reg
      ensures OnGuiLoginReqDone(s, req, connected)
    {
      if s in reg.forward {
        if connected {
          effects := effects + [ToBackend(reg.forward[s], Built(req))];
        } else {
          effects := effects + [StartConnect(reg.forward[s])];
        }
      }
      reg := WithLoginReq(reg, CredentialsOf(req));
    }

    twostate predicate OnGuiNetFailedDone(s: ServerSess)
      reads this
    {
      && (GuiUserName(reg, s) !in reg.loginReqOf ==> idCount == old(idCount) && effects == old(effects))
      && (GuiUserName(reg, s) in reg.loginReqOf ==>
            var l := reg.loginReqOf[GuiUserName(reg, s)];
            idCount == old(idCount) + 1 &&
            effects == old(effects) +
                       ToBackendOf(GuiUserId(reg, s), UserLogoutReq(genId(old(idCount)), l.userName, l.password, l.osType)))
    }

    /**
     * HSF_NetFailedReq (2172-2198): a GUI reports it is offline. When the
     * user's login request is known, a logout request with the same
     * credentials and a fresh message id goes to the user's backend session.
     */
    method OnGuiNetFailed(s: ServerSess)
      modifies this`idCount, this`effects
      ensures OnGuiNetFailedDone(s)
    {
      var name := GuiUserName(reg, s);
      if name in reg.loginReqOf {
        var l := reg.loginReqOf[name];
        var msgId := NewMsgId();
        effects := effects + ToBackendOf(GuiUserId(reg, s), UserLogoutReq(msgId, l.userName, l.password, l.osType));
      }
    }

    // ------------------------------------------------------------------
    // UDP rendezvous (80-145)

    twostate predicate OnUdpP2pStartRspDone(rsp: Msg, now: int)
      requires rsp.UdpP2pStartRsp?
      reads this
    {
      reg == KeptAlive(old(reg), rsp.userId, now)
    }

    /**
     * Handle_UdpMsg for a P2P start answer (80-97): the first answer for a
     * user records when it came (Sessions.KeptAlive).
     */
    method OnUdpP2pStartRsp(rsp: Msg, now: int)
      requires rsp.UdpP2pStartRsp?
      modifies this`reg
      ensures OnUdpP2pStartRspDone(rsp, now)
    {
      reg := KeptAlive(reg, rsp.userId, now);
    }

    twostate predicate OnUdpP2pStartReqDone(peer: Endpoint, req: Msg)
      requires req.UdpP2pStartReq?
      reads this
    {
      effects == old(effects) + UdpSendOf(req.friendId, peer, AnswerP2pStart(req))
    }

    /**
     * Handle_UdpMsg for a P2P start request (106-118): the answer, with the
     * two ids swapped, goes back to the requesting address on the UDP
     * session of the user the request was meant for.
     */
    method OnUdpP2pStartReq(peer: Endpoint, req: Msg)
      requires req.UdpP2pStartReq?
      modifies this`effects
      ensures OnUdpP2pStartReqDone(peer, req)
    {
      effects := effects + UdpSendOf(req.friendId, peer, AnswerP2pStart(req));
    }

    twostate predicate OnUdpKeepAliveRspDone(peer: Endpoint, m: Msg)
      requires m.KeepAliveRsp?
      reads this
    {
      && (idCount == old(idCount) + 1)
      && (effects == old(effects) + UdpSendOf(m.clientId, peer, UdpP2pStartReq(genId(old(idCount)), m.clientId, m.clientId)))
    }

    /**
     * Handle_UdpMsg for a keep-alive answer (126-145): the client probes
     * its own P2P path, sending a start request naming itself on both sides
     * under a fresh id to the answering address.
     */
    method OnUdpKeepAliveRsp(peer: Endpoint, m: Msg)
      requires m.KeepAliveRsp?
      modifies this`idCount, this`effects
      ensures OnUdpKeepAliveRspDone(peer, m)
    {
      var id := NewMsgId();
      effects := effects + UdpSendOf(m.clientId, peer, UdpP2pStartReq(id, m.clientId, m.clientId));
    }

    // ------------------------------------------------------------------
    // Chunked file transfer (153-337, 1341-1418)

    /** A message on a user's UDP session to the server, when the user has one. */
    function UdpToServerOf(id: UserId, m: Msg): (r: seq<Effect>)
      reads this`reg
      ensures |r| <= 1 && (r != [] <==> id in reg.udpSessOf)
      ensures r != [] ==> r[0] == UdpToServer(reg.udpSessOf[id], m)
    {
      if id in reg.udpSessOf then [UdpToServer(reg.udpSessOf[id], m)] else []
    }

    /**
     * A progress report to `user`'s GUI session, when there is one, on file
     * `fileId` exchanged with `other`: the percentage of chunk `index` of
     * `total` (FileTransfer.Percent).
     */
    function ProgressOf(user: UserId, other: UserId, id: string, fileId: int, dir: Direction,
                        index: int, total: int): (r: seq<Effect>)
      reads this`reg, this`openFiles
      ensures |r| <= 1 && (r != [] <==> user in reg.guiSessOf)
    {
      ToGuiOf(user, FileTransProgressNotify(id, user, other, GetFileName(fileId), dir, FileTransfer.Percent(index, total)))
    }

    twostate predicate OnUdpDataSendReqDone(peer: Endpoint, req: Msg)
      requires req.FileDataSendReq?
      reads this
    {
      && (!FileTransfer.Acknowledges(req.index, req.total) ==> idCount == old(idCount) && effects == old(effects))
      && (FileTransfer.Acknowledges(req.index, req.total) ==>
            idCount == old(idCount) + 1 &&
            effects == old(effects) +
                       ([WriteData(req.fileId + 1, req.data)] +
                        UdpSendOf(req.userId, peer, FileTransfer.SendAckOf(req)) +
                        ProgressOf(req.friendId, req.userId, genId(old(idCount)), req.fileId, RecvDirection,
                                   req.index, req.total)))
    }

    /**
     * Handle_UdpMsg for a chunk sent peer to peer (153-194): a chunk within
     * the total is written to the receiving file (id fileId + 1),
     * acknowledged to the sending address on the sender's UDP session, and
     * reported, under a fresh id, as progress to the receiving friend's GUI.
     * A chunk past the total is ignored.
     */
    method OnUdpDataSendReq(peer: Endpoint, req: Msg)
      requires req.FileDataSendReq?
      modifies this`idCount, this`effects
      ensures OnUdpDataSendReqDone(peer, req)
    {
      if FileTransfer.Acknowledges(req.index, req.total) {
        var id := NewMsgId();
        var traffic := [WriteData(req.fileId + 1, req.data)] +
                       UdpSendOf(req.userId, peer, FileTransfer.SendAckOf(req)) +
                       ProgressOf(req.friendId, req.userId, id, req.fileId, RecvDirection, req.index, req.total);
        effects := effects + traffic;
      }
    }

    twostate predicate OnTcpDataRecvReqDone(c: ClientSess, req: Msg)
      requires req.FileDataRecvReq?
      reads this
    {
      && (effects == old(effects) +
                     (if FileTransfer.Acknowledges(req.index, req.total)
                      then [WriteData(req.fileId + 1, req.data), ToBackend(c, Built(FileTransfer.RecvAckOf(req)))]
                      else []))
      && (openFiles == if FileTransfer.ClosesWrite(req.index, req.total) then old(openFiles) - {req.fileId + 1}
                       else old(openFiles))
    }

    /**
     * Handle_TcpMsg for a chunk relayed by the server (1341-1363): a chunk
     * within the total is written to the receiving file (id fileId + 1) and
     * acknowledged on the session it came on; the last chunk closes the file.
     */
    method OnTcpDataRecvReq(c: ClientSess, req: Msg)
      requires req.FileDataRecvReq?
      modifies this`openFiles, this`effects
      ensures OnTcpDataRecvReqDone(c, req)
    {
      if FileTransfer.Acknowledges(req.index, req.total) {
        effects := effects + [WriteData(req.fileId + 1, req.data), ToBackend(c, Built(FileTransfer.RecvAckOf(req)))];
      }
      if FileTransfer.ClosesWrite(req.index, req.total) {
        openFiles := openFiles - {req.fileId + 1};
      }
    }

    twostate predicate OnUdpDataRecvReqDone(peer: Endpoint, req: Msg)
      requires req.FileDataRecvReq?
      reads this
    {
      && (openFiles == if FileTransfer.ClosesWrite(req.index, req.total) then old(openFiles) - {req.fileId + 1}
                       else old(openFiles))
      && (idCount == old(idCount) + 1)
      && (effects == old(effects) +
                     ((if FileTransfer.Acknowledges(req.index, req.total)
                       then [WriteData(req.fileId + 1, req.data)] + UdpSendOf(req.userId, peer, FileTransfer.RecvAckOf(req))
                       else []) +
                      ProgressOf(req.userId, req.friendId, genId(old(idCount)), req.fileId, RecvDirection,
                                 req.index, req.total)))
    }

    /**
     * Handle_UdpMsg for a chunk relayed over UDP (1370-1418): as over TCP,
     * but the acknowledgement goes to the sending address on the user's UDP
     * session, and every chunk, ignored or not, is reported as progress
     * under a fresh id to the user's GUI.
     */
    method OnUdpDataRecvReq(peer: Endpoint, req: Msg)
      requires req.FileDataRecvReq?
      modifies this`openFiles, this`idCount, this`effects
      ensures OnUdpDataRecvReqDone(peer, req)
    {
      var acked := if FileTransfer.Acknowledges(req.index, req.total)
                   then [WriteData(req.fileId + 1, req.data)] + UdpSendOf(req.userId, peer, FileTransfer.RecvAckOf(req))
                   else [];
      if FileTransfer.ClosesWrite(req.index, req.total) {
        openFiles := openFiles - {req.fileId + 1};
      }
      var id := NewMsgId();
      var traffic := acked + ProgressOf(req.userId, req.friendId, id, req.fileId, RecvDirection, req.index, req.total);
      effects := effects + traffic;
    }

    /**
     * The sender's answer to the acknowledgement `rsp` (FileTransfer.AfterAck)
     * for the file open under rsp.fileId, with `id` as the generated id.
     */
    function AckStep(rsp: Msg, chunk: Option<seq<byte>>, id: string, d: Disk): (step: FileTransfer.SendStep)
      requires rsp.FileDataSendRsp?
      reads this`openFiles
      ensures step.NextChunk? <==> FileTransfer.SendsNext(rsp.index, rsp.total)
      ensures step.NextChunk? ==> step.req.FileDataSendReq?
      ensures step.VerifyFile? ==> step.req.FileVerifyReq?
    {
      var path := GetFileName(rsp.fileId);
      FileTransfer.AfterAck(rsp, chunk, id, path, d, BaseName(path))
    }

    /**
     * DoSendBackFileDataSendRsp (231-264): the sender's answer to the
     * acknowledgement `rsp`; `chunk` is what reading the file's next chunk
     * yields. A fresh id is drawn when a chunk was read or the verification
     * request is built (FileTransfer.AckIds), and after the last chunk the
     * read file is closed.
     */
    method AnswerAck(rsp: Msg, chunk: Option<seq<byte>>, d: Disk) returns (step: FileTransfer.SendStep)
      requires rsp.FileDataSendRsp?
      modifies this`idCount, this`openFiles
      ensures step == old(AckStep(rsp, chunk, genId(idCount), d))
      ensures step.NextChunk? <==> FileTransfer.SendsNext(rsp.index, rsp.total)
      ensures step.NextChunk? ==> step.req.FileDataSendReq?
      ensures step.VerifyFile? ==> step.req.FileVerifyReq?
      ensures idCount == old(idCount) + FileTransfer.AckIds(rsp, chunk)
      ensures openFiles == if FileTransfer.SendsNext(rsp.index, rsp.total) then old(openFiles)
                           else old(openFiles) - {rsp.fileId}
    {
      var n := FileTransfer.AckIds(rsp, chunk);
      step := AckStep(rsp, chunk, genId(idCount), d);
      idCount := idCount + n;
      openFiles := if FileTransfer.SendsNext(rsp.index, rsp.total) then openFiles else openFiles - {rsp.fileId};
    }

    twostate predicate OnTcpDataSendRspDone(c: ClientSess, rsp: Msg, chunk: Option<seq<byte>>, d: Disk)
      requires rsp.FileDataSendRsp?
      reads this
    {
      && effects == old(effects) + [ToBackend(c, Built(old(AckStep(rsp, chunk, genId(idCount), d)).req))]
      && idCount == old(idCount) + FileTransfer.AckIds(rsp, chunk)
      && openFiles == if FileTransfer.SendsNext(rsp.index, rsp.total) then old(openFiles)
                      else old(openFiles) - {rsp.fileId}
    }

    /** HSB_FileDataSendRsp (202-206): the answer goes back on the session the acknowledgement came on. */
    method OnTcpDataSendRsp(c: ClientSess, rsp: Msg, chunk: Option<seq<byte>>, d: Disk) returns (step: FileTransfer.SendStep)
      requires rsp.FileDataSendRsp?
      modifies this`idCount, this`openFiles, this`effects
      ensures step == old(AckStep(rsp, chunk, genId(idCount), d))
      ensures OnTcpDataSendRspDone(c, rsp, chunk, d)
    {
      step := AnswerAck(rsp, chunk, d);
      effects := effects + [ToBackend(c, Built(step.req))];
    }

    /**
     * What follows the sender's answer `step` over UDP (283-337). While
     * chunks remain, the next chunk, when one was read, goes to the
     * acknowledging address on the user's UDP session, and progress is
     * reported under a fresh id to the GUI of the user the request names (a
     * blank request when the read failed). After the last chunk the
     * verification request goes to the user's backend session.
     */
    method SendAnswerUdp(peer: Endpoint, step: FileTransfer.SendStep, read: bool)
      requires step.NextChunk? ==> step.req.FileDataSendReq?
      requires step.VerifyFile? ==> step.req.FileVerifyReq?
      modifies this`idCount, this`effects
      ensures idCount == old(idCount) + if step.NextChunk? then 1 else 0
      ensures step.NextChunk? ==>
                effects == old(effects) +
                           ((if read then UdpSendOf(step.req.userId, peer, step.req) else []) +
                            ProgressOf(step.req.userId, step.req.friendId, genId(old(idCount)), step.req.fileId,
                                       SendDirection, step.req.index, step.req.total))
      ensures step.VerifyFile? ==> effects == old(effects) + ToBackendOf(step.req.userId, step.req)
    {
      var id := genId(idCount);
      idCount := idCount + if step.NextChunk? then 1 else 0;
      var traffic := if step.VerifyFile? then ToBackendOf(step.req.userId, step.req)
                     else (if read then UdpSendOf(step.req.userId, peer, step.req) else []) +
                          ProgressOf(step.req.userId, step.req.friendId, id, step.req.fileId, SendDirection,
                                     step.req.index, step.req.total);
      effects := effects + traffic;
    }

    // ------------------------------------------------------------------
    // Beginning, verifying and fetching a file (1095-1333, 2558-2612, 2735-2849)

    twostate predicate OnFileBeginReqDone(c: ClientSess, req: Msg)
      requires req.FileSendDataBeginReq?
      reads this
    {
      var user := SessUserId(reg, c);
      var b := BeginAnswer(old(held), old(openFiles), c, user, reg.guiSessOf, req,
                           FileByHash(fileStore, req.userId, req.fileHash),
                           RecvPath(curDir, GetUserNameById(reg, user), req.fileName));
      held == b.held && openFiles == b.openFiles && effects == old(effects) + b.effects
    }

    /**
     * HSB_FileSendDataBeginReq (2558-2612). Content the user's store does
     * not know is accepted: its hash is recorded as in transfer, the receive
     * file (id fileId + 1) is opened in the session user's image folder, and
     * success is answered. Content already stored is refused as in transfer,
     * and the messages waiting for that image are released as if it had just
     * arrived under its stored name.
     */
    method OnFileBeginReq(c: ClientSess, req: Msg)
      requires req.FileSendDataBeginReq?
      modifies this`held, this`openFiles, this`effects
      ensures OnFileBeginReqDone(c, req)
    {
      var user := SessUserId(reg, c);
      var b := BeginAnswer(held, openFiles, c, user, reg.guiSessOf, req, FileByHash(fileStore, req.userId, req.fileHash),
                           RecvPath(curDir, GetUserNameById(reg, user), req.fileName));
      held, openFiles, effects := b.held, b.openFiles, effects + b.effects;
    }

    twostate predicate OnFileBeginRspDone(c: ClientSess, rsp: Msg, chunk: Option<seq<byte>>, d: Disk)
      requires rsp.FileSendDataBeginRsp?
      reads this
    {
      && (var name := UserImageDir(SessUserId(reg, c)) + rsp.fileName;
          rsp.errCode == Succeed && name in d.files ==>
            held == old(held) && openFiles == old(openFiles)[rsp.fileId := name] &&
            idCount == old(idCount) + 1 &&
            effects == old(effects) +
                       [ToBackend(c, Built(FileDataSendReq(genId(old(idCount)), rsp.fileId, rsp.userId, rsp.friendId,
                                                           FileTransfer.ChunkCount(FileSize(d, name)), 1,
                                                           FileTransfer.ReadOrEmpty(chunk))))])
      && (var name := UserImageDir(SessUserId(reg, c)) + rsp.fileName;
          rsp.errCode == Succeed && name !in d.files ==>
            held == old(held) && openFiles == old(openFiles) && idCount == old(idCount) && effects == old(effects))
      && (var name := UserImageDir(SessUserId(reg, c)) + rsp.fileName;
          var o := ReleaseSent(old(held), c, CalcHash(d, name));
          rsp.errCode != Succeed ==>
            held == o.held && openFiles == old(openFiles) && idCount == old(idCount) &&
            effects == old(effects) + o.effects)
    }

    /**
     * HSB_FileSendDataBeginRsp (2816-2849). When the server accepts an
     * upload, the image (in the session user's image folder) is opened for
     * reading under the file id, and if that works the first chunk goes out
     * under a fresh id: index 1 of the file's chunk count, carrying what the
     * first read yields. When the server refuses (it has the content), the
     * messages held for the image's hash are sent at once (ReleaseSent).
     */
    method OnFileBeginRsp(c: ClientSess, rsp: Msg, chunk: Option<seq<byte>>, d: Disk)
      requires rsp.FileSendDataBeginRsp?
      modifies this`held, this`openFiles, this`idCount, this`effects
      ensures OnFileBeginRspDone(c, rsp, chunk, d)
    {
      var name := UserImageDir(SessUserId(reg, c)) + rsp.fileName;
      var ok := rsp.errCode == Succeed;
      var isOpen := ok && name in d.files;
      var o := ReleaseSent(held, c, CalcHash(d, name));
      var req := FileDataSendReq(genId(idCount), rsp.fileId, rsp.userId, rsp.friendId,
                                 FileTransfer.ChunkCount(FileSize(d, name)), 1, FileTransfer.ReadOrEmpty(chunk));
      held := if ok then held else o.held;
      openFiles := if isOpen then openFiles[rsp.fileId := name] else openFiles;
      idCount := idCount + if isOpen then 1 else 0;
      var traffic := if isOpen then [ToBackend(c, Built(req))] else if ok then [] else o.effects;
      effects := effects + traffic;
    }

    twostate predicate OnFriendNotifyFileDone(n: Msg, chunk: Option<seq<byte>>, d: Disk)
      requires n.FriendNotifyFileMsgReq?
      reads this
    {
      && (!n.agree ==> openFiles == old(openFiles) && idCount == old(idCount) && effects == old(effects))
      && (n.agree && n.mode == TcpOfflineMode ==>
            openFiles == (if n.fileName in d.files then old(openFiles)[n.fileId := n.fileName] else old(openFiles)) &&
            idCount == old(idCount) &&
            effects == old(effects) + UdpToServerOf(n.userId, FirstChunk("", n, chunk, d)))
      && (n.agree && n.mode != TcpOfflineMode && n.fileName !in d.files ==>
            openFiles == old(openFiles) && idCount == old(idCount) && effects == old(effects))
      && (var req := FirstChunk(genId(old(idCount)), n, chunk, d);
          n.agree && n.mode != TcpOfflineMode && n.fileName in d.files ==>
            openFiles == old(openFiles)[n.fileId := n.fileName] && idCount == old(idCount) + 1 &&
            effects == old(effects) +
                       (if n.userId !in reg.udpSessOf then []
                        else if n.mode == UdpOnlineP2PMode && n.userId in reg.udpAddrOf
                        then [UdpSend(reg.udpSessOf[n.userId], reg.udpAddrOf[n.userId], req)]
                        else [UdpToServer(reg.udpSessOf[n.userId], req)]))
    }

    /**
     * HandleFriendNotifyFileMsgReq (1247-1333): the friend answered an offer
     * of file `n.fileName`; a refusal changes nothing. After an agreement to
     * an offline (TCP) transfer the file is opened (when it exists) and its
     * first chunk goes to the server on the user's UDP session, with no
     * message id. After an agreement in another mode the first chunk is sent
     * only if the file opens; it gets a fresh id and goes over the user's UDP
     * session, straight to the user's recorded UDP address when the mode is
     * online P2P and an address is recorded, and to the server otherwise.
     */
    method OnFriendNotifyFile(n: Msg, chunk: Option<seq<byte>>, d: Disk)
      requires n.FriendNotifyFileMsgReq?
      modifies this`openFiles, this`idCount, this`effects
      ensures OnFriendNotifyFileDone(n, chunk, d)
    {
      var offline := n.mode == TcpOfflineMode;
      var isOpen := n.agree && n.fileName in d.files;
      var sends := isOpen && !offline;
      var req := FirstChunk(if offline then "" else genId(idCount), n, chunk, d);
      openFiles := if isOpen then openFiles[n.fileId := n.fileName] else openFiles;
      idCount := idCount + if sends then 1 else 0;
      var udp := if n.userId !in reg.udpSessOf then []
                 else if n.mode == UdpOnlineP2PMode && n.userId in reg.udpAddrOf
                 then [UdpSend(reg.udpSessOf[n.userId], reg.udpAddrOf[n.userId], req)]
                 else [UdpToServer(reg.udpSessOf[n.userId], req)];
      var traffic := if !n.agree then [] else if offline then UdpToServerOf(n.userId, req) else if sends then udp else [];
      effects := effects + traffic;
    }

    twostate predicate OnFileVerifyReqDone(msg: Msg, d: Disk)
      requires msg.FileVerifyReq?
      reads this
    {
      && (openFiles == old(openFiles) - {msg.fileId + 1})
      && (idCount == old(idCount) + 1)
      && (var name := old(UserImageDir(msg.userId)) + msg.fileName;
          var v := VerifyDownload(old(held), old(fileStore), old(reg), msg, name, CalcHash(d, name), genId(old(idCount)));
          held == v.held && fileStore == v.stores && effects == old(effects) + v.effects)
    }

    /**
     * HandleFileVerifyReq (1095-1178): the last chunk of a download arrived
     * and the sender asks to verify it. The receive file is closed. When the
     * hash of the file received into the user's image folder matches: the
     * hash is no longer in transfer, the messages waiting for the image are
     * released, and the user's store records the file under its hash; when
     * it does not, the file is removed. Either way the answer (VerifyRspOf)
     * goes to the user's backend session, and under a fresh id an ordinary
     * file's result is notified to the user's GUI (ResultNotice).
     */
    method OnFileVerifyReq(msg: Msg, d: Disk)
      requires msg.FileVerifyReq?
      modifies this`held, this`fileStore, this`openFiles, this`idCount, this`effects
      ensures OnFileVerifyReqDone(msg, d)
    {
      var name := UserImageDir(msg.userId) + msg.fileName;
      var v := VerifyDownload(held, fileStore, reg, msg, name, CalcHash(d, name), genId(idCount));
      held, fileStore, openFiles, idCount, effects := v.held, v.stores, openFiles - {msg.fileId + 1}, idCount + 1, effects + v.effects;
    }

    twostate predicate OnFileVerifyRspDone(c: ClientSess, rsp: Msg)
      requires rsp.FileVerifyRsp?
      reads this
    {
      && (idCount == old(idCount) + 1)
      && (var o := ReleaseSent(old(held), c, rsp.fileHash);
          rsp.errCode == Succeed ==>
            held == o.held &&
            effects == old(effects) +
                       (o.effects +
                        ResultNotice(held.hashType, GetGuiSess(reg, rsp.userId), rsp.fileHash,
                                     FriendTransFileResultNotify(genId(old(idCount)), rsp.userId, rsp.friendId,
                                                                 rsp.fileName, SendDirection, TransSucceed),
                                     1223)))
      && (rsp.errCode != Succeed ==>
            held == old(held) &&
            effects == old(effects) +
                       ResultNotice(held.hashType, GetGuiSess(reg, rsp.userId), rsp.fileHash,
                                    FriendTransFileResultNotify(genId(old(idCount)), rsp.userId, rsp.friendId,
                                                                rsp.fileName, SendDirection, TransFailed),
                                    1235))
    }

    /**
     * HSB_FileVerifyRsp (1186-1240): the server verified an upload. On
     * success the messages held for its hash are sent on this session and
     * dropped (ReleaseSent); on failure nothing is released. Under a fresh
     * id an ordinary file's result goes to the user's GUI (ResultNotice).
     */
    method OnFileVerifyRsp(c: ClientSess, rsp: Msg)
      requires rsp.FileVerifyRsp?
      modifies this`held, this`idCount, this`effects
      ensures OnFileVerifyRspDone(c, rsp)
    {
      var ok := rsp.errCode == Succeed;
      var o := ReleaseSent(held, c, rsp.fileHash);
      held := if ok then o.held else held;
      var id := NewMsgId();
      var notice := FriendTransFileResultNotify(id, rsp.userId, rsp.friendId, rsp.fileName, SendDirection,
                                                if ok then TransSucceed else TransFailed);
      var traffic := (if ok then o.effects else []) +
                     ResultNotice(held.hashType, GetGuiSess(reg, rsp.userId), rsp.fileHash, notice,
                                  if ok then 1223 else 1235);
      effects := effects + traffic;
    }

    twostate predicate OnFileDownLoadRspDone(c: ClientSess, rsp: Msg, d: Disk)
      requires rsp.FileDownLoadRsp?
      reads this
    {
      var o := DownloadAnswered(old(held), c, reg, rsp, UserImageDir(SessUserId(reg, c)) + rsp.fileName, d);
      held == o.held && effects == old(effects) + o.effects
    }

    /** HSB_FileDownLoadRsp (2735-2778): DownloadAnswered for the image in the session user's image folder. */
    method OnFileDownLoadRsp(c: ClientSess, rsp: Msg, d: Disk)
      requires rsp.FileDownLoadRsp?
      modifies this`held, this`effects
      ensures OnFileDownLoadRspDone(c, rsp, d)
    {
      var o := DownloadAnswered(held, c, reg, rsp, UserImageDir(SessUserId(reg, c)) + rsp.fileName, d);
      held, effects := o.held, effects + o.effects;
    }

    // ------------------------------------------------------------------
    // Chat messages (1910-2040, 2242-2333, 2397-2550)

    twostate predicate OnFriendChatSendTxtReqDone(req: FriendSendReq, fileIds: nat -> int, d: Disk)
      reads this
    {
      var p := OfferPlan(req.content, req.senderId, req.receiverId, fileIds, Lookup(old(fileStore), req.senderId),
                         old(UserImageDir(req.senderId)), GetClientSess(old(reg), req.senderId), d, genId, old(idCount));
      idCount == p.next && |p.names| == ImageCount(req.content) &&
      (HasImage(req.content) ==>
         held == HoldFriend(old(held), p.hash, FriendChatSendTxtReq(req.msgId, req.senderId, req.receiverId, ReplaceImages(req.content, p.names))) &&
         effects == old(effects) + p.effects) &&
      (!HasImage(req.content) ==>
         held == old(held) && effects == old(effects) + BackendSend(old(reg), req.senderId, req))
    }

    /**
     * DoSF_FriendChatSendTxtReq (1910-1968): the images of a message from
     * the GUI are offered to the backend (OfferImages, with the sender's
     * message store and image folder), and the message, its images renamed,
     * is held under the last image's hash until the upload is confirmed. A
     * message without images goes straight to the sender's backend session.
     * `fileIds` stands for the rand() draws, one per image.
     */
    method OnFriendChatSendTxtReq(req: FriendSendReq, fileIds: nat -> int, d: Disk)
      modifies this`held, this`idCount, this`effects
      ensures OnFriendChatSendTxtReqDone(req, fileIds, d)
    {
      var newVec, plan, haveImage := OfferImages(req.content, req.senderId, req.receiverId, fileIds,
                                                 Lookup(fileStore, req.senderId), UserImageDir(req.senderId),
                                                 GetClientSess(reg, req.senderId), d, genId, idCount);
      var sent := if haveImage then [] else BackendSend(reg, req.senderId, req);
      held, idCount, effects := if haveImage then HoldFriend(held, plan.hash, FriendChatSendTxtReq(req.msgId, req.senderId, req.receiverId, newVec)) else held,
                                plan.next, effects + plan.effects + sent;
    }

    twostate predicate OnSendGroupTextReqDone(s: ServerSess, req: GroupSendReq, fileIds: nat -> int, d: Disk)
      reads this
    {
      var user := GuiUserId(old(reg), s);
      var p := OfferPlan(req.group.content, req.group.senderId, req.group.groupId, fileIds, Lookup(old(fileStore), user),
                         old(UserImageDir(user)), GetClientSess(old(reg), req.group.senderId), d, genId, old(idCount) + 1);
      idCount == p.next && |p.names| == ImageCount(req.group.content) &&
      (HasImage(req.group.content) ==>
         held == HoldGroup(old(held), p.hash, SendGroupTextReq(genId(old(idCount)),
                                                           req.group.(content := ReplaceImages(req.group.content, p.names)))) &&
         effects == old(effects) + p.effects) &&
      (!HasImage(req.group.content) ==>
         held == old(held) &&
         effects == old(effects) + BackendSend(old(reg), req.group.senderId, SendGroupTextReq(genId(old(idCount)), req.group)))
    }

    /**
     * HSF_SendGroupTextMsgReqMsg (1985-2040): as for a friend message, but
     * the message first gets a fresh message id, the new file names come
     * from the store and image folder of the GUI session's user, and the
     * message is held in the group table.
     */
    method OnSendGroupTextReq(s: ServerSess, req: GroupSendReq, fileIds: nat -> int, d: Disk)
      modifies this`held, this`idCount, this`effects
      ensures OnSendGroupTextReqDone(s, req, fileIds, d)
    {
      var msgId := genId(idCount);
      var user := GuiUserId(reg, s);
      var newVec, plan, haveImage := OfferImages(req.group.content, req.group.senderId, req.group.groupId, fileIds,
                                                 Lookup(fileStore, user), UserImageDir(user),
                                                 GetClientSess(reg, req.group.senderId), d, genId, idCount + 1);
      var sent := if haveImage then [] else BackendSend(reg, req.group.senderId, SendGroupTextReq(msgId, req.group));
      held, idCount, effects := if haveImage then HoldGroup(held, plan.hash, SendGroupTextReq(msgId, req.group.(content := newVec)))
                                else held,
                                plan.next, effects + plan.effects + sent;
    }

    twostate predicate OnFriendChatRecvTxtReqDone(c: ClientSess, req: FriendRecvReq)
      reads this
    {
      var es := req.chat.content;
      idCount == old(idCount) + |es| &&
      held == (if HasImage(es) then WaitFriend(old(held), req) else old(held)) &&
      effects == old(effects) +
                 FetchPlan(es, req.chat.receiverId, req.chat.senderId, req.chat.chatMsgId,
                           GetGuiSess(reg, req.chat.receiverId), req.msgId, c, genId, old(idCount)) +
                 (if HasImage(es) || HasFile(es) then []
                  else ToGuiOf(req.chat.receiverId, req) + [ToBackend(c, Built(FriendRecvAck(req)))])
    }

    /**
     * HSB_FriendChatRecvTxtReq (2242-2324): every element of a received
     * message draws a message id; its images are downloaded on `c` and its
     * files offered to the receiver's GUI (FetchElements). A message with
     * images waits for them; one with files only is left to the file
     * offers; any other is passed to the receiver's GUI and acknowledged on `c`.
     */
    method OnFriendChatRecvTxtReq(c: ClientSess, req: FriendRecvReq)
      modifies this`held, this`idCount, this`effects
      ensures OnFriendChatRecvTxtReqDone(c, req)
    {
      var out, waitImage, waitFile := FetchElements(req.chat.content, req.chat.receiverId, req.chat.senderId,
                                                    req.chat.chatMsgId, GetGuiSess(reg, req.chat.receiverId),
                                                    req.msgId, c, genId, idCount);
      var shown := if waitImage || waitFile then []
                   else ToGuiOf(req.chat.receiverId, req) + [ToBackend(c, Built(FriendRecvAck(req)))];
      held, idCount, effects := if waitImage then WaitFriend(held, req) else held,
                                idCount + |req.chat.content|, effects + out + shown;
    }

    twostate predicate OnRecvGroupTextReqDone(c: ClientSess, req: GroupRecvReq)
      reads this
    {
      var es := req.group.content;
      idCount == old(idCount) + |es| &&
      held == (if HasImage(es) then WaitGroup(old(held), req) else old(held)) &&
      effects == old(effects) +
                 FetchPlan(es, req.userId, req.group.groupId, req.msgId, None, req.msgId, c, genId, old(idCount)) +
                 (if HasImage(es) || HasFile(es) then []
                  else ToGuiOf(req.userId, req) + [ToBackend(c, Built(GroupRecvAck(req)))])
    }

    /**
     * HSB_RecvGroupTextMsgReqMsg (2452-2550): as for a friend message, but
     * files are not offered to the GUI, the message waits in the group table
     * under its message id, and the acknowledgement is the group one.
     */
    method OnRecvGroupTextReq(c: ClientSess, req: GroupRecvReq)
      modifies this`held, this`idCount, this`effects
      ensures OnRecvGroupTextReqDone(c, req)
    {
      var out, waitImage, waitFile := FetchElements(req.group.content, req.userId, req.group.groupId, req.msgId, None,
                                                    req.msgId, c, genId, idCount);
      var shown := if waitImage || waitFile then []
                   else ToGuiOf(req.userId, req) + [ToBackend(c, Built(GroupRecvAck(req)))];
      held, idCount, effects := if waitImage then WaitGroup(held, req) else held,
                                idCount + |req.group.content|, effects + out + shown;
    }

    twostate predicate OnFriendChatSendTxtRspDone(c: ClientSess, rsp: Msg)
      requires rsp.FriendChatSendTxtRsp?
      reads this
    {
      var dir := UserImageDir(SessUserId(reg, c));
      effects == old(effects) +
                 ToGuiOf(SessUserId(reg, c), FriendChatSendTxtRsp(rsp.msgId, rsp.chat.(content := PrefixImages(rsp.chat.content, dir))))
    }

    /**
     * HSB_FriendChatSendTxtRsp (2397-2450): the server's answer to a sent
     * message goes to the session user's GUI with every image name
     * prefixed by that user's image folder (PrefixImageNames).
     */
    method OnFriendChatSendTxtRsp(c: ClientSess, rsp: Msg)
      requires rsp.FriendChatSendTxtRsp?
      modifies this`effects
      ensures OnFriendChatSendTxtRspDone(c, rsp)
    {
      var dir := UserImageDir(SessUserId(reg, c));
      var content := PrefixImageNames(rsp.chat.content, dir);
      effects := effects + ToGuiOf(SessUserId(reg, c), FriendChatSendTxtRsp(rsp.msgId, rsp.chat.(content := content)));
    }

    twostate predicate OnNotifyGroupMsgDone(c: ClientSess, req: Msg)
      requires req.NotifyGroupMsgReq?
      reads this
    {
      effects == old(effects) + [ToBackend(c, Built(NotifyGroupMsgRsp(req.msgId, req.userId, req.groupId)))]
    }

    /** HSB_NotifyGroupMsgReqMsg (2326-2333): the notice is answered on `c` with its own ids. */
    method OnNotifyGroupMsg(c: ClientSess, req: Msg)
      requires req.NotifyGroupMsgReq?
      modifies this`effects
      ensures OnNotifyGroupMsgDone(c, req)
    {
      effects := effects + [ToBackend(c, Built(NotifyGroupMsgRsp(req.msgId, req.userId, req.groupId)))];
    }

    // ------------------------------------------------------------------
    // Friend lists and UDP addresses (776-797, 3092-3121)

    twostate predicate OnGetFriendListRspDone(c: ClientSess, rsp: Msg)
      requires rsp.GetFriendListRsp?
      reads this
    {
      && (reg == WithFriends(old(reg), SessUserId(old(reg), c), Flatten(rsp.teams)))
      && (effects == old(effects) + GuiSend(old(reg), SessUserId(old(reg), c), rsp))
    }

    /**
     * HSB_GetFriendListRsp (776-797): the session user's friend list becomes
     * the members of the answer's teams, in order, and the answer is passed
     * on to that user's GUI.
     */
    method OnGetFriendListRsp(c: ClientSess, rsp: Msg)
      requires rsp.GetFriendListRsp?
      modifies this`reg, this`effects
      ensures OnGetFriendListRspDone(c, rsp)
    {
      var id := SessUserId(reg, c);
      var friends := FlattenFriends(rsp.teams);
      reg, effects := WithFriends(reg, id, friends), effects + GuiSend(reg, id, rsp);
    }

    twostate predicate OnQueryUdpAddrRspDone(rsp: Msg)
      requires rsp.QueryUserUdpAddrRsp?
      reads this
    {
      && (rsp.errCode == Succeed ==> reg == WithUdpAddr(old(reg), rsp.udpUserId, rsp.endpoint) && retry == old(retry))
      && (rsp.errCode != Succeed ==>
            reg == old(reg) && retry == RetryQueue.Enqueue(old(retry), rsp.userId, QueryUserUdpAddrReq("", rsp.userId, rsp.udpUserId)))
    }

    /**
     * HSB_QueryUserUdpAddrRsp (3092-3121): a successful answer records the
     * friend's UDP address; a failed one queues a fresh query (with an empty
     * message id) for the asking user, to be sent by the next flush.
     */
    method OnQueryUdpAddrRsp(rsp: Msg)
      requires rsp.QueryUserUdpAddrRsp?
      modifies this`reg, this`retry
      ensures OnQueryUdpAddrRspDone(rsp)
    {
      var ok := rsp.errCode == Succeed;
      reg, retry := if ok then WithUdpAddr(reg, rsp.udpUserId, rsp.endpoint) else reg,
                    if ok then retry else RetryQueue.Enqueue(retry, rsp.userId, QueryUserUdpAddrReq("", rsp.userId, rsp.udpUserId));
    }

    // ------------------------------------------------------------------
    // The timer (802-824, 927-950, 964-1035)

    /**
     * CheckAllConnect (802-824), visiting the backend sessions in `users`,
     * the UDP sessions in `udpUsers`, the friend lists in `friendUsers` and
     * the sessions waiting to reconnect in `reconnecting`.
     */
    method CheckAllConnect(users: seq<UserId>, udpUsers: seq<UserId>, friendUsers: seq<UserId>,
                           reconnecting: seq<ClientSess>)
      requires Enumerates(users, reg.clientSessOf.Keys) && Enumerates(udpUsers, reg.udpSessOf.Keys)
      requires Enumerates(friendUsers, reg.friendsOf.Keys) && Enumerates(reconnecting, reg.reconnect.Keys)
      modifies this`idCount, this`effects
      ensures var r := ConnectionCheck(Housekeeping.ChecksConnections(timeCount), users, udpUsers, friendUsers,
                                       reconnecting, reg.clientSessOf, reg.udpSessOf, reg.friendsOf, reg.udpAddrOf,
                                       genId, old(idCount));
              idCount == old(idCount) + r.ids && effects == old(effects) + r.effects
    {
      var on, sess, udp, friends, addrs := Housekeeping.ChecksConnections(timeCount), reg.clientSessOf, reg.udpSessOf,
                                           reg.friendsOf, reg.udpAddrOf;
      var r := CheckConnections(on, users, udpUsers, friendUsers, reconnecting, sess, udp, friends, addrs, genId, idCount);
      idCount, effects := idCount + r.ids, effects + r.effects;
    }

    /**
     * OnTimer (964-993): the tick counter moves on and the connections are
     * checked; at the end of every idle period the idle counter is reset
     * and the retry queue flushed while a backend session exists, and
     * otherwise counted up, the server stopping once it passes the limit.
     */
    method OnTimer(users: seq<UserId>, udpUsers: seq<UserId>, friendUsers: seq<UserId>,
                   reconnecting: seq<ClientSess>, waiting: seq<UserId>)
      requires Enumerates(users, reg.clientSessOf.Keys) && Enumerates(udpUsers, reg.udpSessOf.Keys)
      requires Enumerates(friendUsers, reg.friendsOf.Keys) && Enumerates(reconnecting, reg.reconnect.Keys)
      requires Enumerates(waiting, retry.Keys)
      modifies this`timeCount, this`noSessCount, this`idCount, this`retry, this`effects
      ensures timeCount == old(timeCount) + 1
      ensures var r := ConnectionCheck(Housekeeping.ChecksConnections(timeCount), users, udpUsers, friendUsers,
                                       reconnecting, old(reg).clientSessOf, old(reg).udpSessOf, old(reg).friendsOf,
                                       old(reg).udpAddrOf, genId, old(idCount));
              var o := IdleTick(timeCount, old(noSessCount), old(reg).clientSessOf, old(retry), waiting);
              idCount == old(idCount) + r.ids && noSessCount == o.noSess && retry == o.retry &&
              effects == old(effects) + r.effects + o.effects
    {
      var sess, queued, idle := reg.clientSessOf, retry, noSessCount;
      timeCount := timeCount + 1;
      ghost var r := ConnectionCheck(Housekeeping.ChecksConnections(timeCount), users, udpUsers, friendUsers,
                                     reconnecting, reg.clientSessOf, reg.udpSessOf, reg.friendsOf, reg.udpAddrOf,
                                     genId, idCount);
      CheckAllConnect(users, udpUsers, friendUsers, reconnecting);
      assert idCount == old(idCount) + r.ids && effects == old(effects) + r.effects;
      var o := IdleRound(timeCount, idle, sess, queued, waiting);
      noSessCount, retry, effects := o.noSess, o.retry, effects + o.effects;
    }

    /**
     * SetTimer (1004-1036): the timer is re-armed while the idle counter is
     * below its limit; otherwise the reactor is stopped.
     */
    method SetTimer() returns (rearmed: bool)
      modifies this`effects
      ensures rearmed == Housekeeping.Reschedules(noSessCount)
      ensures effects == old(effects) + (if rearmed then [] else [StopReactor])
    {
      rearmed := noSessCount < Housekeeping.RESCHEDULE_LIMIT;
      effects := effects + (if rearmed then [] else [StopReactor]);
    }

    // ------------------------------------------------------------------
    // Dispatch (345-400, 1063-1087, 1765-1864, 2077-2166, 3131-3325)

    twostate predicate OnFriendChatHistoryDone(s: ServerSess, req: Msg, history: seq<string>)
      requires req.GetFriendChatHistoryReq?
      reads this
    {
      effects == old(effects) +
                 [ToGui(s, Built(GetFriendChatHistoryRsp(req.msgId, req.userId, req.friendId, req.msgId,
                                                         if req.userId in fileStore then history else [])))]
    }

    /**
     * HSF_GetFriendChatHistoryReq (1765-1783): the requesting GUI gets the
     * friend chat history from the user's store, empty when the user has no
     * open store; the answer reuses the request's id as its chat message id.
     */
    method OnFriendChatHistory(s: ServerSess, req: Msg, history: seq<string>)
      requires req.GetFriendChatHistoryReq?
      modifies this`effects
      ensures OnFriendChatHistoryDone(s, req, history)
    {
      var records := if req.userId in fileStore then history else [];
      effects := effects + [ToGui(s, Built(GetFriendChatHistoryRsp(req.msgId, req.userId, req.friendId, req.msgId, records)))];
    }

    twostate predicate OnGroupChatHistoryDone(s: ServerSess, req: Msg, history: seq<string>)
      requires req.GetGroupChatHistoryReq?
      reads this
    {
      effects == old(effects) +
                 [ToGui(s, Built(GetGroupChatHistoryRsp(req.msgId, req.userId, req.groupId, req.msgId,
                                                        if req.userId in fileStore then history else [])))]
    }

    /** HSF_GetGroupChatHistoryReq (1792-1814): the same for a group's history. */
    method OnGroupChatHistory(s: ServerSess, req: Msg, history: seq<string>)
      requires req.GetGroupChatHistoryReq?
      modifies this`effects
      ensures OnGroupChatHistoryDone(s, req, history)
    {
      var records := if req.userId in fileStore then history else [];
      effects := effects + [ToGui(s, Built(GetGroupChatHistoryRsp(req.msgId, req.userId, req.groupId, req.msgId, records)))];
    }

    twostate predicate OnGuiFileBeginReqDone(req: Msg, d: Disk)
      requires req.FileSendDataBeginReq?
      reads this
    {
      var hash := CalcHash(d, req.fileName);
      var stored := FileByHash(fileStore, req.userId, hash);
      effects == old(effects) +
                 (if stored == "" then [CopyFile(req.fileName, UserFileDir(req.userId) + BaseName(req.fileName))] else []) +
                 BackendSend(reg, req.userId, GuiBeginReq(req, hash, stored))
    }

    /**
     * HSF_FileSendDataBeginReq (1823-1864): a GUI starts sending a file.
     * Content the user's store already holds is offered under its stored
     * name; new content is copied into the user's file folder first. The
     * request then goes to the user's backend session (GuiBeginReq).
     */
    method OnGuiFileBeginReq(req: Msg, d: Disk)
      requires req.FileSendDataBeginReq?
      modifies this`effects
      ensures OnGuiFileBeginReqDone(req, d)
    {
      var hash := CalcHash(d, req.fileName);
      var stored := FileByHash(fileStore, req.userId, hash);
      var copy := if stored == "" then [CopyFile(req.fileName, UserFileDir(req.userId) + BaseName(req.fileName))] else [];
      effects := effects + copy + BackendSend(reg, req.userId, GuiBeginReq(req, hash, stored));
    }

    twostate predicate OnFriendSendFileDone(req: Msg, d: Disk)
      requires req.FriendSendFileMsgReq?
      reads this
    {
      && (req.userId in reg.clientSessOf ==>
            held == old(held).(hashType := InsertIfAbsent(old(held).hashType, CalcHash(d, req.fileName), FileTypeFile)) &&
            effects == old(effects) + [ToBackend(reg.clientSessOf[req.userId], Built(req))])
      && (req.userId !in reg.clientSessOf ==> held == old(held) && effects == old(effects))
    }

    /**
     * The FriendSendFileMsgReq case of HandleSendForward (2130-2145): when
     * the user has a backend session, the file's hash is recorded as an
     * ordinary file (unless already recorded) and the request goes on;
     * otherwise nothing happens.
     */
    method OnFriendSendFile(req: Msg, d: Disk)
      requires req.FriendSendFileMsgReq?
      modifies this`held, this`effects
      ensures OnFriendSendFileDone(req, d)
    {
      if req.userId in reg.clientSessOf {
        held := held.(hashType := InsertIfAbsent(held.hashType, CalcHash(d, req.fileName), FileTypeFile));
        effects := effects + [ToBackend(reg.clientSessOf[req.userId], Built(req))];
      }
    }

    twostate predicate OnTcpKeepAliveDone(c: ClientSess)
      reads this
    {
      effects == old(effects) + UdpToServerOf(SessUserId(reg, c), KeepAliveReq(SessUserId(reg, c)))
    }

    /**
     * The keep-alive cases of HandleSendBack (3224-3253): on either
     * keep-alive from the backend, the session's user sends a keep-alive
     * request naming itself to the server over its UDP session, if any.
     */
    method OnTcpKeepAlive(c: ClientSess)
      modifies this`effects
      ensures OnTcpKeepAliveDone(c)
    {
      var id := SessUserId(reg, c);
      effects := effects + UdpToServerOf(id, KeepAliveReq(id));
    }

    twostate predicate OnUnReadNotifyDone(req: Msg)
      requires req.FriendUnReadNotifyReq?
      reads this
    {
      effects == old(effects) + BackendSend(reg, req.userId, FriendUnReadNotifyRsp(req.msgId, req.userId))
    }

    /**
     * The FriendUnReadMsgNotifyReq case of HandleSendBack (3262-3276): the
     * answer, with the notice's ids, goes to the backend session of the
     * user the notice names, not necessarily the one it came on.
     */
    method OnUnReadNotify(req: Msg)
      requires req.FriendUnReadNotifyReq?
      modifies this`effects
      ensures OnUnReadNotifyDone(req)
    {
      effects := effects + BackendSend(reg, req.userId, FriendUnReadNotifyRsp(req.msgId, req.userId));
    }

    /**
     * What a parsed packet from the backend session `c` leaves behind, by the
     * class of its message `m`: the outcome its handler promises.
     */
    twostate predicate BackCallDone(c: ClientSess, m: Msg, env: Env)
      reads this
    {
      && (BackGroupOf(m) == ChatGroup ==> BackChatCallDone(c, m))
      && (BackGroupOf(m) == SessionGroup ==> BackSessionCallDone(c, m, env))
      && (BackGroupOf(m) == FileGroup ==> BackFileCallDone(c, m, env))
    }

    /** BackCallDone for the chat messages; the empty handlers change nothing. */
    twostate predicate BackChatCallDone(c: ClientSess, m: Msg)
      reads this
    {
      && (m.FriendChatRecvTxtReq? ==> OnFriendChatRecvTxtReqDone(c, m))
      && (m.FriendChatSendTxtRsp? ==> OnFriendChatSendTxtRspDone(c, m))
      && (m.RecvGroupTextReq? ==> OnRecvGroupTextReqDone(c, m))
      && (m.FriendUnReadNotifyReq? ==> OnUnReadNotifyDone(m))
      && (m.NotifyGroupMsgReq? ==> OnNotifyGroupMsgDone(c, m))
      && (m.SendGroupTextRsp? || m.FriendRecvFileMsgReq? || m.UserRegisterRsp? ==> unchanged(this))
    }

    /** BackCallDone for the session messages. */
    twostate predicate BackSessionCallDone(c: ClientSess, m: Msg, env: Env)
      reads this
    {
      && (m.UserLoginRsp? ==> OnLoginRspDone(c, m, env.d, env.db))
      && (m.UserLogoutRsp? ==> OnLogoutRspDone(c, m))
      && (m.KeepAliveRsp? || m.KeepAliveReq? ==> OnTcpKeepAliveDone(c))
      && (m.QueryUserUdpAddrRsp? ==> OnQueryUdpAddrRspDone(m))
      && (m.GetFriendListRsp? ==> OnGetFriendListRspDone(c, m))
    }

    /** BackCallDone for the file-transfer messages. */
    twostate predicate BackFileCallDone(c: ClientSess, m: Msg, env: Env)
      reads this
    {
      && (m.FileSendDataBeginReq? ==> OnFileBeginReqDone(c, m))
      && (m.FileSendDataBeginRsp? ==> OnFileBeginRspDone(c, m, env.chunk, env.d))
      && (m.FileVerifyReq? ==> OnFileVerifyReqDone(m, env.d))
      && (m.FileDownLoadRsp? ==> OnFileDownLoadRspDone(c, m, env.d))
      && (m.FileDataSendRsp? ==> OnTcpDataSendRspDone(c, m, env.chunk, env.d))
      && (m.FileDataRecvReq? ==> OnTcpDataRecvReqDone(c, m))
      && (m.FileVerifyRsp? ==> OnFileVerifyRspDone(c, m))
      && (m.FriendNotifyFileMsgReq? ==> OnFriendNotifyFileDone(m, env.chunk, env.d))
    }

    /**
     * The chat cases of HandleSendBack that parse their packet (3135-3162,
     * 3209-3215, 3267-3281, 3318-3330): the handler of the message's class
     * runs. The answers to a group send, the file-receive notices and the
     * registration answers have empty handlers and change nothing.
     */
    method HandleBackChatCall(c: ClientSess, m: Msg)
      requires Valid()
      modifies this`held, this`idCount, this`effects
      ensures Valid()
      ensures !BackChatKind(m) ==> unchanged(this)
      ensures BackChatCallDone(c, m)
    {
      if m.FriendChatRecvTxtReq? {
        OnFriendChatRecvTxtReq(c, m);
      } else if m.FriendChatSendTxtRsp? {
        OnFriendChatSendTxtRsp(c, m);
      } else if m.RecvGroupTextReq? {
        OnRecvGroupTextReq(c, m);
      } else if m.FriendUnReadNotifyReq? {
        OnUnReadNotify(m);
      } else if m.NotifyGroupMsgReq? {
        OnNotifyGroupMsg(c, m);
      }
    }

    /**
     * The session cases of HandleSendBack that parse their packet
     * (3184-3197, 3228-3266, 3304-3310): the handler of the message's class runs.
     */
    method HandleBackSessionCall(c: ClientSess, m: Msg, env: Env)
      requires Valid()
      modifies this`reg, this`retry, this`fileStore, this`nextUdp, this`idCount, this`effects
      ensures Valid()
      ensures !BackSessionKind(m) ==> unchanged(this)
      ensures BackSessionCallDone(c, m, env)
    {
      if m.UserLoginRsp? {
        OnLoginRsp(c, m, env.d, env.db);
      } else if m.UserLogoutRsp? {
        OnLogoutRsp(c, m);
      } else if m.KeepAliveRsp? || m.KeepAliveReq? {
        OnTcpKeepAlive(c);
      } else if m.QueryUserUdpAddrRsp? {
        OnQueryUdpAddrRsp(m);
      } else if m.GetFriendListRsp? {
        OnGetFriendListRsp(c, m);
      }
    }

    /**
     * The file-transfer cases of HandleSendBack that parse their packet
     * (3163-3183, 3202-3208, 3282-3303, 3311-3317): the handler of the
     * message's class runs.
     */
    method HandleBackFileCall(c: ClientSess, m: Msg, env: Env)
      requires Valid()
      modifies this`held, this`fileStore, this`openFiles, this`idCount, this`effects
      ensures Valid()
      ensures !BackFileKind(m) ==> unchanged(this)
      ensures BackFileCallDone(c, m, env)
    {
      if m.FileSendDataBeginReq? {
        OnFileBeginReq(c, m);
      } else if m.FileSendDataBeginRsp? {
        OnFileBeginRsp(c, m, env.chunk, env.d);
      } else if m.FileVerifyReq? {
        OnFileVerifyReq(m, env.d);
      } else if m.FileDownLoadRsp? {
        OnFileDownLoadRsp(c, m, env.d);
      } else if m.FileDataSendRsp? {
        var _ := OnTcpDataSendRsp(c, m, env.chunk, env.d);
      } else if m.FileDataRecvReq? {
        OnTcpDataRecvReq(c, m);
      } else if m.FileVerifyRsp? {
        OnFileVerifyRsp(c, m);
      } else if m.FriendNotifyFileMsgReq? {
        OnFriendNotifyFile(m, env.chunk, env.d);
      }
    }

    /** The cases of HandleSendBack that parse their packet (3131-3325): the group of the message's class runs. */
    method HandleBackCall(c: ClientSess, m: Msg, env: Env)
      requires Valid()
      modifies this`reg, this`held, this`retry, this`fileStore, this`openFiles, this`nextUdp, this`idCount, this`effects
      ensures Valid()
      ensures BackGroupOf(m) == ChatGroup ==> BackChatCallDone(c, m)
      ensures BackGroupOf(m) == SessionGroup ==> BackSessionCallDone(c, m, env)
      ensures BackGroupOf(m) == FileGroup ==> BackFileCallDone(c, m, env)
      ensures BackGroupOf(m) == NoGroup ==> unchanged(this)
    {
      match BackGroupOf(m)
      case ChatGroup => HandleBackChatCall(c, m);
      case SessionGroup => HandleBackSessionCall(c, m, env);
      case FileGroup => HandleBackFileCall(c, m, env);
      case NoGroup =>
    }

    /**
     * What a packet from the backend session `c` that reaches a handler
     * leaves behind: a parsed message as BackCallDone says; a network
     * failure report as OnNetFailed promises, a recovery report as
     * OnNetRecover promises.
     */
    twostate predicate BackRouted(c: ClientSess, p: Packet, env: Env)
      reads this
    {
      var r := Dispatch.RouteBack(p, parse(p));
      && (r.Call? ==> BackCallDone(c, r.msg, env))
      && (r.Event? && p.kind == NetFailedReportType ==> OnNetFailedDone(c, env.now))
      && (r.Event? && p.kind != NetFailedReportType ==> OnNetRecoverDone(c))
    }

    /**
     * HandleSendBack (3131-3325): a packet from the backend session `c` is
     * routed by its tag (Dispatch.RouteBack). It counts as handled exactly
     * when its tag has a case, whether or not its text parsed; a packet
     * that has a case but does not parse, or has no case, changes nothing.
     */
    method HandleSendBack(c: ClientSess, p: Packet, env: Env) returns (handled: bool)
      requires Valid()
      modifies this`reg, this`held, this`retry, this`fileStore, this`openFiles, this`nextUdp, this`idCount, this`effects
      ensures handled <==> Dispatch.BackKind(p.kind)
      ensures Dispatch.RouteBack(p, parse(p)).Ignored? || !handled ==> unchanged(this)
      ensures BackRouted(c, p, env)
    {
      var r := Dispatch.RouteBack(p, parse(p));
      if r.Call? {
        HandleBackCall(c, r.msg, env);
      } else if r.Event? && p.kind == NetFailedReportType {
        OnNetFailed(c, env.now);
      } else if r.Event? {
        OnNetRecover(c);
      }
      handled := !r.Unhandled?;
    }

    /**
     * SendBack (1063-1087): with a GUI session for the backend session's
     * user (BackGui), the packet is handled and, when it has no case, passed
     * on to that GUI as it came; with none it goes to the HTTP server.
     */
    method SendBack(c: ClientSess, p: Packet, env: Env)
      requires Valid()
      modifies this`reg, this`held, this`retry, this`fileStore, this`openFiles, this`nextUdp, this`idCount, this`effects
      ensures BackGui(old(reg), c).None? ==> reg == old(reg) && effects == old(effects) + [HttpRsp(c, p)]
      ensures BackGui(old(reg), c).Some? && !Dispatch.BackKind(p.kind) ==>
                reg == old(reg) && effects == old(effects) + [ToGui(BackGui(old(reg), c).value, Verbatim(p))]
      ensures BackGui(old(reg), c).Some? ==> BackRouted(c, p, env)
    {
      var gui := BackGui(reg, c);
      if gui.Some? {
        var handled := HandleSendBack(c, p, env);
        if !handled {
          effects := effects + [ToGui(gui.value, Verbatim(p))];
        }
      } else {
        effects := effects + [HttpRsp(c, p)];
      }
    }

    /**
     * What a parsed packet from the GUI session `s` leaves behind, by the
     * class of its message `m`: the outcome its handler promises, in the terms of
     * that handler's postcondition.
     */
    twostate predicate ForwardCallDone(s: ServerSess, m: Msg, env: Env)
      reads this
    {
      && (m.GetFriendChatHistoryReq? ==> OnFriendChatHistoryDone(s, m, env.history))
      && (m.GetGroupChatHistoryReq? ==> OnGroupChatHistoryDone(s, m, env.history))
      && (m.FileSendDataBeginReq? ==> OnGuiFileBeginReqDone(m, env.d))
      && (m.FriendChatSendTxtReq? ==> OnFriendChatSendTxtReqDone(m, env.fileIds, env.d))
      && (m.UserLoginReq? ==> OnGuiLoginReqDone(s, m, env.connected))
      && (m.SendGroupTextReq? ==> OnSendGroupTextReqDone(s, m, env.fileIds, env.d))
      && (m.FriendSendFileMsgReq? ==> OnFriendSendFileDone(m, env.d))
    }

    /** The cases of HandleSendForward that parse their packet (2081-2145). */
    method HandleForwardCall(s: ServerSess, m: Msg, env: Env)
      modifies this`reg, this`held, this`idCount, this`effects
      ensures !ForwardCallKind(m) ==> unchanged(this)
      ensures ForwardCallDone(s, m, env)
    {
      if m.GetFriendChatHistoryReq? {
        OnFriendChatHistory(s, m, env.history);
      } else if m.GetGroupChatHistoryReq? {
        OnGroupChatHistory(s, m, env.history);
      } else if m.FileSendDataBeginReq? {
        OnGuiFileBeginReq(m, env.d);
      } else if m.FriendChatSendTxtReq? {
        OnFriendChatSendTxtReq(m, env.fileIds, env.d);
      } else if m.UserLoginReq? {
        OnGuiLoginReq(s, m, env.connected);
      } else if m.SendGroupTextReq? {
        OnSendGroupTextReq(s, m, env.fileIds, env.d);
      } else if m.FriendSendFileMsgReq? {
        OnFriendSendFile(m, env.d);
      }
    }

    /**
     * HandleSendForward (2077-2166): a packet from the GUI session `s` is
     * routed by its tag (Dispatch.RouteForward). Every tag with a case
     * counts as handled; any other packet is passed on as it came
     * (RawForward) and counts as handled exactly when it could be passed
     * on. A packet that has a case but does not parse changes nothing.
     */
    method HandleSendForward(s: ServerSess, p: Packet, env: Env) returns (handled: bool)
      modifies this`reg, this`held, this`idCount, this`effects
      ensures handled <==> Dispatch.ForwardKind(p.kind) || s in old(reg).forward || GuiUserId(old(reg), s) in old(reg).clientSessOf
      ensures !Dispatch.ForwardKind(p.kind) ==>
                reg == old(reg) && held == old(held) && idCount == old(idCount) &&
                effects == old(effects) + RawForward(old(reg), s, p)
      ensures Dispatch.RouteForward(p, parse(p)).Ignored? ==> unchanged(this)
      ensures var r := Dispatch.RouteForward(p, parse(p));
              r.Call? ==> ForwardCallDone(s, r.msg, env)
      ensures Dispatch.RouteForward(p, parse(p)).Event? ==> OnGuiNetFailedDone(s)
    {
      var r := Dispatch.RouteForward(p, parse(p));
      handled := true;
      if r.Call? {
        HandleForwardCall(s, r.msg, env);
      } else if r.Event? {
        OnGuiNetFailed(s);
      } else if r.Unhandled? {
        var e := RawForward(reg, s, p);
        effects := effects + e;
        handled := e != [];
      }
    }

    /**
     * The answer to a chunk acknowledgement that came over UDP: the step
     * AnswerAck computes from the state before, sent as SendAnswerUdp says,
     * the progress report drawing the id after those AnswerAck drew.
     */
    twostate predicate UdpAckAnswered(peer: Endpoint, rsp: Msg, chunk: Option<seq<byte>>, d: Disk)
      requires rsp.FileDataSendRsp?
      reads this
    {
      var step := old(AckStep(rsp, chunk, genId(idCount), d));
      var mid := old(idCount) + FileTransfer.AckIds(rsp, chunk);
      && openFiles == (if FileTransfer.SendsNext(rsp.index, rsp.total) then old(openFiles) else old(openFiles) - {rsp.fileId})
      && idCount == mid + (if step.NextChunk? then 1 else 0)
      && (step.NextChunk? ==>
            effects == old(effects) +
                       ((if chunk.Some? then UdpSendOf(step.req.userId, peer, step.req) else []) +
                        ProgressOf(step.req.userId, step.req.friendId, genId(mid), step.req.fileId,
                                   SendDirection, step.req.index, step.req.total)))
      && (step.VerifyFile? ==> effects == old(effects) + ToBackendOf(step.req.userId, step.req))
    }

    /**
     * Handle_UdpMsg for a chunk acknowledgement (272-337): the answer is
     * computed as over TCP (AnswerAck) and sent back over UDP
     * (SendAnswerUdp), `chunk.Some?` telling whether the next chunk was read.
     */
    method OnUdpDataSendRsp(peer: Endpoint, rsp: Msg, chunk: Option<seq<byte>>, d: Disk)
      requires rsp.FileDataSendRsp?
      modifies this`idCount, this`openFiles, this`effects
      ensures UdpAckAnswered(peer, rsp, chunk, d)
    {
      var step := AnswerAck(rsp, chunk, d);
      ghost var files, mid := openFiles, idCount;
      SendAnswerUdp(peer, step, chunk.Some?);
      assert openFiles == files && mid == old(idCount) + FileTransfer.AckIds(rsp, chunk);
    }

    /**
     * What a parsed datagram from `peer` leaves behind, by the class of its
     * message `m`: the outcome its handler promises.
     */
    twostate predicate UdpCallDone(peer: Endpoint, m: Msg, env: Env)
      reads this
    {
      && (m.KeepAliveRsp? ==> OnUdpKeepAliveRspDone(peer, m))
      && (m.FileDataSendReq? ==> OnUdpDataSendReqDone(peer, m))
      && (m.FileDataSendRsp? ==> UdpAckAnswered(peer, m, env.chunk, env.d))
      && (m.FileDataRecvReq? ==> OnUdpDataRecvReqDone(peer, m))
      && (m.UdpP2pStartReq? ==> OnUdpP2pStartReqDone(peer, m))
      && (m.UdpP2pStartRsp? ==> OnUdpP2pStartRspDone(m, env.now))
    }

    /**
     * DispatchUdpMsg (345-400): a datagram from `peer` is routed by its tag
     * (Dispatch.RouteUdp) to the UDP handler of its class. A datagram
     * without a case, or whose text does not parse, changes nothing.
     */
    method DispatchUdpMsg(peer: Endpoint, p: Packet, env: Env)
      modifies this`reg, this`openFiles, this`idCount, this`effects
      ensures !Dispatch.RouteUdp(p, parse(p)).Call? ==> unchanged(this)
      ensures var r := Dispatch.RouteUdp(p, parse(p));
              r.Call? ==> UdpCallDone(peer, r.msg, env)
    {
      var r := Dispatch.RouteUdp(p, parse(p));
      if r.Call? {
        var m := r.msg;
        if m.KeepAliveRsp? {
          OnUdpKeepAliveRsp(peer, m);
        } else if m.FileDataSendReq? {
          OnUdpDataSendReq(peer, m);
        } else if m.FileDataSendRsp? {
          OnUdpDataSendRsp(peer, m, env.chunk, env.d);
        } else if m.FileDataRecvReq? {
          OnUdpDataRecvReq(peer, m);
        } else if m.UdpP2pStartReq? {
          OnUdpP2pStartReq(peer, m);
        } else if m.UdpP2pStartRsp? {
          OnUdpP2pStartRsp(m, env.now);
        }
      }
    }
  }
}
