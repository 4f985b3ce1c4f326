/**
 * The messages the medium server reads and writes, reduced to the fields
 * its handlers look at, and the effects a handler has on the world outside
 * its own tables (messages sent, connections started or stopped, files
 * written or removed).
 *
 * A message arrives as a `Packet`: its type tag and its serialized text.
 * Whether the text parses as a message of that type (FromString) is not
 * modelled; the server is given a parse function and acts only when it
 * yields a message of the expected kind.
 */
module Messages {
  import opened Common

  /** The type tag carried in every frame header (E_MsgType). */
  datatype MsgType =
    | KeepAliveReqType
    | KeepAliveRspType
    | UserLoginReqType
    | UserLoginRspType
    | UserLogoutRspType
    | NetFailedReportType
    | NetRecoverReportType
    | FriendChatSendTxtReqType
    | FriendChatSendTxtRspType
    | FriendChatRecvTxtReqType
    | SendGroupTextReqType
    | SendGroupTextRspType
    | RecvGroupTextReqType
    | NotifyGroupMsgReqType
    | FileSendDataBeginReqType
    | FileSendDataBeginRspType
    | FileSendDataReqType
    | FileSendDataRspType
    | FileRecvDataReqType
    | FileVerifyReqType
    | FileVerifyRspType
    | FileDownLoadRspType
    | FriendNotifyFileMsgReqType
    | FriendRecvFileMsgReqType
    | FriendSendFileMsgReqType
    | UdpP2PStartReqType
    | UdpP2PStartRspType
    | QueryUserUdpAddrRspType
    | FriendUnReadMsgNotifyReqType
    | GetFriendListRspType
    | GetFriendChatHistoryReqType
    | GetGroupChatHistoryReqType
    | UserRegisterRspType
    | OtherType(code: int)

  /**
   * `m` is a message of the class the type tag `k` names: what FromString
   * into that class yields when it succeeds. The two network reports and
   * unknown tags have no message class.
   */
  predicate OfKind(m: Msg, k: MsgType)
  {
    match k
    case KeepAliveReqType => m.KeepAliveReq?
    case KeepAliveRspType => m.KeepAliveRsp?
    case UserLoginReqType => m.UserLoginReq?
    case UserLoginRspType => m.UserLoginRsp?
    case UserLogoutRspType => m.UserLogoutRsp?
    case NetFailedReportType => false
    case NetRecoverReportType => false
    case FriendChatSendTxtReqType => m.FriendChatSendTxtReq?
    case FriendChatSendTxtRspType => m.FriendChatSendTxtRsp?
    case FriendChatRecvTxtReqType => m.FriendChatRecvTxtReq?
    case SendGroupTextReqType => m.SendGroupTextReq?
    case SendGroupTextRspType => m.SendGroupTextRsp?
    case RecvGroupTextReqType => m.RecvGroupTextReq?
    case NotifyGroupMsgReqType => m.NotifyGroupMsgReq?
    case FileSendDataBeginReqType => m.FileSendDataBeginReq?
    case FileSendDataBeginRspType => m.FileSendDataBeginRsp?
    case FileSendDataReqType => m.FileDataSendReq?
    case FileSendDataRspType => m.FileDataSendRsp?
    case FileRecvDataReqType => m.FileDataRecvReq?
    case FileVerifyReqType => m.FileVerifyReq?
    case FileVerifyRspType => m.FileVerifyRsp?
    case FileDownLoadRspType => m.FileDownLoadRsp?
    case FriendNotifyFileMsgReqType => m.FriendNotifyFileMsgReq?
    case FriendRecvFileMsgReqType => m.FriendRecvFileMsgReq?
    case FriendSendFileMsgReqType => m.FriendSendFileMsgReq?
    case UdpP2PStartReqType => m.UdpP2pStartReq?
    case UdpP2PStartRspType => m.UdpP2pStartRsp?
    case QueryUserUdpAddrRspType => m.QueryUserUdpAddrRsp?
    case FriendUnReadMsgNotifyReqType => m.FriendUnReadNotifyReq?
    case GetFriendListRspType => m.GetFriendListRsp?
    case GetFriendChatHistoryReqType => m.GetFriendChatHistoryReq?
    case GetGroupChatHistoryReqType => m.GetGroupChatHistoryReq?
    case UserRegisterRspType => m.UserRegisterRsp?
    case OtherType(_) => false
  }

  /** A frame as it travels: type tag and serialized body (TransBaseMsg_t). */
  datatype Packet = Packet(kind: MsgType, text: string)

  /** The kind of one element of a chat message (CHAT_MSG_TYPE). */
  datatype ElemKind = TextElem | ImageElem | FileElem | OtherElem(code: int)

  /**
   * One element of a chat message's content (ChatMsgElem). The relay reads
   * the kind and the image (or file) name; `body` stands for the remaining
   * fields (text, face id, ...), which an element built afresh leaves empty.
   */
  datatype ChatElem = ChatElem(kind: ElemKind, imageName: string, body: string)

  /** The chat record of a one-to-one message (ChatMsg). */
  datatype FriendChat = FriendChat(senderId: UserId, receiverId: UserId, chatMsgId: string, content: seq<ChatElem>)

  /** The chat record of a group message (GroupChatMsg). */
  datatype GroupChat = GroupChat(senderId: UserId, groupId: string, chatMsgId: string, content: seq<ChatElem>)

  /**
   * The messages the relay parses or builds. Field names follow the
   * source's members without their Hungarian prefixes.
   */
  datatype Msg =
    | KeepAliveReq(clientId: UserId)
    | KeepAliveRsp(clientId: UserId)
    | UserLoginReq(msgId: string, userName: string, password: string, osType: int)
    | UserLoginRsp(msgId: string, errCode: ErrorCode, userId: UserId, userName: string)
    | UserLogoutReq(msgId: string, userName: string, password: string, osType: int)
    | UserLogoutRsp(msgId: string, errCode: ErrorCode, userName: string)
    | FriendChatSendTxtReq(msgId: string, senderId: UserId, receiverId: UserId, content: seq<ChatElem>)
    | FriendChatSendTxtRsp(msgId: string, chat: FriendChat)
    | FriendChatRecvTxtReq(msgId: string, chat: FriendChat)
    | FriendChatRecvTxtRsp(msgId: string, userId: UserId, friendId: UserId, chatMsgId: string)
    | SendGroupTextReq(msgId: string, group: GroupChat)
    | SendGroupTextRsp(msgId: string, group: GroupChat)
    | RecvGroupTextReq(msgId: string, userId: UserId, group: GroupChat)
    | RecvGroupTextRsp(msgId: string, userId: UserId, groupId: string, chatMsgId: string)
    | NotifyGroupMsgReq(msgId: string, userId: UserId, groupId: string)
    | NotifyGroupMsgRsp(msgId: string, userId: UserId, groupId: string)
    | FileSendDataBeginReq(msgId: string, fileId: int, userId: UserId, friendId: UserId,
                           fileName: string, fileHash: string, fileType: FileType)
    | FileSendDataBeginRsp(msgId: string, errCode: ErrorCode, fileId: int, userId: UserId, friendId: UserId,
                           fileName: string, fileType: FileType)
    | FileDataSendReq(msgId: string, fileId: int, userId: UserId, friendId: UserId,
                      total: int, index: int, data: seq<byte>)
    | FileDataSendRsp(msgId: string, fileId: int, userId: UserId, friendId: UserId, total: int, index: int)
    | FileDataRecvReq(msgId: string, fileId: int, userId: UserId, friendId: UserId,
                      total: int, index: int, data: seq<byte>)
    | FileDataRecvRsp(msgId: string, fileId: int, userId: UserId, friendId: UserId, total: int, index: int)
    | FileVerifyReq(msgId: string, fileId: int, userId: UserId, friendId: UserId,
                    fileName: string, fileSize: nat, fileHash: string)
    | FileVerifyRsp(msgId: string, errCode: ErrorCode, fileId: int, userId: UserId, friendId: UserId,
                    fileName: string, fileHash: string)
    | FileTransProgressNotify(msgId: string, userId: UserId, otherId: UserId, fileName: string,
                              direction: Direction, percent: Option<int>)
    | FriendTransFileResultNotify(msgId: string, userId: UserId, friendId: UserId, fileName: string,
                                  direction: Direction, result: TransResult)
    | FriendNotifyFileMsgReq(msgId: string, fileId: int, userId: UserId, friendId: UserId,
                             fileName: string, mode: TransMode, agree: bool)
    | FriendRecvFileMsgReq(msgId: string, userId: UserId, friendId: UserId, fileName: string, mode: TransMode)
    | FriendSendFileMsgReq(msgId: string, userId: UserId, friendId: UserId, fileName: string)
    | FileDownLoadReq(msgId: string, userId: UserId, friendId: UserId, relateMsgId: string,
                      fileName: string, fileType: FileType)
    | FileDownLoadRsp(msgId: string, errCode: ErrorCode, relateMsgId: string, fileName: string, fileHash: string)
    | UdpP2pStartReq(msgId: string, userId: UserId, friendId: UserId)
    | UdpP2pStartRsp(msgId: string, userId: UserId, friendId: UserId)
    | QueryUserUdpAddrReq(msgId: string, userId: UserId, udpUserId: UserId)
    | QueryUserUdpAddrRsp(msgId: string, errCode: ErrorCode, userId: UserId, udpUserId: UserId, endpoint: Endpoint)
    | FriendUnReadNotifyReq(msgId: string, userId: UserId)
    | FriendUnReadNotifyRsp(msgId: string, userId: UserId)
    | GetFriendListReq(msgId: string, userId: UserId)
    | GetFriendListRsp(msgId: string, userId: UserId, teams: seq<seq<UserId>>)
    | GetFriendChatHistoryReq(msgId: string, userId: UserId, friendId: UserId)
    | GetFriendChatHistoryRsp(msgId: string, userId: UserId, friendId: UserId, chatMsgId: string, history: seq<string>)
    | GetGroupChatHistoryReq(msgId: string, userId: UserId, groupId: string)
    | GetGroupChatHistoryRsp(msgId: string, userId: UserId, groupId: string, chatMsgId: string, history: seq<string>)
    | UserRegisterRsp(msgId: string)

  /**
   * What goes onto a connection: a message the relay built (or holds), or a
   * packet it passes on without parsing it.
   */
  datatype Wire = Built(msg: Msg) | Verbatim(packet: Packet)

  /**
   * Everything a handler does besides updating the server's own tables, in
   * the order it does it.
   */
  datatype Effect =
    | ToBackend(client: ClientSess, wire: Wire)             // CClientSess::SendMsg
    | ToGui(gui: ServerSess, wire: Wire)                    // CServerSess::SendMsg
    | UdpSend(udp: UdpSess, peer: Endpoint, msg: Msg)       // CUdpClient::send_msg to a peer
    | UdpToServer(udp: UdpSess, msg: Msg)                   // CUdpClient::sendToServer
    | StartConnect(client: ClientSess)
    | StopConnect(client: ClientSess)
    | SendKeepAlive(client: ClientSess)
    | StopGui(gui: ServerSess)
    | StartUdp(udp: UdpSess)
    | CreateFolder(path: string)
    | WriteData(fileId: int, data: seq<byte>)               // CFileUtil::OnWriteData
    | RemoveFile(path: string)
    | CopyFile(from: string, to: string)                    // CFileUtil::UtilCopy
    | HttpRsp(client: ClientSess, packet: Packet)           // OnHttpRsp: handed to the HTTP server
    | NullDeref(line: nat)                                  // a null session dereferenced at this source line
    | StopServer                                            // CMediumServer::stop
    | StopReactor                                           // io_service::stop from SetTimer

  /** The held messages of each pending table, by kind. */
  type FriendSendReq = m: Msg | m.FriendChatSendTxtReq? witness FriendChatSendTxtReq("", "", "", [])
  type GroupSendReq = m: Msg | m.SendGroupTextReq? witness SendGroupTextReq("", GroupChat("", "", "", []))
  type FriendRecvReq = m: Msg | m.FriendChatRecvTxtReq? witness FriendChatRecvTxtReq("", FriendChat("", "", "", []))
  type GroupRecvReq = m: Msg | m.RecvGroupTextReq? witness RecvGroupTextReq("", "", GroupChat("", "", "", []))
  type LoginReq = m: Msg | m.UserLoginReq? witness UserLoginReq("", "", "", 0)

  /**
   * The file type a begin request carries when the relay does not set it
   * (the message classes' defaults are not part of this model).
   */
  const UNSET_FILE_TYPE: FileType := OtherFileType(0)

  /**
   * A FileDataSendReqMsg as its default constructor leaves it; what the
   * relay sends when reading the next chunk fails. Defaults of the message
   * classes are taken to be empty strings and zeros.
   */
  function BlankDataSendReq(): Msg
  {
    FileDataSendReq("", 0, "", "", 0, 0, [])
  }
}
