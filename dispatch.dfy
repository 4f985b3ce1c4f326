/**
 * How the relay's three dispatchers route a packet: HandleSendBack for
 * what the backend sends (3131-3325), HandleSendForward for what a GUI
 * sends (2077-2166) and DispatchUdpMsg for what arrives over UDP
 * (345-400). Each switches on the packet's type tag; a tag with a message
 * class is acted on only when the text parses as that class (FromString),
 * the two network reports are acted on without parsing, and a tag without
 * a case falls to the dispatcher's default.
 */
module Dispatch {
  import opened Common
  import opened Messages

  /** Where a dispatcher sends a packet. */
  datatype Route =
    | Call(msg: Msg)   // the case's handler, with the parsed message
    | Event            // a network report, handled without parsing
    | Ignored          // the case exists but the text did not parse
    | Unhandled        // no case: the dispatcher's default branch

  /** The tags HandleSendBack has a case for (3131-3325). */
  predicate BackKind(k: MsgType)
  {
    k in {FriendChatRecvTxtReqType, FriendChatSendTxtRspType, SendGroupTextRspType, RecvGroupTextReqType,
          FileSendDataBeginReqType, FileSendDataBeginRspType, FileVerifyReqType, UserLoginRspType,
          UserLogoutRspType, NetFailedReportType, FileDownLoadRspType, FriendRecvFileMsgReqType,
          NetRecoverReportType, KeepAliveRspType, KeepAliveReqType, QueryUserUdpAddrRspType,
          FriendUnReadMsgNotifyReqType, FileSendDataRspType, FileRecvDataReqType, FileVerifyRspType,
          GetFriendListRspType, FriendNotifyFileMsgReqType, UserRegisterRspType, NotifyGroupMsgReqType}
  }

  /** The tags HandleSendForward has a case for (2077-2145). */
  predicate ForwardKind(k: MsgType)
  {
    k in {GetFriendChatHistoryReqType, GetGroupChatHistoryReqType, FileSendDataBeginReqType,
          FriendChatSendTxtReqType, UserLoginReqType, NetFailedReportType, SendGroupTextReqType,
          FriendSendFileMsgReqType}
  }

  /** The tags DispatchUdpMsg has a case for (345-400). */
  predicate UdpKind(k: MsgType)
  {
    k in {KeepAliveRspType, FileSendDataReqType, FileSendDataRspType, FileRecvDataReqType,
          UdpP2PStartReqType, UdpP2PStartRspType}
  }

  /** A case that parses its packet: the handler runs only on a message of the tag's class. */
  function Parsed(k: MsgType, parsed: Option<Msg>): (r: Route)
    ensures r.Call? || r.Ignored?
    ensures r.Call? <==> parsed.Some? && OfKind(parsed.value, k)
    ensures r.Call? ==> r.msg == parsed.value
  {
    if parsed.Some? && OfKind(parsed.value, k) then Call(parsed.value) else Ignored
  }

  /**
   * The route of a packet from the backend, given what its text parses to.
   * The network failure and recovery reports are the events.
   */
  function RouteBack(p: Packet, parsed: Option<Msg>): (r: Route)
    ensures r.Unhandled? <==> !BackKind(p.kind)
    ensures r.Event? <==> p.kind == NetFailedReportType || p.kind == NetRecoverReportType
    ensures r.Call? ==> parsed == Some(r.msg) && OfKind(r.msg, p.kind)
    ensures BackKind(p.kind) && parsed.Some? && OfKind(parsed.value, p.kind) ==> r.Call?
  {
    if p.kind == NetFailedReportType || p.kind == NetRecoverReportType then Event
    else if BackKind(p.kind) then Parsed(p.kind, parsed)
    else Unhandled
  }

  /** The route of a packet from a GUI; its only event is the network failure report. */
  function RouteForward(p: Packet, parsed: Option<Msg>): (r: Route)
    ensures r.Unhandled? <==> !ForwardKind(p.kind)
    ensures r.Event? <==> p.kind == NetFailedReportType
    ensures r.Call? ==> parsed == Some(r.msg) && OfKind(r.msg, p.kind)
    ensures ForwardKind(p.kind) && parsed.Some? && OfKind(parsed.value, p.kind) ==> r.Call?
  {
    if p.kind == NetFailedReportType then Event
    else if ForwardKind(p.kind) then Parsed(p.kind, parsed)
    else Unhandled
  }

  /** The route of a datagram; every UDP case parses its packet. */
  function RouteUdp(p: Packet, parsed: Option<Msg>): (r: Route)
    ensures !r.Event?
    ensures r.Unhandled? <==> !UdpKind(p.kind)
    ensures r.Call? ==> parsed == Some(r.msg) && OfKind(r.msg, p.kind)
    ensures UdpKind(p.kind) && parsed.Some? && OfKind(parsed.value, p.kind) ==> r.Call?
  {
    if UdpKind(p.kind) then Parsed(p.kind, parsed) else Unhandled
  }
}
