/**
 * The chat messages the relay holds while their images travel, and how
 * they are released. An outgoing message with images waits, under the hash
 * of its last image, until the server confirms the upload; an incoming one
 * waits, under its chat message id, until its images have been downloaded
 * (or their download fails).
 */
module HeldMessages {
  import opened Common
  import opened Messages
  import opened ChatContent

  /**
   * The held messages, and what the relay remembers about the transfers
   * themselves.
   */
  datatype Held = Held(
    sendWait: map<string, FriendSendReq>,        // m_SendWaitMsgMap, by image hash
    groupSendWait: map<string, GroupSendReq>,    // m_groupSendWaitMsgMap, by image hash
    waitImage: map<string, FriendRecvReq>,       // m_waitImageMsgMap, by chat message id
    groupWaitImage: map<string, GroupRecvReq>,   // m_groupWaitImageMsgMap, by message id
    hashToMsgId: map<string, string>,            // m_fileHashMsgIdMap: image hash to related message id
    hashType: map<string, FileType>,             // m_hashTypeMap
    transHashes: seq<string>)                    // m_fileHashTransVec: uploads in progress

  function NoneHeld(): Held
  {
    Held(map[], map[], map[], map[], map[], map[], [])
  }

  /** What a release does: the tables after it and the messages it sends, in order. */
  datatype Outcome = Outcome(held: Held, effects: seq<Effect>)

  // ------------------------------------------------------------------
  // Outgoing messages, held by image hash

  /**
   * A friend message with images is held under `hash` (1951-1956). The
   * table's insert keeps an earlier message held under the same hash.
   */
  function HoldFriend(h: Held, hash: string, m: FriendSendReq): (h': Held)
    ensures hash in h'.sendWait && h'.sendWait[hash] == (if hash in h.sendWait then h.sendWait[hash] else m)
    ensures h'.sendWait.Keys == h.sendWait.Keys + {hash}
    ensures forall k :: k in h.sendWait ==> h'.sendWait[k] == h.sendWait[k]
    ensures h' == h.(sendWait := h'.sendWait)
  {
    h.(sendWait := InsertIfAbsent(h.sendWait, hash, m))
  }

  /** A group message with images is held under `hash` (2025-2030), likewise first writer wins. */
  function HoldGroup(h: Held, hash: string, m: GroupSendReq): (h': Held)
    ensures hash in h'.groupSendWait &&
            h'.groupSendWait[hash] == (if hash in h.groupSendWait then h.groupSendWait[hash] else m)
    ensures h'.groupSendWait.Keys == h.groupSendWait.Keys + {hash}
    ensures forall k :: k in h.groupSendWait ==> h'.groupSendWait[k] == h.groupSendWait[k]
    ensures h' == h.(groupSendWait := h'.groupSendWait)
  {
    h.(groupSendWait := InsertIfAbsent(h.groupSendWait, hash, m))
  }

  /**
   * The server confirmed the upload of the file with hash `hash`
   * (HSB_FileVerifyRsp 1188-1204, SendWaitMsgByHash 2780-2808): the friend
   * message held under it and then the group message are sent on `c`, and
   * both are dropped.
   */
  function ReleaseSent(h: Held, c: ClientSess, hash: string): (o: Outcome)
    ensures hash !in o.held.sendWait && hash !in o.held.groupSendWait
    ensures o.held.sendWait.Keys == h.sendWait.Keys - {hash}
    ensures o.held.groupSendWait.Keys == h.groupSendWait.Keys - {hash}
    ensures forall k :: k in o.held.sendWait ==> o.held.sendWait[k] == h.sendWait[k]
    ensures forall k :: k in o.held.groupSendWait ==> o.held.groupSendWait[k] == h.groupSendWait[k]
    ensures o.held.waitImage == h.waitImage && o.held.groupWaitImage == h.groupWaitImage
    ensures o.held.hashToMsgId == h.hashToMsgId && o.held.hashType == h.hashType &&
            o.held.transHashes == h.transHashes
    ensures |o.effects| == (if hash in h.sendWait then 1 else 0) + (if hash in h.groupSendWait then 1 else 0)
    ensures hash in h.sendWait ==> o.effects[0] == ToBackend(c, Built(h.sendWait[hash]))
    ensures hash in h.groupSendWait ==> o.effects[|o.effects| - 1] == ToBackend(c, Built(h.groupSendWait[hash]))
  {
    var friend := if hash in h.sendWait then [ToBackend(c, Built(h.sendWait[hash]))] else [];
    var group := if hash in h.groupSendWait then [ToBackend(c, Built(h.groupSendWait[hash]))] else [];
    Outcome(h.(sendWait := h.sendWait - {hash}, groupSendWait := h.groupSendWait - {hash}), friend + group)
  }

  /** A held message is sent at most once: a second confirmation of the same hash sends nothing. */
  lemma ReleaseSentOnce(h: Held, c: ClientSess, c': ClientSess, hash: string)
    ensures ReleaseSent(ReleaseSent(h, c, hash).held, c', hash).effects == []
  {
  }

  /**
   * A message held under a fresh hash is exactly what the confirmation of
   * that hash sends, on the confirming session.
   */
  lemma HeldFriendIsSent(h: Held, hash: string, m: FriendSendReq, c: ClientSess)
    requires hash !in h.sendWait && hash !in h.groupSendWait
    ensures ReleaseSent(HoldFriend(h, hash, m), c, hash).effects == [ToBackend(c, Built(m))]
  {
  }

  lemma HeldGroupIsSent(h: Held, hash: string, m: GroupSendReq, c: ClientSess)
    requires hash !in h.sendWait && hash !in h.groupSendWait
    ensures ReleaseSent(HoldGroup(h, hash, m), c, hash).effects == [ToBackend(c, Built(m))]
  {
  }

  // ------------------------------------------------------------------
  // Incoming messages, held by message id until their images arrive

  /** A received friend message with images waits under its chat message id (2282-2285); first writer wins. */
  function WaitFriend(h: Held, m: FriendRecvReq): (h': Held)
    ensures m.chat.chatMsgId in h'.waitImage
    ensures h'.waitImage == InsertIfAbsent(h.waitImage, m.chat.chatMsgId, m)
    ensures h' == h.(waitImage := h'.waitImage)
  {
    h.(waitImage := InsertIfAbsent(h.waitImage, m.chat.chatMsgId, m))
  }

  /** A received group message with images waits under its message id (2494-2497); first writer wins. */
  function WaitGroup(h: Held, m: GroupRecvReq): (h': Held)
    ensures m.msgId in h'.groupWaitImage
    ensures h'.groupWaitImage == InsertIfAbsent(h.groupWaitImage, m.msgId, m)
    ensures h' == h.(groupWaitImage := h'.groupWaitImage)
  {
    h.(groupWaitImage := InsertIfAbsent(h.groupWaitImage, m.msgId, m))
  }

  /**
   * The message id an image hash is related to (2615-2628). With an empty
   * table every hash falls through to the empty id; with a non-empty one an
   * unknown hash ends the search (None).
   */
  function RelatedMsgId(hashToMsgId: map<string, string>, hash: string): (r: Option<string>)
    ensures hashToMsgId == map[] ==> r == Some("")
    ensures hash in hashToMsgId ==> r == Some(hashToMsgId[hash])
    ensures r.None? <==> hashToMsgId != map[] && hash !in hashToMsgId
  {
    if hashToMsgId == map[] then Some("")
    else if hash in hashToMsgId then Some(hashToMsgId[hash])
    else None
  }

  /** The acknowledgement of a received friend message (2314-2319, 2643-2650, 2754-2759). */
  function FriendRecvAck(m: FriendRecvReq): (a: Msg)
  {
    FriendChatRecvTxtRsp(m.msgId, m.chat.receiverId, m.chat.senderId, m.chat.chatMsgId)
  }

  /** The acknowledgement of a received group message (2542-2547, 2715-2721, 2767-2772). */
  function GroupRecvAck(m: GroupRecvReq): (a: Msg)
  {
    RecvGroupTextRsp(m.msgId, m.userId, m.group.groupId, m.group.chatMsgId)
  }

  /** A held friend message as shown once its image is on disk as `name`: every image names that file. */
  function ShownFriend(m: FriendRecvReq, name: string): (s: FriendRecvReq)
    ensures s.msgId == m.msgId && s.chat.chatMsgId == m.chat.chatMsgId
  {
    FriendChatRecvTxtReq(m.msgId, m.chat.(content := RenameImages(m.chat.content, name)))
  }

  function ShownGroup(m: GroupRecvReq, name: string): (s: GroupRecvReq)
    ensures s.msgId == m.msgId && s.group.chatMsgId == m.group.chatMsgId
  {
    RecvGroupTextReq(m.msgId, m.userId, m.group.(content := RenameImages(m.group.content, name)))
  }

  /** The line where a release dereferences a missing backend session. */
  const USER_RELEASE_DEREF: nat := 2652
  const GROUP_RELEASE_DEREF: nat := 2710

  /**
   * HandleUserRecvImageByHash (2613-2669): the image with hash `hash` is on
   * disk as `name`. The friend message related to the hash is shown, with
   * every image naming that file, on the GUI session of the backend
   * session's user; the backend session acknowledges it; it is dropped.
   * `client` is the backend session (None when the caller found none: the
   * source then dereferences a null session, recorded as NullDeref), `user`
   * its user, `gui` the user-to-GUI table.
   */
  function ReleaseFriendImage(h: Held, client: Option<ClientSess>, user: UserId, gui: map<UserId, ServerSess>,
                              name: string, hash: string): (o: Outcome)
    ensures RelatedMsgId(h.hashToMsgId, hash).None? || RelatedMsgId(h.hashToMsgId, hash).value !in h.waitImage ==>
              o == Outcome(h, [])
    ensures client.None? ==> o.held == h
  {
    match RelatedMsgId(h.hashToMsgId, hash)
    case None => Outcome(h, [])
    case Some(rel) =>
      if rel !in h.waitImage then Outcome(h, [])
      else if client.None? then Outcome(h, [NullDeref(USER_RELEASE_DEREF)])
      else
        var m := h.waitImage[rel];
        var shown := if user in gui then [ToGui(gui[user], Built(ShownFriend(m, name)))] else [];
        Outcome(h.(waitImage := h.waitImage - {rel}), shown + [ToBackend(client.value, Built(FriendRecvAck(m)))])
  }

  /** HandleGroupRecvImageByHash (2671-2728): the same for the group message related to the hash. */
  function ReleaseGroupImage(h: Held, client: Option<ClientSess>, user: UserId, gui: map<UserId, ServerSess>,
                             name: string, hash: string): (o: Outcome)
    ensures RelatedMsgId(h.hashToMsgId, hash).None? || RelatedMsgId(h.hashToMsgId, hash).value !in h.groupWaitImage ==>
              o == Outcome(h, [])
    ensures client.None? ==> o.held == h
  {
    match RelatedMsgId(h.hashToMsgId, hash)
    case None => Outcome(h, [])
    case Some(rel) =>
      if rel !in h.groupWaitImage then Outcome(h, [])
      else if client.None? then Outcome(h, [NullDeref(GROUP_RELEASE_DEREF)])
      else
        var m := h.groupWaitImage[rel];
        var shown := if user in gui then [ToGui(gui[user], Built(ShownGroup(m, name)))] else [];
        Outcome(h.(groupWaitImage := h.groupWaitImage - {rel}), shown + [ToBackend(client.value, Built(GroupRecvAck(m)))])
  }

  /** Both releases, friend message first, as every caller makes them (1113-1114, 2604-2605, 2744-2745). */
  function ReleaseImage(h: Held, client: Option<ClientSess>, user: UserId, gui: map<UserId, ServerSess>,
                        name: string, hash: string): (o: Outcome)
    ensures o.held.sendWait == h.sendWait && o.held.groupSendWait == h.groupSendWait
    ensures o.held.hashToMsgId == h.hashToMsgId && o.held.hashType == h.hashType && o.held.transHashes == h.transHashes
  {
    var f := ReleaseFriendImage(h, client, user, gui, name, hash);
    var g := ReleaseGroupImage(f.held, client, user, gui, name, hash);
    Outcome(g.held, f.effects + g.effects)
  }

  /**
   * A friend message waiting for an image whose download was recorded under
   * its id is released on the image's arrival: the user's GUI is shown the
   * message with its images renamed, the backend session acknowledges it,
   * and it no longer waits.
   */
  lemma ArrivalReleasesFriend(h: Held, c: ClientSess, user: UserId, gui: map<UserId, ServerSess>,
                              name: string, hash: string)
    requires hash in h.hashToMsgId && h.hashToMsgId[hash] in h.waitImage
    ensures var m := h.waitImage[h.hashToMsgId[hash]];
            var o := ReleaseFriendImage(h, Some(c), user, gui, name, hash);
            h.hashToMsgId[hash] !in o.held.waitImage &&
            o.effects[|o.effects| - 1] == ToBackend(c, Built(FriendRecvAck(m))) &&
            (user in gui ==> o.effects[0] == ToGui(gui[user], Built(ShownFriend(m, name))))
  {
  }

  /** A second arrival of the same image releases nothing more. */
  lemma {:induction false} ArrivalReleasesOnce(h: Held, c: ClientSess, user: UserId, gui: map<UserId, ServerSess>,
                                               name: string, hash: string)
    ensures var o := ReleaseFriendImage(h, Some(c), user, gui, name, hash);
            ReleaseFriendImage(o.held, Some(c), user, gui, name, hash).effects == []
  {
    var o := ReleaseFriendImage(h, Some(c), user, gui, name, hash);
    assert o.held.hashToMsgId == h.hashToMsgId;
    match RelatedMsgId(h.hashToMsgId, hash)
    case None =>
    case Some(rel) =>
      assert rel !in o.held.waitImage;
  }

  /**
   * With no download recorded at all, every hash is related to the empty
   * id: an arrival releases the friend message waiting under "" (if any),
   * whatever the hash.
   */
  lemma EmptyTableFallsThrough(h: Held, c: ClientSess, user: UserId, gui: map<UserId, ServerSess>,
                               name: string, hash: string)
    requires h.hashToMsgId == map[] && "" in h.waitImage
    ensures ReleaseFriendImage(h, Some(c), user, gui, name, hash).held.waitImage == h.waitImage - {""}
  {
  }

  /** The message shown on arrival keeps every element but the images, which all name the arrived file. */
  lemma {:induction false} ShownFriendElements(m: FriendRecvReq, name: string, i: nat)
    requires i < |m.chat.content|
    ensures |ShownFriend(m, name).chat.content| == |m.chat.content|
    ensures ShownFriend(m, name).chat.content[i] ==
            (if IsImage(m.chat.content[i]) then FreshImage(name) else m.chat.content[i])
  {
    MapImagesAt(m.chat.content, _ => name, i);
  }

  /**
   * A group message waiting for an image whose download was recorded under
   * its id is released on the image's arrival: the user's GUI is shown the
   * message with its images renamed, the backend session acknowledges it,
   * and it no longer waits.
   */
  lemma ArrivalReleasesGroup(h: Held, c: ClientSess, user: UserId, gui: map<UserId, ServerSess>,
                             name: string, hash: string)
    requires hash in h.hashToMsgId && h.hashToMsgId[hash] in h.groupWaitImage
    ensures var m := h.groupWaitImage[h.hashToMsgId[hash]];
            var o := ReleaseGroupImage(h, Some(c), user, gui, name, hash);
            h.hashToMsgId[hash] !in o.held.groupWaitImage &&
            o.held == h.(groupWaitImage := h.groupWaitImage - {h.hashToMsgId[hash]}) &&
            o.effects[|o.effects| - 1] == ToBackend(c, Built(GroupRecvAck(m))) &&
            (user in gui ==> o.effects == [ToGui(gui[user], Built(ShownGroup(m, name))), ToBackend(c, Built(GroupRecvAck(m)))]) &&
            (user !in gui ==> o.effects == [ToBackend(c, Built(GroupRecvAck(m)))])
  {
  }

  /** A second arrival of the same image releases no further group message. */
  lemma {:induction false} ArrivalReleasesGroupOnce(h: Held, c: ClientSess, user: UserId, gui: map<UserId, ServerSess>,
                                                    name: string, hash: string)
    ensures var o := ReleaseGroupImage(h, Some(c), user, gui, name, hash);
            ReleaseGroupImage(o.held, Some(c), user, gui, name, hash).effects == []
  {
    var o := ReleaseGroupImage(h, Some(c), user, gui, name, hash);
    assert o.held.hashToMsgId == h.hashToMsgId;
    match RelatedMsgId(h.hashToMsgId, hash)
    case None =>
    case Some(rel) =>
      assert rel !in o.held.groupWaitImage;
  }

  /** The group message shown on arrival keeps every element but the images, which all name the arrived file. */
  lemma {:induction false} ShownGroupElements(m: GroupRecvReq, name: string, i: nat)
    requires i < |m.group.content|
    ensures ShownGroup(m, name).msgId == m.msgId && ShownGroup(m, name).userId == m.userId
    ensures ShownGroup(m, name).group.groupId == m.group.groupId
    ensures |ShownGroup(m, name).group.content| == |m.group.content|
    ensures ShownGroup(m, name).group.content[i] ==
            (if IsImage(m.group.content[i]) then FreshImage(name) else m.group.content[i])
  {
    MapImagesAt(m.group.content, _ => name, i);
  }

  // ------------------------------------------------------------------
  // A failed download (HSB_FileDownLoadRsp, 2749-2777)

  /**
   * The failure branch as written: the friend message related to `relate`
   * is acknowledged and dropped; the group message is acknowledged, but the
   * erase at 2774 is made on the friend table, so the group message stays.
   */
  function DownloadFailedAsWritten(h: Held, c: ClientSess, relate: string): (o: Outcome)
    ensures relate !in o.held.waitImage
    ensures o.held.groupWaitImage == h.groupWaitImage
    ensures |o.effects| == (if relate in h.waitImage then 1 else 0) + (if relate in h.groupWaitImage then 1 else 0)
    ensures relate in h.waitImage ==> o.effects[0] == ToBackend(c, Built(FriendRecvAck(h.waitImage[relate])))
    ensures relate in h.groupWaitImage ==>
              o.effects[|o.effects| - 1] == ToBackend(c, Built(GroupRecvAck(h.groupWaitImage[relate])))
    ensures o.held == h.(waitImage := h.waitImage - {relate})
  {
    var friend := if relate in h.waitImage then [ToBackend(c, Built(FriendRecvAck(h.waitImage[relate])))] else [];
    var group := if relate in h.groupWaitImage then [ToBackend(c, Built(GroupRecvAck(h.groupWaitImage[relate])))] else [];
    Outcome(h.(waitImage := h.waitImage - {relate}), friend + group)
  }

  /**
   * As written, a group message whose download failed is never dropped:
   * every further failure for it acknowledges it again.
   */
  lemma DownloadFailedAsWrittenKeepsGroup(h: Held, c: ClientSess, relate: string)
    requires relate in h.groupWaitImage
    ensures var o := DownloadFailedAsWritten(h, c, relate);
            relate in o.held.groupWaitImage &&
            DownloadFailedAsWritten(o.held, c, relate).effects ==
              [ToBackend(c, Built(GroupRecvAck(h.groupWaitImage[relate])))]
  {
  }

  /** The failure branch as intended: both related messages are acknowledged and dropped. */
  function DownloadFailed(h: Held, c: ClientSess, relate: string): (o: Outcome)
    ensures relate !in o.held.waitImage && relate !in o.held.groupWaitImage
    ensures |o.effects| == (if relate in h.waitImage then 1 else 0) + (if relate in h.groupWaitImage then 1 else 0)
    ensures relate in h.waitImage ==> o.effects[0] == ToBackend(c, Built(FriendRecvAck(h.waitImage[relate])))
    ensures relate in h.groupWaitImage ==>
              o.effects[|o.effects| - 1] == ToBackend(c, Built(GroupRecvAck(h.groupWaitImage[relate])))
    ensures o.held == h.(waitImage := h.waitImage - {relate}, groupWaitImage := h.groupWaitImage - {relate})
  {
    var friend := if relate in h.waitImage then [ToBackend(c, Built(FriendRecvAck(h.waitImage[relate])))] else [];
    var group := if relate in h.groupWaitImage then [ToBackend(c, Built(GroupRecvAck(h.groupWaitImage[relate])))] else [];
    Outcome(h.(waitImage := h.waitImage - {relate}, groupWaitImage := h.groupWaitImage - {relate}), friend + group)
  }

  /** As intended, each held message is acknowledged once: a second failure sends nothing. */
  lemma DownloadFailedOnce(h: Held, c: ClientSess, relate: string)
    ensures DownloadFailed(DownloadFailed(h, c, relate).held, c, relate).effects == []
  {
  }

  // ------------------------------------------------------------------
  // Uploads in progress

  /** Removes the first occurrence of `x` (std::find then erase, 1103-1107). */
  function RemoveFirst(s: seq<string>, x: string): (r: seq<string>)
    ensures x !in s ==> r == s
    ensures x in s ==> |r| == |s| - 1 && multiset(r) == multiset(s) - multiset{x}
  {
    if s == [] then []
    else
      assert s == [s[0]] + s[1..];
      if s[0] == x then s[1..]
      else [s[0]] + RemoveFirst(s[1..], x)
  }

  /** An upload recorded at its begin (2579) and removed at its verification leaves the others as they were. */
  lemma BeginThenVerify(s: seq<string>, hash: string)
    ensures multiset(RemoveFirst(s + [hash], hash)) == multiset(s)
  {
    assert hash in s + [hash];
    assert multiset(s + [hash]) == multiset(s) + multiset{hash};
  }
}
