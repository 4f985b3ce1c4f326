/**
 * The outgoing traffic of the relay's loops, as functions of what they
 * read: the images of an outgoing chat message offered one by one, the
 * downloads requested for a received message, and the keep-alives and
 * probes of the periodic connection check. Each loop of the relay is proved
 * to produce exactly the plan given here for the order it visits.
 */
module RelayPlans {
  import opened Common
  import opened Messages
  import opened ChatContent
  import opened UserPaths
  import opened Rendezvous

  /** What GetSendFileNewName yields: the new name, the copy it requested, the ids it used. */
  datatype NewName = NewName(name: string, effects: seq<Effect>, ids: nat)

  /**
   * GetSendFileNewName (1874-1903) for a file `org`: a file already stored
   * under the same content hash is reused; otherwise the file is copied into
   * the user's image folder under a fresh message id and its extension. The
   * copy is taken to succeed exactly when `org` exists. Without a message
   * store for the user the original base name is kept. `store` is that
   * store's hash-to-file table, `id` the id generated for the copy.
   */
  function SendFileNewName(store: Option<map<string, string>>, imageDir: string, org: string,
                           d: Disk, id: string): (r: NewName)
    ensures forall i :: 0 <= i < |r.name| ==> !IsSep(r.name[i])
    ensures r.ids <= 1 && |r.effects| == r.ids
    ensures store.None? ==> r == NewName(BaseName(org), [], 0)
    ensures store.Some? && StoredFile(store.value, d, org) in d.files ==>
              r == NewName(BaseName(StoredFile(store.value, d, org)), [], 0)
    ensures r.ids == 1 ==> r.effects == [CopyFile(org, imageDir + id + Extension(org))] &&
                           r.name == (if org in d.files then BaseName(imageDir + id + Extension(org)) else BaseName(org))
  {
    BaseNameShape(org);
    match store
    case None => NewName(BaseName(org), [], 0)
    case Some(s) =>
      var known := StoredFile(s, d, org);
      if known in d.files then BaseNameShape(known); NewName(BaseName(known), [], 0)
      else
        var target := imageDir + id + Extension(org);
        BaseNameShape(target);
        NewName(if org in d.files then BaseName(target) else BaseName(org), [CopyFile(org, target)], 1)
  }

  /** Get_FileByHash of the content hash of `org`: the file stored under that hash, or "". */
  function StoredFile(s: map<string, string>, d: Disk, org: string): string
  {
    if CalcHash(d, org) in s then s[CalcHash(d, org)] else ""
  }

  /** The offer of one image: its new name, its hash, the traffic it causes, the ids it used. */
  datatype Offer = Offer(name: string, hash: string, effects: seq<Effect>, ids: nat)

  /**
   * One image element of an outgoing message (1919-1946): a begin request
   * with the next message id and the next random file id announces the file
   * under its new name to the sender's backend session (when there is one).
   */
  function OfferImage(sender: UserId, friend: UserId, image: string, fileId: int,
                      store: Option<map<string, string>>, imageDir: string, backend: Option<ClientSess>,
                      d: Disk, genId: nat -> string, k: nat): (o: Offer)
    ensures o.hash == CalcHash(d, image)
    ensures o.ids == 1 + |SendFileNewName(store, imageDir, image, d, genId(k + 1)).effects|
    ensures o.name == SendFileNewName(store, imageDir, image, d, genId(k + 1)).name
  {
    var nn := SendFileNewName(store, imageDir, image, d, genId(k + 1));
    var begin := FileSendDataBeginReq(genId(k), fileId, sender, friend, nn.name, CalcHash(d, image), UNSET_FILE_TYPE);
    Offer(nn.name, CalcHash(d, image),
          nn.effects + (if backend.Some? then [ToBackend(backend.value, Built(begin))] else []),
          1 + nn.ids)
  }

  /**
   * The offers of all images of a message, in order: the new names, the
   * last hash, the traffic, and the counter of generated ids after them.
   */
  datatype Plan = Plan(names: seq<string>, hash: string, effects: seq<Effect>, next: nat)

  /** The plan `p` extended by element `e`: an image is offered after the others, anything else adds nothing. */
  function OfferNext(p: Plan, e: ChatElem, sender: UserId, friend: UserId, fileIds: nat -> int,
                     store: Option<map<string, string>>, imageDir: string, backend: Option<ClientSess>,
                     d: Disk, genId: nat -> string): (p': Plan)
    ensures !IsImage(e) ==> p' == p
    ensures IsImage(e) ==> |p'.names| == |p.names| + 1 && p'.hash == CalcHash(d, e.imageName)
  {
    if IsImage(e) then
      var o := OfferImage(sender, friend, e.imageName, fileIds(|p.names|), store, imageDir, backend, d, genId, p.next);
      Plan(p.names + [o.name], o.hash, p.effects + o.effects, p.next + o.ids)
    else p
  }

  /**
   * The images of `es`, offered in order; the k-th image gets file id
   * fileIds(k) and the offers draw message ids from genId starting at `k`.
   */
  function OfferPlan(es: seq<ChatElem>, sender: UserId, friend: UserId, fileIds: nat -> int,
                     store: Option<map<string, string>>, imageDir: string, backend: Option<ClientSess>,
                     d: Disk, genId: nat -> string, k: nat): (p: Plan)
    decreases |es|
  {
    if es == [] then Plan([], "", [], k)
    else OfferNext(OfferPlan(es[..|es| - 1], sender, friend, fileIds, store, imageDir, backend, d, genId, k),
                   es[|es| - 1], sender, friend, fileIds, store, imageDir, backend, d, genId)
  }

  /** One new name per image, and one or two message ids per image. */
  lemma {:induction false} OfferPlanCounts(es: seq<ChatElem>, sender: UserId, friend: UserId, fileIds: nat -> int,
                                           store: Option<map<string, string>>, imageDir: string,
                                           backend: Option<ClientSess>, d: Disk, genId: nat -> string, k: nat)
    ensures |OfferPlan(es, sender, friend, fileIds, store, imageDir, backend, d, genId, k).names| == ImageCount(es)
    ensures k + ImageCount(es) <= OfferPlan(es, sender, friend, fileIds, store, imageDir, backend, d, genId, k).next
                               <= k + 2 * ImageCount(es)
    decreases |es|
  {
    if es != [] {
      OfferPlanCounts(es[..|es| - 1], sender, friend, fileIds, store, imageDir, backend, d, genId, k);
      assert es[..|es| - 1 + 1] == es;
      ImageCountSnoc(es, |es| - 1);
    }
  }

  /** OfferPlan of a prefix one element longer: the plan of the prefix, extended by the next element. */
  lemma OfferPlanSnoc(es: seq<ChatElem>, i: nat, sender: UserId, friend: UserId, fileIds: nat -> int,
                      store: Option<map<string, string>>, imageDir: string, backend: Option<ClientSess>,
                      d: Disk, genId: nat -> string, k: nat)
    requires i < |es|
    ensures OfferPlan(es[..i + 1], sender, friend, fileIds, store, imageDir, backend, d, genId, k) ==
            OfferNext(OfferPlan(es[..i], sender, friend, fileIds, store, imageDir, backend, d, genId, k), es[i],
                      sender, friend, fileIds, store, imageDir, backend, d, genId)
  {
    assert es[..i + 1][..i] == es[..i];
  }

  /** A message without images offers nothing. */
  lemma {:induction false} OfferPlanNoImages(es: seq<ChatElem>, sender: UserId, friend: UserId, fileIds: nat -> int,
                                             store: Option<map<string, string>>, imageDir: string,
                                             backend: Option<ClientSess>, d: Disk, genId: nat -> string, k: nat)
    requires !HasImage(es)
    ensures OfferPlan(es, sender, friend, fileIds, store, imageDir, backend, d, genId, k) == Plan([], "", [], k)
    decreases |es|
  {
    if es != [] {
      var init := es[..|es| - 1];
      assert !IsImage(es[|es| - 1]);
      assert !HasImage(init) by {
        forall j | 0 <= j < |init| ensures !IsImage(init[j]) {
          assert init[j] == es[j];
        }
      }
      OfferPlanNoImages(init, sender, friend, fileIds, store, imageDir, backend, d, genId, k);
    }
  }

  /** Where the image loop stands after a prefix: the rewritten elements, the plan, whether an image was seen. */
  datatype Offering = Offering(content: seq<ChatElem>, plan: Plan, haveImage: bool)

  /** The image loop's state after visiting `es`. */
  ghost function Offered(es: seq<ChatElem>, sender: UserId, friend: UserId, fileIds: nat -> int,
                         store: Option<map<string, string>>, imageDir: string, backend: Option<ClientSess>,
                         d: Disk, genId: nat -> string, k: nat): Offering
  {
    OfferPlanCounts(es, sender, friend, fileIds, store, imageDir, backend, d, genId, k);
    var p := OfferPlan(es, sender, friend, fileIds, store, imageDir, backend, d, genId, k);
    Offering(ReplaceImages(es, p.names), p, HasImage(es))
  }

  /** The loop state one element further: an image is offered and renamed, anything else is copied. */
  lemma OfferedSnoc(es: seq<ChatElem>, i: nat, sender: UserId, friend: UserId, fileIds: nat -> int,
                    store: Option<map<string, string>>, imageDir: string, backend: Option<ClientSess>,
                    d: Disk, genId: nat -> string, k: nat)
    requires i < |es|
    ensures var s := Offered(es[..i], sender, friend, fileIds, store, imageDir, backend, d, genId, k);
            var e := es[i];
            Offered(es[..i + 1], sender, friend, fileIds, store, imageDir, backend, d, genId, k) ==
              if IsImage(e) then
                var o := OfferImage(sender, friend, e.imageName, fileIds(|s.plan.names|), store, imageDir, backend,
                                    d, genId, s.plan.next);
                Offering(s.content + [FreshImage(o.name)],
                         Plan(s.plan.names + [o.name], o.hash, s.plan.effects + o.effects, s.plan.next + o.ids), true)
              else Offering(s.content + [e], s.plan, s.haveImage)
  {
    OfferPlanSnoc(es, i, sender, friend, fileIds, store, imageDir, backend, d, genId, k);
    OfferPlanCounts(es[..i], sender, friend, fileIds, store, imageDir, backend, d, genId, k);
    HasSnoc(es, i);
    var p := OfferPlan(es[..i], sender, friend, fileIds, store, imageDir, backend, d, genId, k);
    var e := es[i];
    var next := if IsImage(e) then OfferImage(sender, friend, e.imageName, fileIds(|p.names|), store, imageDir,
                                              backend, d, genId, p.next).name else "";
    ReplaceImagesSnoc(es, p.names, i, next);
  }

  /**
   * The loop of DoSF_FriendChatSendTxtReq (1916-1948) and of
   * HSF_SendGroupTextMsgReqMsg (1989-2021): each image element is offered
   * (a new name from GetSendFileNewName, a begin request on the sender's
   * backend session) and replaced by an image element with the new name;
   * other elements are kept. The ids drawn start at genId(k0); `plan` says
   * what was offered and sent, and where the id counter ends.
   */
  method OfferImages(es: seq<ChatElem>, sender: UserId, friend: UserId, fileIds: nat -> int,
                     store: Option<map<string, string>>, imageDir: string, backend: Option<ClientSess>,
                     d: Disk, genId: nat -> string, k0: nat)
    returns (newVec: seq<ChatElem>, plan: Plan, haveImage: bool)
    ensures plan == OfferPlan(es, sender, friend, fileIds, store, imageDir, backend, d, genId, k0)
    ensures |plan.names| == ImageCount(es) && newVec == ReplaceImages(es, plan.names)
    ensures haveImage == HasImage(es)
    ensures !haveImage ==> plan == Plan([], "", [], k0)
  {
    newVec, plan, haveImage := [], Plan([], "", [], k0), false;
    var i := 0;
    while i < |es|
      invariant i <= |es|
      invariant Offering(newVec, plan, haveImage) ==
                Offered(es[..i], sender, friend, fileIds, store, imageDir, backend, d, genId, k0)
    {
      OfferedSnoc(es, i, sender, friend, fileIds, store, imageDir, backend, d, genId, k0);
      var e := es[i];
      if IsImage(e) {
        var o := OfferImage(sender, friend, e.imageName, fileIds(|plan.names|), store, imageDir, backend, d, genId, plan.next);
        newVec := newVec + [FreshImage(o.name)];
        plan := Plan(plan.names + [o.name], o.hash, plan.effects + o.effects, plan.next + o.ids);
        haveImage := true;
      } else {
        newVec := newVec + [e];
      }
      i := i + 1;
    }
    assert es[..i] == es;
    OfferPlanCounts(es, sender, friend, fileIds, store, imageDir, backend, d, genId, k0);
    if !haveImage {
      OfferPlanNoImages(es, sender, friend, fileIds, store, imageDir, backend, d, genId, k0);
    }
  }

  /** The hash of the last image element of `es` ("" when there is none). */
  function LastImageHash(es: seq<ChatElem>, d: Disk): string
  {
    if es == [] then ""
    else if IsImage(es[|es| - 1]) then CalcHash(d, es[|es| - 1].imageName)
    else LastImageHash(es[..|es| - 1], d)
  }

  /**
   * The hash a message with images is held under is the hash of its LAST
   * image: with several images, the earlier images' verifications find
   * nothing held under their hashes (1928, 1955).
   */
  lemma {:induction false} OfferPlanKeyedByLastImage(es: seq<ChatElem>, sender: UserId, friend: UserId,
                                                     fileIds: nat -> int, store: Option<map<string, string>>,
                                                     imageDir: string, backend: Option<ClientSess>, d: Disk,
                                                     genId: nat -> string, k: nat)
    ensures OfferPlan(es, sender, friend, fileIds, store, imageDir, backend, d, genId, k).hash == LastImageHash(es, d)
    decreases |es|
  {
    if es != [] && !IsImage(es[|es| - 1]) {
      OfferPlanKeyedByLastImage(es[..|es| - 1], sender, friend, fileIds, store, imageDir, backend, d, genId, k);
    }
  }

  /**
   * What the relay asks for one element of a received message (2249-2279):
   * an image is downloaded from the backend; a file is offered to the
   * receiving GUI when `offerTo` names one; anything else needs nothing.
   */
  function FetchElem(e: ChatElem, user: UserId, friend: UserId, relate: string, offerTo: Option<ServerSess>,
                     offerMsgId: string, client: ClientSess, id: string): (r: seq<Effect>)
    ensures |r| <= 1
    ensures IsImage(e) ==> r == [ToBackend(client, Built(FileDownLoadReq(id, user, friend, relate, e.imageName, FileTypeImage)))]
    ensures !IsImage(e) && !(IsFile(e) && offerTo.Some?) ==> r == []
  {
    if IsImage(e) then [ToBackend(client, Built(FileDownLoadReq(id, user, friend, relate, e.imageName, FileTypeImage)))]
    else if IsFile(e) && offerTo.Some? then
      [ToGui(offerTo.value, Built(FriendRecvFileMsgReq(offerMsgId, user, friend, e.imageName, UdpOfflineMode)))]
    else []
  }

  /** The requests for all elements in order; element i is given message id genId(k + i). */
  function FetchPlan(es: seq<ChatElem>, user: UserId, friend: UserId, relate: string, offerTo: Option<ServerSess>,
                     offerMsgId: string, client: ClientSess, genId: nat -> string, k: nat): seq<Effect>
    decreases |es|
  {
    if es == [] then []
    else FetchPlan(es[..|es| - 1], user, friend, relate, offerTo, offerMsgId, client, genId, k) +
         FetchElem(es[|es| - 1], user, friend, relate, offerTo, offerMsgId, client, genId(k + |es| - 1))
  }

  /**
   * The loop of HSB_FriendChatRecvTxtReq (2249-2280) and of
   * HSB_RecvGroupTextMsgReqMsg (2457-2491): every element draws a message
   * id; an image is downloaded on `client`, a file offered to `offerTo`
   * when there is one. The flags say whether an image (a file) was seen.
   */
  method FetchElements(es: seq<ChatElem>, user: UserId, friend: UserId, relate: string, offerTo: Option<ServerSess>,
                       offerMsgId: string, client: ClientSess, genId: nat -> string, k0: nat)
    returns (out: seq<Effect>, waitImage: bool, waitFile: bool)
    ensures out == FetchPlan(es, user, friend, relate, offerTo, offerMsgId, client, genId, k0)
    ensures waitImage == HasImage(es) && waitFile == HasFile(es)
  {
    out, waitImage, waitFile := [], false, false;
    var i := 0;
    while i < |es|
      invariant i <= |es|
      invariant out == FetchPlan(es[..i], user, friend, relate, offerTo, offerMsgId, client, genId, k0)
      invariant waitImage == HasImage(es[..i]) && waitFile == HasFile(es[..i])
    {
      var e := es[i];
      var id := genId(k0 + i);
      assert es[..i + 1][..i] == es[..i];
      HasSnoc(es, i);
      if IsImage(e) {
        out := out + [ToBackend(client, Built(FileDownLoadReq(id, user, friend, relate, e.imageName, FileTypeImage)))];
        waitImage := true;
      } else if IsFile(e) {
        if offerTo.Some? {
          out := out + [ToGui(offerTo.value, Built(FriendRecvFileMsgReq(offerMsgId, user, friend, e.imageName, UdpOfflineMode)))];
        }
        waitFile := true;
      }
      i := i + 1;
    }
    assert es[..i] == es;
  }

  /** Every image element of a received message is downloaded, under the id of its position. */
  lemma {:induction false} FetchPlanDownloadsEveryImage(es: seq<ChatElem>, user: UserId, friend: UserId, relate: string,
                                                        offerTo: Option<ServerSess>, offerMsgId: string,
                                                        client: ClientSess, genId: nat -> string, k: nat, i: nat)
    requires i < |es| && IsImage(es[i])
    ensures ToBackend(client, Built(FileDownLoadReq(genId(k + i), user, friend, relate, es[i].imageName, FileTypeImage)))
            in FetchPlan(es, user, friend, relate, offerTo, offerMsgId, client, genId, k)
    decreases |es|
  {
    if i < |es| - 1 {
      FetchPlanDownloadsEveryImage(es[..|es| - 1], user, friend, relate, offerTo, offerMsgId, client, genId, k, i);
    }
  }

  /**
   * Nothing else is asked: every request is a download of an image element
   * of the message for this user, or an offer of a file element to the GUI.
   */
  lemma {:induction false} FetchPlanOnlyElements(es: seq<ChatElem>, user: UserId, friend: UserId, relate: string,
                                                 offerTo: Option<ServerSess>, offerMsgId: string,
                                                 client: ClientSess, genId: nat -> string, k: nat, e: Effect)
    requires e in FetchPlan(es, user, friend, relate, offerTo, offerMsgId, client, genId, k)
    ensures e.ToBackend? ==> e.client == client && e.wire.Built? && e.wire.msg.FileDownLoadReq? &&
                             exists i :: 0 <= i < |es| && IsImage(es[i]) && e.wire.msg.fileName == es[i].imageName
    ensures e.ToGui? ==> Some(e.gui) == offerTo && e.wire.Built? && e.wire.msg.FriendRecvFileMsgReq? &&
                         exists i :: 0 <= i < |es| && IsFile(es[i]) && e.wire.msg.fileName == es[i].imageName
    ensures e.ToBackend? || e.ToGui?
    decreases |es|
  {
    var init := es[..|es| - 1];
    var last := |es| - 1;
    if e in FetchPlan(init, user, friend, relate, offerTo, offerMsgId, client, genId, k) {
      FetchPlanOnlyElements(init, user, friend, relate, offerTo, offerMsgId, client, genId, k, e);
      if e.ToBackend? {
        var i :| 0 <= i < |init| && IsImage(init[i]) && e.wire.msg.fileName == init[i].imageName;
        assert es[i] == init[i];
      }
      if e.ToGui? {
        var i :| 0 <= i < |init| && IsFile(init[i]) && e.wire.msg.fileName == init[i].imageName;
        assert es[i] == init[i];
      }
    } else {
      assert e in FetchElem(es[last], user, friend, relate, offerTo, offerMsgId, client, genId(k + last));
    }
  }

  /** The keep-alive round over the backend sessions (805-809), visiting users in `order`. */
  function ConnectAll(order: seq<UserId>, sess: map<UserId, ClientSess>): (r: seq<Effect>)
    ensures |r| <= 2 * |order|
  {
    if order == [] then []
    else ConnectAll(order[..|order| - 1], sess) +
         (var u := order[|order| - 1]; if u in sess then [StartConnect(sess[u]), SendKeepAlive(sess[u])] else [])
  }

  /** The keep-alive round over the UDP sessions (811-816). */
  function UdpKeepAlives(order: seq<UserId>, udp: map<UserId, UdpSess>): (r: seq<Effect>)
    ensures |r| <= |order|
  {
    if order == [] then []
    else UdpKeepAlives(order[..|order| - 1], udp) +
         (var u := order[|order| - 1]; if u in udp then [UdpToServer(udp[u], KeepAliveReq(u))] else [])
  }

  /**
   * Every user visited with a backend session has that session restarted
   * and then kept alive, the two effects side by side.
   */
  lemma {:induction false} ConnectAllComplete(order: seq<UserId>, sess: map<UserId, ClientSess>, u: UserId)
    requires u in order && u in sess
    ensures exists i :: 0 <= i < |ConnectAll(order, sess)| - 1 &&
                        ConnectAll(order, sess)[i] == StartConnect(sess[u]) &&
                        ConnectAll(order, sess)[i + 1] == SendKeepAlive(sess[u])
  {
    var init, last := order[..|order| - 1], order[|order| - 1];
    var pre := ConnectAll(init, sess);
    if u == last {
      assert ConnectAll(order, sess) == pre + [StartConnect(sess[u]), SendKeepAlive(sess[u])];
      var i := |pre|;
      assert ConnectAll(order, sess)[i] == StartConnect(sess[u]) && ConnectAll(order, sess)[i + 1] == SendKeepAlive(sess[u]);
    } else {
      assert u in init by {
        var j :| 0 <= j < |order| && order[j] == u;
        assert j < |order| - 1 && init[j] == u;
      }
      ConnectAllComplete(init, sess, u);
      var i :| 0 <= i < |pre| - 1 && pre[i] == StartConnect(sess[u]) && pre[i + 1] == SendKeepAlive(sess[u]);
      assert ConnectAll(order, sess)[..|pre|] == pre;
      assert ConnectAll(order, sess)[i] == StartConnect(sess[u]) && ConnectAll(order, sess)[i + 1] == SendKeepAlive(sess[u]);
    }
  }

  /** The keep-alive round does nothing but restart and keep alive the sessions of visited users. */
  lemma {:induction false} ConnectAllSound(order: seq<UserId>, sess: map<UserId, ClientSess>, e: Effect)
    requires e in ConnectAll(order, sess)
    ensures exists u :: u in order && u in sess && (e == StartConnect(sess[u]) || e == SendKeepAlive(sess[u]))
  {
    var init, last := order[..|order| - 1], order[|order| - 1];
    if e in ConnectAll(init, sess) {
      ConnectAllSound(init, sess, e);
      var u :| u in init && u in sess && (e == StartConnect(sess[u]) || e == SendKeepAlive(sess[u]));
      var j :| 0 <= j < |init| && init[j] == u;
      assert order[j] == u;
    } else {
      assert last in order;
    }
  }

  /** Every user visited with a UDP session sends the server a keep-alive naming it. */
  lemma {:induction false} UdpKeepAlivesComplete(order: seq<UserId>, udp: map<UserId, UdpSess>, u: UserId)
    requires u in order && u in udp
    ensures UdpToServer(udp[u], KeepAliveReq(u)) in UdpKeepAlives(order, udp)
  {
    var init, last := order[..|order| - 1], order[|order| - 1];
    if u != last {
      assert u in init by {
        var j :| 0 <= j < |order| && order[j] == u;
        assert j < |order| - 1 && init[j] == u;
      }
      UdpKeepAlivesComplete(init, udp, u);
    }
  }

  /** The UDP keep-alive round sends only keep-alives naming a visited user, each on that user's session. */
  lemma {:induction false} UdpKeepAlivesSound(order: seq<UserId>, udp: map<UserId, UdpSess>, e: Effect)
    requires e in UdpKeepAlives(order, udp)
    ensures exists u :: u in order && u in udp && e == UdpToServer(udp[u], KeepAliveReq(u))
  {
    var init, last := order[..|order| - 1], order[|order| - 1];
    if e in UdpKeepAlives(init, udp) {
      UdpKeepAlivesSound(init, udp, e);
      var u :| u in init && u in udp && e == UdpToServer(udp[u], KeepAliveReq(u));
      var j :| 0 <= j < |init| && init[j] == u;
      assert order[j] == u;
    } else {
      assert last in order;
    }
  }

  /** The restart of every session waiting to reconnect (819-822). */
  function Reconnects(order: seq<ClientSess>): (r: seq<Effect>)
    ensures |r| == |order|
    ensures forall i :: 0 <= i < |order| ==> r[i] == StartConnect(order[i])
  {
    if order == [] then [] else Reconnects(order[..|order| - 1]) + [StartConnect(order[|order| - 1])]
  }

  /**
   * CheckFriendP2PConnect (720-766) visiting the users in `order`: the
   * friends of each user with a UDP session are probed in list order.
   */
  function ProbeAll(order: seq<UserId>, friendsOf: map<UserId, seq<UserId>>, udp: map<UserId, UdpSess>,
                    addrOf: map<UserId, Endpoint>, backend: map<UserId, ClientSess>,
                    genId: nat -> string, k: nat): (r: Probes)
  {
    if order == [] then Probes([], 0)
    else ProbeNext(ProbeAll(order[..|order| - 1], friendsOf, udp, addrOf, backend, genId, k),
                   order[|order| - 1], friendsOf, udp, addrOf, backend, genId, k)
  }

  /** One user's turn in the probe round, after the probes `p` of the users before. */
  function ProbeNext(p: Probes, u: UserId, friendsOf: map<UserId, seq<UserId>>, udp: map<UserId, UdpSess>,
                     addrOf: map<UserId, Endpoint>, backend: map<UserId, ClientSess>,
                     genId: nat -> string, k: nat): (p': Probes)
    ensures !(u in udp && u in friendsOf) ==> p' == p
    ensures |p'.effects| - |p.effects| == p'.ids - p.ids >= 0
  {
    if u in udp && u in friendsOf then
      var q := ProbeFriends(u, friendsOf[u], udp[u], addrOf, Lookup(backend, u), genId, k + p.ids);
      Probes(p.effects + q.effects, p.ids + q.ids)
    else p
  }

  /**
   * A probe round is sound: a start request goes only to a friend's known
   * address on the visited user's own UDP session, and an address is only
   * queried for a friend whose address is unknown, on the user's backend session.
   */
  lemma {:induction false} ProbeAllSound(order: seq<UserId>, friendsOf: map<UserId, seq<UserId>>,
                                         udp: map<UserId, UdpSess>, addrOf: map<UserId, Endpoint>,
                                         backend: map<UserId, ClientSess>, genId: nat -> string, k: nat, e: Effect)
    requires e in ProbeAll(order, friendsOf, udp, addrOf, backend, genId, k).effects
    ensures e.UdpSend? ==> e.msg.UdpP2pStartReq? && e.msg.userId in order && e.msg.userId in udp &&
                           e.udp == udp[e.msg.userId] && e.msg.userId in friendsOf &&
                           e.msg.friendId in friendsOf[e.msg.userId] &&
                           e.msg.friendId in addrOf && e.peer == addrOf[e.msg.friendId]
    ensures e.ToBackend? ==> e.wire.Built? && e.wire.msg.QueryUserUdpAddrReq? && e.wire.msg.userId in order &&
                             e.wire.msg.userId in backend && e.client == backend[e.wire.msg.userId] &&
                             e.wire.msg.userId in friendsOf && e.wire.msg.udpUserId in friendsOf[e.wire.msg.userId] &&
                             e.wire.msg.udpUserId !in addrOf
    ensures e.UdpSend? || e.ToBackend?
    decreases |order|
  {
    var init := order[..|order| - 1];
    var u := order[|order| - 1];
    var p := ProbeAll(init, friendsOf, udp, addrOf, backend, genId, k);
    if e in p.effects {
      ProbeAllSound(init, friendsOf, udp, addrOf, backend, genId, k, e);
    } else {
      ProbesSound(u, friendsOf[u], udp[u], addrOf, Lookup(backend, u), genId, k + p.ids, e);
    }
  }

  /** The probes of the first users visited are a prefix of the whole round's. */
  lemma {:induction false} ProbeAllPrefix(order: seq<UserId>, j: nat, friendsOf: map<UserId, seq<UserId>>,
                                          udp: map<UserId, UdpSess>, addrOf: map<UserId, Endpoint>,
                                          backend: map<UserId, ClientSess>, genId: nat -> string, k: nat)
    requires j <= |order|
    ensures ProbeAll(order[..j], friendsOf, udp, addrOf, backend, genId, k).effects <=
            ProbeAll(order, friendsOf, udp, addrOf, backend, genId, k).effects
    decreases |order|
  {
    if j < |order| {
      var init := order[..|order| - 1];
      assert init[..j] == order[..j];
      ProbeAllPrefix(init, j, friendsOf, udp, addrOf, backend, genId, k);
    } else {
      assert order[..j] == order;
    }
  }

  /** A probe made in the turn of the user `u` visited at position `i`, whose first id is `next`, is part of the round. */
  lemma ProbeAllVisits(order: seq<UserId>, i: nat, friendsOf: map<UserId, seq<UserId>>,
                       udp: map<UserId, UdpSess>, addrOf: map<UserId, Endpoint>,
                       backend: map<UserId, ClientSess>, genId: nat -> string, k: nat,
                       u: UserId, next: nat, e: Effect)
    requires i < |order| && order[i] == u && u in udp && u in friendsOf
    requires next == k + ProbeAll(order[..i], friendsOf, udp, addrOf, backend, genId, k).ids
    requires e in ProbeFriends(u, friendsOf[u], udp[u], addrOf, Lookup(backend, u), genId, next).effects
    ensures e in ProbeAll(order, friendsOf, udp, addrOf, backend, genId, k).effects
  {
    ProbeTurnKeeps(order, i, friendsOf, udp, addrOf, backend, genId, k, e);
    ProbeAllPrefixKeeps(order, i + 1, friendsOf, udp, addrOf, backend, genId, k, e);
  }

  /** A probe made for the user visited at position `i` is an effect of the round up to and including that turn. */
  lemma ProbeTurnKeeps(order: seq<UserId>, i: nat, friendsOf: map<UserId, seq<UserId>>,
                       udp: map<UserId, UdpSess>, addrOf: map<UserId, Endpoint>,
                       backend: map<UserId, ClientSess>, genId: nat -> string, k: nat, e: Effect)
    requires i < |order| && order[i] in udp && order[i] in friendsOf
    requires e in ProbeFriends(order[i], friendsOf[order[i]], udp[order[i]], addrOf, Lookup(backend, order[i]), genId,
                               k + ProbeAll(order[..i], friendsOf, udp, addrOf, backend, genId, k).ids).effects
    ensures e in ProbeAll(order[..i + 1], friendsOf, udp, addrOf, backend, genId, k).effects
  {
    var p := ProbeAll(order[..i], friendsOf, udp, addrOf, backend, genId, k);
    ProbeAllSnoc(order, i, friendsOf, udp, addrOf, backend, genId, k);
    ProbeNextKeeps(p, order[i], friendsOf, udp, addrOf, backend, genId, k, e);
  }

  /** An effect of the round over a prefix of the visiting order is an effect of the whole round. */
  lemma ProbeAllPrefixKeeps(order: seq<UserId>, j: nat, friendsOf: map<UserId, seq<UserId>>,
                            udp: map<UserId, UdpSess>, addrOf: map<UserId, Endpoint>,
                            backend: map<UserId, ClientSess>, genId: nat -> string, k: nat, e: Effect)
    requires j <= |order| && e in ProbeAll(order[..j], friendsOf, udp, addrOf, backend, genId, k).effects
    ensures e in ProbeAll(order, friendsOf, udp, addrOf, backend, genId, k).effects
  {
    ProbeAllPrefix(order, j, friendsOf, udp, addrOf, backend, genId, k);
    InPrefix(ProbeAll(order[..j], friendsOf, udp, addrOf, backend, genId, k).effects,
             ProbeAll(order, friendsOf, udp, addrOf, backend, genId, k).effects, e);
  }

  /** A probe made in a user's turn is among the effects after that turn. */
  lemma ProbeNextKeeps(p: Probes, u: UserId, friendsOf: map<UserId, seq<UserId>>, udp: map<UserId, UdpSess>,
                       addrOf: map<UserId, Endpoint>, backend: map<UserId, ClientSess>,
                       genId: nat -> string, k: nat, e: Effect)
    requires u in udp && u in friendsOf
    requires e in ProbeFriends(u, friendsOf[u], udp[u], addrOf, Lookup(backend, u), genId, k + p.ids).effects
    ensures e in ProbeNext(p, u, friendsOf, udp, addrOf, backend, genId, k).effects
  {
    var q := ProbeFriends(u, friendsOf[u], udp[u], addrOf, Lookup(backend, u), genId, k + p.ids);
    var j :| 0 <= j < |q.effects| && q.effects[j] == e;
    assert (p.effects + q.effects)[|p.effects| + j] == e;
  }

  /** What a prefix holds, the whole sequence holds. */
  lemma InPrefix<T>(a: seq<T>, b: seq<T>, e: T)
    requires a <= b && e in a
    ensures e in b
  {
    var j :| 0 <= j < |a| && a[j] == e;
    assert b[j] == e;
  }

  /** Visiting one more user extends the round by that user's turn. */
  lemma ProbeAllSnoc(order: seq<UserId>, i: nat, friendsOf: map<UserId, seq<UserId>>,
                     udp: map<UserId, UdpSess>, addrOf: map<UserId, Endpoint>,
                     backend: map<UserId, ClientSess>, genId: nat -> string, k: nat)
    requires i < |order|
    ensures ProbeAll(order[..i + 1], friendsOf, udp, addrOf, backend, genId, k) ==
            ProbeNext(ProbeAll(order[..i], friendsOf, udp, addrOf, backend, genId, k), order[i],
                      friendsOf, udp, addrOf, backend, genId, k)
  {
    var before := order[..i + 1];
    assert before[..|before| - 1] == order[..i] && before[|before| - 1] == order[i];
  }

  /**
   * In a probe round, every listed friend of a visited user with a UDP
   * session whose address is known gets a start request at that address,
   * on the user's UDP session.
   */
  lemma KnownFriendProbedInRound(order: seq<UserId>, friendsOf: map<UserId, seq<UserId>>,
                                 udp: map<UserId, UdpSess>, addrOf: map<UserId, Endpoint>,
                                 backend: map<UserId, ClientSess>, genId: nat -> string, k: nat,
                                 u: UserId, f: UserId)
    requires u in order && u in udp && u in friendsOf && f in friendsOf[u] && f in addrOf
    ensures exists id :: UdpSend(udp[u], addrOf[f], UdpP2pStartReq(id, u, f)) in
                         ProbeAll(order, friendsOf, udp, addrOf, backend, genId, k).effects
  {
    var i :| 0 <= i < |order| && order[i] == u;
    var next := k + ProbeAll(order[..i], friendsOf, udp, addrOf, backend, genId, k).ids;
    KnownFriendProbed(u, friendsOf[u], udp[u], addrOf, Lookup(backend, u), genId, next, f);
    var id :| UdpSend(udp[u], addrOf[f], UdpP2pStartReq(id, u, f)) in
              ProbeFriends(u, friendsOf[u], udp[u], addrOf, Lookup(backend, u), genId, next).effects;
    var e := UdpSend(udp[u], addrOf[f], UdpP2pStartReq(id, u, f));
    ProbeAllVisits(order, i, friendsOf, udp, addrOf, backend, genId, k, u, next, e);
    assert e in ProbeAll(order, friendsOf, udp, addrOf, backend, genId, k).effects;
  }

  /**
   * In a probe round, every listed friend of a visited user with a UDP
   * session whose address is unknown is asked for on the user's backend
   * session, when the user has one.
   */
  lemma UnknownFriendQueriedInRound(order: seq<UserId>, friendsOf: map<UserId, seq<UserId>>,
                                    udp: map<UserId, UdpSess>, addrOf: map<UserId, Endpoint>,
                                    backend: map<UserId, ClientSess>, genId: nat -> string, k: nat,
                                    u: UserId, f: UserId)
    requires u in order && u in udp && u in friendsOf && f in friendsOf[u] && f !in addrOf && u in backend
    ensures exists id :: ToBackend(backend[u], Built(QueryUserUdpAddrReq(id, u, f))) in
                         ProbeAll(order, friendsOf, udp, addrOf, backend, genId, k).effects
  {
    var i :| 0 <= i < |order| && order[i] == u;
    var next := k + ProbeAll(order[..i], friendsOf, udp, addrOf, backend, genId, k).ids;
    UnknownFriendQueried(u, friendsOf[u], udp[u], addrOf, Lookup(backend, u), genId, next, f);
    var id :| ToBackend(backend[u], Built(QueryUserUdpAddrReq(id, u, f))) in
              ProbeFriends(u, friendsOf[u], udp[u], addrOf, Lookup(backend, u), genId, next).effects;
    var e := ToBackend(backend[u], Built(QueryUserUdpAddrReq(id, u, f)));
    ProbeAllVisits(order, i, friendsOf, udp, addrOf, backend, genId, k, u, next, e);
    assert e in ProbeAll(order, friendsOf, udp, addrOf, backend, genId, k).effects;
  }
}
