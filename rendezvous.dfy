/**
 * UDP rendezvous between friends: the answer to a P2P start request, the
 * flattening of a friend list into the ids that are probed, and the
 * periodic probe of every friend (CheckFriendP2PConnect): a friend whose
 * UDP address is known gets a P2P start request at that address, and for
 * any other friend the backend is asked for the address.
 */
module Rendezvous {
  import opened Common
  import opened Messages

  /** The answer to a P2P start request (106-118): the two ids swap places. */
  function AnswerP2pStart(req: Msg): (rsp: Msg)
    requires req.UdpP2pStartReq?
    ensures rsp.UdpP2pStartRsp? && rsp.msgId == req.msgId
    ensures rsp.userId == req.friendId && rsp.friendId == req.userId
  {
    UdpP2pStartRsp(req.msgId, req.friendId, req.userId)
  }

  /** Answering the answer (read as a request) gives back the original ids. */
  lemma AnswerSwapsBack(req: Msg)
    requires req.UdpP2pStartReq?
    ensures var rsp := AnswerP2pStart(req);
            AnswerP2pStart(UdpP2pStartReq(rsp.msgId, rsp.userId, rsp.friendId)) ==
              UdpP2pStartRsp(req.msgId, req.userId, req.friendId)
  {
  }

  /**
   * The probe the relay sends its own server after a keep-alive answer
   * (126-145) names the client on both sides, so its answer does too: the
   * start response handler takes it as the server connection succeeding.
   */
  lemma SelfProbeAnswer(id: string, client: UserId)
    ensures AnswerP2pStart(UdpP2pStartReq(id, client, client)).userId ==
            AnswerP2pStart(UdpP2pStartReq(id, client, client)).friendId
  {
  }

  /** The user ids of all teams, team by team, in order (776-797). */
  function Flatten(teams: seq<seq<UserId>>): (r: seq<UserId>)
  {
    if teams == [] then [] else teams[0] + Flatten(teams[1..])
  }

  lemma FlattenSnoc(teams: seq<seq<UserId>>, t: seq<UserId>)
    ensures Flatten(teams + [t]) == Flatten(teams) + t
  {
    if teams == [] {
      assert [t][1..] == [];
    } else {
      assert (teams + [t])[1..] == teams[1..] + [t];
      FlattenSnoc(teams[1..], t);
    }
  }

  /** A user id is in the flattened list exactly when some team lists it. */
  lemma {:induction false} FlattenMembers(teams: seq<seq<UserId>>, x: UserId)
    ensures x in Flatten(teams) <==> exists t :: 0 <= t < |teams| && x in teams[t]
  {
    if teams != [] {
      FlattenMembers(teams[1..], x);
      if x in Flatten(teams[1..]) {
        var t :| 0 <= t < |teams[1..]| && x in teams[1..][t];
        assert x in teams[t + 1];
      }
      if exists t :: 0 <= t < |teams| && x in teams[t] {
        var t :| 0 <= t < |teams| && x in teams[t];
        if t > 0 {
          assert x in teams[1..][t - 1];
        }
      }
    }
  }

  /**
   * Builds the flattened friend list the way the handler does, team by
   * team and user by user.
   */
  method FlattenFriends(teams: seq<seq<UserId>>) returns (v: seq<UserId>)
    ensures v == Flatten(teams)
  {
    v := [];
    var i := 0;
    while i < |teams|
      invariant 0 <= i <= |teams|
      invariant v == Flatten(teams[..i])
    {
      var j := 0;
      while j < |teams[i]|
        invariant 0 <= j <= |teams[i]|
        invariant v == Flatten(teams[..i]) + teams[i][..j]
      {
        v := v + [teams[i][j]];
        j := j + 1;
      }
      assert teams[i][..j] == teams[i];
      assert teams[..i + 1] == teams[..i] + [teams[i]];
      FlattenSnoc(teams[..i], teams[i]);
      i := i + 1;
    }
    assert teams[..i] == teams;
  }

  /**
   * The probe for one friend of `user`, given the known UDP addresses and
   * the user's backend session; `id` is the message id generated for it.
   * None when nothing is sent (address unknown and no backend session).
   */
  function ProbeFriend(user: UserId, friend: UserId, udp: UdpSess, addrOf: map<UserId, Endpoint>,
                       client: Option<ClientSess>, id: string): (e: Option<Effect>)
    ensures friend in addrOf ==> e == Some(UdpSend(udp, addrOf[friend], UdpP2pStartReq(id, user, friend)))
    ensures friend !in addrOf && client.Some? ==>
              e == Some(ToBackend(client.value, Built(QueryUserUdpAddrReq(id, user, friend))))
    ensures friend !in addrOf && client.None? ==> e.None?
  {
    if friend in addrOf then Some(UdpSend(udp, addrOf[friend], UdpP2pStartReq(id, user, friend)))
    else if client.Some? then Some(ToBackend(client.value, Built(QueryUserUdpAddrReq(id, user, friend))))
    else None
  }

  /** The outcome of probing a list of friends: the effects, and the number of ids consumed. */
  datatype Probes = Probes(effects: seq<Effect>, ids: nat)

  /**
   * Probing the friends of one user in list order: each friend is probed
   * after all the ones before it, with the next unused id from genId
   * (starting at `next`).
   */
  function ProbeFriends(user: UserId, friends: seq<UserId>, udp: UdpSess, addrOf: map<UserId, Endpoint>,
                        client: Option<ClientSess>, genId: nat -> string, next: nat): (r: Probes)
    ensures |r.effects| == r.ids <= |friends|
    decreases |friends|
  {
    if friends == [] then Probes([], 0)
    else
      var r := ProbeFriends(user, friends[..|friends| - 1], udp, addrOf, client, genId, next);
      var e := ProbeFriend(user, friends[|friends| - 1], udp, addrOf, client, genId(next + r.ids));
      Probes(r.effects + Emitted(e), r.ids + |Emitted(e)|)
  }

  /** The effects a single probe adds to the list. */
  function Emitted(e: Option<Effect>): (s: seq<Effect>)
    ensures |s| == (if e.Some? then 1 else 0)
  {
    if e.Some? then [e.value] else []
  }

  /**
   * Soundness of the probes for one user: a start request goes only to a
   * friend's known address and names that friend; an address query is made
   * only for a friend whose address is unknown.
   */
  lemma {:induction false} ProbesSound(user: UserId, friends: seq<UserId>, udp: UdpSess, addrOf: map<UserId, Endpoint>,
                                       client: Option<ClientSess>, genId: nat -> string, next: nat, e: Effect)
    requires e in ProbeFriends(user, friends, udp, addrOf, client, genId, next).effects
    ensures e.UdpSend? ==> e.udp == udp && e.msg.UdpP2pStartReq? && e.msg.userId == user &&
                           e.msg.friendId in friends && e.msg.friendId in addrOf && e.peer == addrOf[e.msg.friendId]
    ensures e.ToBackend? ==> client == Some(e.client) && e.wire.Built? && e.wire.msg.QueryUserUdpAddrReq? &&
                             e.wire.msg.userId == user && e.wire.msg.udpUserId in friends &&
                             e.wire.msg.udpUserId !in addrOf
    ensures e.UdpSend? || e.ToBackend?
    decreases |friends|
  {
    var init := friends[..|friends| - 1];
    var r := ProbeFriends(user, init, udp, addrOf, client, genId, next);
    if e in r.effects {
      ProbesSound(user, init, udp, addrOf, client, genId, next, e);
      assert forall x :: x in init ==> x in friends;
    }
  }

  /** Every friend whose address is known gets its start request. */
  lemma {:induction false} KnownFriendProbed(user: UserId, friends: seq<UserId>, udp: UdpSess, addrOf: map<UserId, Endpoint>,
                                             client: Option<ClientSess>, genId: nat -> string, next: nat, f: UserId)
    requires f in friends && f in addrOf
    ensures exists id :: UdpSend(udp, addrOf[f], UdpP2pStartReq(id, user, f)) in
                         ProbeFriends(user, friends, udp, addrOf, client, genId, next).effects
    decreases |friends|
  {
    var init := friends[..|friends| - 1];
    var r := ProbeFriends(user, init, udp, addrOf, client, genId, next);
    if friends[|friends| - 1] == f {
      assert UdpSend(udp, addrOf[f], UdpP2pStartReq(genId(next + r.ids), user, f)) in
             ProbeFriends(user, friends, udp, addrOf, client, genId, next).effects;
    } else {
      assert friends == init + [friends[|friends| - 1]];
      KnownFriendProbed(user, init, udp, addrOf, client, genId, next, f);
      var id :| UdpSend(udp, addrOf[f], UdpP2pStartReq(id, user, f)) in r.effects;
      assert UdpSend(udp, addrOf[f], UdpP2pStartReq(id, user, f)) in
             ProbeFriends(user, friends, udp, addrOf, client, genId, next).effects;
    }
  }

  /** Every friend whose address is unknown is asked for on the user's backend session, when there is one. */
  lemma {:induction false} UnknownFriendQueried(user: UserId, friends: seq<UserId>, udp: UdpSess,
                                                addrOf: map<UserId, Endpoint>, client: Option<ClientSess>,
                                                genId: nat -> string, next: nat, f: UserId)
    requires f in friends && f !in addrOf && client.Some?
    ensures exists id :: ToBackend(client.value, Built(QueryUserUdpAddrReq(id, user, f))) in
                         ProbeFriends(user, friends, udp, addrOf, client, genId, next).effects
    decreases |friends|
  {
    var init := friends[..|friends| - 1];
    var r := ProbeFriends(user, init, udp, addrOf, client, genId, next);
    if friends[|friends| - 1] == f {
      assert ToBackend(client.value, Built(QueryUserUdpAddrReq(genId(next + r.ids), user, f))) in
             ProbeFriends(user, friends, udp, addrOf, client, genId, next).effects;
    } else {
      assert friends == init + [friends[|friends| - 1]];
      UnknownFriendQueried(user, init, udp, addrOf, client, genId, next, f);
      var id :| ToBackend(client.value, Built(QueryUserUdpAddrReq(id, user, f))) in r.effects;
      assert ToBackend(client.value, Built(QueryUserUdpAddrReq(id, user, f))) in
             ProbeFriends(user, friends, udp, addrOf, client, genId, next).effects;
    }
  }
}
