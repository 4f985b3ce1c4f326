/**
 * The loops of the periodic connection check (CheckAllConnect and
 * CheckFriendP2PConnect), each proved to produce exactly the plan the
 * connection-round functions give for the order it visits.
 */
module ConnectionRounds {
  import opened Common
  import opened Messages
  import opened Rendezvous
  import opened RelayPlans

  /** The first loop of CheckAllConnect (805-809): restart and keep alive every backend session. */
  method ConnectRound(order: seq<UserId>, sess: map<UserId, ClientSess>) returns (r: seq<Effect>)
    ensures r == ConnectAll(order, sess)
  {
    r := [];
    var i := 0;
    while i < |order|
      invariant i <= |order| && r == ConnectAll(order[..i], sess)
    {
      assert order[..i + 1][..i] == order[..i];
      var u := order[i];
      if u in sess {
        r := r + [StartConnect(sess[u]), SendKeepAlive(sess[u])];
      }
      i := i + 1;
    }
    assert order[..i] == order;
  }

  /** The second loop of CheckAllConnect (811-816): a keep-alive to the server on every UDP session. */
  method KeepAliveRound(order: seq<UserId>, udp: map<UserId, UdpSess>) returns (r: seq<Effect>)
    ensures r == UdpKeepAlives(order, udp)
  {
    r := [];
    var i := 0;
    while i < |order|
      invariant i <= |order| && r == UdpKeepAlives(order[..i], udp)
    {
      assert order[..i + 1][..i] == order[..i];
      var u := order[i];
      if u in udp {
        r := r + [UdpToServer(udp[u], KeepAliveReq(u))];
      }
      i := i + 1;
    }
    assert order[..i] == order;
  }

  /** The last loop of CheckAllConnect (819-822): restart every session waiting to reconnect. */
  method ReconnectRound(order: seq<ClientSess>) returns (r: seq<Effect>)
    ensures r == Reconnects(order)
  {
    r := [];
    var i := 0;
    while i < |order|
      invariant i <= |order| && r == Reconnects(order[..i])
    {
      assert order[..i + 1][..i] == order[..i];
      r := r + [StartConnect(order[i])];
      i := i + 1;
    }
    assert order[..i] == order;
  }

  /** One step of ProbeUser's loop: probing one more friend appends its probe, drawn with the next unused id. */
  lemma ProbeFriendsAt(user: UserId, friends: seq<UserId>, j: nat, udp: UdpSess, addrOf: map<UserId, Endpoint>,
                       client: Option<ClientSess>, genId: nat -> string, next: nat, p: Probes, sent: seq<Effect>)
    requires j < |friends| && p == ProbeFriends(user, friends[..j], udp, addrOf, client, genId, next)
    requires sent == Emitted(ProbeFriend(user, friends[j], udp, addrOf, client, genId(next + p.ids)))
    ensures ProbeFriends(user, friends[..j + 1], udp, addrOf, client, genId, next) == Probes(p.effects + sent, p.ids + |sent|)
  {
    assert friends[..j + 1][..j] == friends[..j];
  }

  /** The inner loop of CheckFriendP2PConnect (739-763): probe each friend of one user. */
  method ProbeUser(user: UserId, friends: seq<UserId>, udp: UdpSess, addrOf: map<UserId, Endpoint>,
                   client: Option<ClientSess>, genId: nat -> string, next: nat) returns (p: Probes)
    ensures p == ProbeFriends(user, friends, udp, addrOf, client, genId, next)
  {
    p := Probes([], 0);
    var j := 0;
    while j < |friends|
      invariant j <= |friends| && p == ProbeFriends(user, friends[..j], udp, addrOf, client, genId, next)
    {
      var sent := Emitted(ProbeFriend(user, friends[j], udp, addrOf, client, genId(next + p.ids)));
      ProbeFriendsAt(user, friends, j, udp, addrOf, client, genId, next, p, sent);
      p := Probes(p.effects + sent, p.ids + |sent|);
      j := j + 1;
    }
    assert friends[..j] == friends;
  }

  lemma ProbeAllAt(order: seq<UserId>, i: nat, friendsOf: map<UserId, seq<UserId>>, udp: map<UserId, UdpSess>,
                   addrOf: map<UserId, Endpoint>, backend: map<UserId, ClientSess>, genId: nat -> string, k: nat,
                   p: Probes, q: Probes)
    requires i < |order| && p == ProbeAll(order[..i], friendsOf, udp, addrOf, backend, genId, k)
    requires order[i] in udp && order[i] in friendsOf ==>
               q == ProbeFriends(order[i], friendsOf[order[i]], udp[order[i]], addrOf, Lookup(backend, order[i]),
                                 genId, k + p.ids)
    ensures order[i] in udp && order[i] in friendsOf ==>
              ProbeAll(order[..i + 1], friendsOf, udp, addrOf, backend, genId, k) ==
              Probes(p.effects + q.effects, p.ids + q.ids)
    ensures !(order[i] in udp && order[i] in friendsOf) ==>
              ProbeAll(order[..i + 1], friendsOf, udp, addrOf, backend, genId, k) == p
  {
    assert order[..i + 1][..i] == order[..i];
  }

  /** CheckFriendP2PConnect (724-767): the friends of every user with a UDP session are probed. */
  method ProbeRound(order: seq<UserId>, friendsOf: map<UserId, seq<UserId>>, udp: map<UserId, UdpSess>,
                    addrOf: map<UserId, Endpoint>, backend: map<UserId, ClientSess>,
                    genId: nat -> string, k: nat) returns (p: Probes)
    ensures p == ProbeAll(order, friendsOf, udp, addrOf, backend, genId, k)
  {
    p := Probes([], 0);
    var i := 0;
    while i < |order|
      invariant i <= |order| && p == ProbeAll(order[..i], friendsOf, udp, addrOf, backend, genId, k)
    {
      var u := order[i];
      var q := Probes([], 0);
      if u in udp && u in friendsOf {
        q := ProbeUser(u, friendsOf[u], udp[u], addrOf, Lookup(backend, u), genId, k + p.ids);
      }
      ProbeAllAt(order, i, friendsOf, udp, addrOf, backend, genId, k, p, q);
      p := if u in udp && u in friendsOf then Probes(p.effects + q.effects, p.ids + q.ids) else p;
      i := i + 1;
    }
    assert order[..i] == order;
  }

  /**
   * The traffic of one CheckAllConnect (802-824) and the ids it draws: on a
   * connection tick (`on`) every backend session is restarted and kept
   * alive, every UDP session sends a keep-alive, and the friends are probed;
   * on every tick the sessions waiting to reconnect are restarted.
   */
  function ConnectionCheck(on: bool, users: seq<UserId>, udpUsers: seq<UserId>, friendUsers: seq<UserId>,
                           reconnecting: seq<ClientSess>, sess: map<UserId, ClientSess>, udp: map<UserId, UdpSess>,
                           friendsOf: map<UserId, seq<UserId>>, addrOf: map<UserId, Endpoint>,
                           genId: nat -> string, k: nat): (r: Probes)
    ensures !on ==> r == Probes(Reconnects(reconnecting), 0)
    ensures |Reconnects(reconnecting)| <= |r.effects|
    ensures r.effects[|r.effects| - |reconnecting|..] == Reconnects(reconnecting)
  {
    if on then
      var p := ProbeAll(friendUsers, friendsOf, udp, addrOf, sess, genId, k);
      Probes(ConnectAll(users, sess) + UdpKeepAlives(udpUsers, udp) + p.effects + Reconnects(reconnecting), p.ids)
    else Probes(Reconnects(reconnecting), 0)
  }

  /** CheckAllConnect's loops, in the source's order. */
  method CheckConnections(on: bool, users: seq<UserId>, udpUsers: seq<UserId>, friendUsers: seq<UserId>,
                          reconnecting: seq<ClientSess>, sess: map<UserId, ClientSess>, udp: map<UserId, UdpSess>,
                          friendsOf: map<UserId, seq<UserId>>, addrOf: map<UserId, Endpoint>,
                          genId: nat -> string, k: nat) returns (r: Probes)
    ensures r == ConnectionCheck(on, users, udpUsers, friendUsers, reconnecting, sess, udp, friendsOf, addrOf, genId, k)
  {
    r := Probes([], 0);
    if on {
      var connects := ConnectRound(users, sess);
      var keepAlives := KeepAliveRound(udpUsers, udp);
      var probes := ProbeRound(friendUsers, friendsOf, udp, addrOf, sess, genId, k);
      r := Probes(connects + keepAlives + probes.effects, probes.ids);
    }
    var restarts := ReconnectRound(reconnecting);
    r := Probes(r.effects + restarts, r.ids);
  }
}
