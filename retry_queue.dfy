/**
 * The queue of messages waiting for a user's backend connection
 * (m_RecvWaitMsgMap): failed UDP-address queries are queued per user and
 * sent when the periodic flush finds a backend session for that user.
 */
module RetryQueue {
  import opened Common
  import opened Messages

  type Queue = map<UserId, seq<Msg>>

  /** Appends one message to a user's list, creating the list when absent (3108-3119). */
  function Enqueue(q: Queue, user: UserId, m: Msg): (r: Queue)
    ensures user in r && r[user] == (if user in q then q[user] else []) + [m]
    ensures r.Keys == q.Keys + {user}
    ensures forall u :: u in q && u != user ==> r[u] == q[u]
  {
    q[user := (if user in q then q[user] else []) + [m]]
  }

  /** What a flush leaves queued: the lists of the users without a session, unchanged. */
  function Kept(q: Queue, online: set<UserId>): (r: Queue)
    ensures r.Keys == q.Keys - online
    ensures forall u :: u in r ==> r[u] == q[u]
  {
    map u | u in q && u !in online :: q[u]
  }

  /** Sending a list of messages on one backend session, in order. */
  function SendAll(c: ClientSess, ms: seq<Msg>): (r: seq<Effect>)
    ensures |r| == |ms|
    ensures forall i :: 0 <= i < |ms| ==> r[i] == ToBackend(c, Built(ms[i]))
  {
    if ms == [] then [] else [ToBackend(c, Built(ms[0]))] + SendAll(c, ms[1..])
  }

  /** The sends the flush makes for one user. */
  function UserSends(u: UserId, q: Queue, sess: map<UserId, ClientSess>): seq<Effect>
  {
    if u in q && u in sess then SendAll(sess[u], q[u]) else []
  }

  /** The sends of a flush that visits the users in `order` (CheckWaitMsgVec, 927-950). */
  function FlushSends(order: seq<UserId>, q: Queue, sess: map<UserId, ClientSess>): seq<Effect>
  {
    if order == [] then [] else UserSends(order[0], q, sess) + FlushSends(order[1..], q, sess)
  }

  lemma FlushSendsSnoc(order: seq<UserId>, u: UserId, q: Queue, sess: map<UserId, ClientSess>)
    ensures FlushSends(order + [u], q, sess) == FlushSends(order, q, sess) + UserSends(u, q, sess)
  {
    if order == [] {
      assert [u][1..] == [];
    } else {
      assert (order + [u])[1..] == order[1..] + [u];
      FlushSendsSnoc(order[1..], u, q, sess);
    }
  }

  lemma SendAllSnoc(c: ClientSess, ms: seq<Msg>, j: nat)
    requires j < |ms|
    ensures SendAll(c, ms[..j + 1]) == SendAll(c, ms[..j]) + [ToBackend(c, Built(ms[j]))]
  {
    var a, b := SendAll(c, ms[..j + 1]), SendAll(c, ms[..j]) + [ToBackend(c, Built(ms[j]))];
    forall i | 0 <= i < |a|
      ensures a[i] == b[i]
    {
      assert ms[..j + 1][i] == ms[i];
    }
  }

  /** The inner loop of the flush (936-940): one user's list sent on its session, in order. */
  method SendQueued(c: ClientSess, ms: seq<Msg>) returns (sent: seq<Effect>)
    ensures sent == SendAll(c, ms)
  {
    sent := [];
    var j := 0;
    while j < |ms|
      invariant j <= |ms| && sent == SendAll(c, ms[..j])
    {
      SendAllSnoc(c, ms, j);
      sent := sent + [ToBackend(c, Built(ms[j]))];
      j := j + 1;
    }
    assert ms[..j] == ms;
  }

  /** The lists of the users among `visited` without a session. */
  ghost function KeptAmong(visited: seq<UserId>, q: Queue, online: set<UserId>): Queue
  {
    map u | u in visited && u in q && u !in online :: q[u]
  }

  lemma KeptAmongSnoc(visited: seq<UserId>, u: UserId, q: Queue, online: set<UserId>)
    requires u in q
    ensures KeptAmong(visited + [u], q, online) ==
            if u in online then KeptAmong(visited, q, online) else KeptAmong(visited, q, online)[u := q[u]]
  {
  }

  lemma KeptAmongAll(order: seq<UserId>, q: Queue, online: set<UserId>)
    requires Enumerates(order, q.Keys)
    ensures KeptAmong(order, q, online) == Kept(q, online)
  {
  }

  lemma FlushAt(order: seq<UserId>, i: nat, q: Queue, sess: map<UserId, ClientSess>, out: seq<Effect>, sent: seq<Effect>)
    requires i < |order| && out == FlushSends(order[..i], q, sess) && sent == UserSends(order[i], q, sess)
    ensures FlushSends(order[..i + 1], q, sess) == out + sent
  {
    assert order[..i + 1] == order[..i] + [order[i]];
    FlushSendsSnoc(order[..i], order[i], q, sess);
  }

  lemma KeptAmongAt(order: seq<UserId>, i: nat, q: Queue, sess: map<UserId, ClientSess>, notSent: Queue)
    requires i < |order| && order[i] in q && notSent == KeptAmong(order[..i], q, sess.Keys)
    ensures KeptAmong(order[..i + 1], q, sess.Keys) ==
            if order[i] in sess then notSent else notSent[order[i] := q[order[i]]]
  {
    assert order[..i + 1] == order[..i] + [order[i]];
    KeptAmongSnoc(order[..i], order[i], q, sess.Keys);
  }

  /**
   * CheckWaitMsgVec's flush (931-948), visiting the users of the queue in
   * `order`: the messages of a user with a backend session are sent on it,
   * in order; the lists of the other users are kept for the next flush.
   */
  method Flush(order: seq<UserId>, q: Queue, sess: map<UserId, ClientSess>) returns (out: seq<Effect>, notSent: Queue)
    requires Enumerates(order, q.Keys)
    ensures out == FlushSends(order, q, sess)
    ensures notSent == Kept(q, sess.Keys)
  {
    out, notSent := [], map[];
    var i := 0;
    while i < |order|
      invariant i <= |order|
      invariant out == FlushSends(order[..i], q, sess)
      invariant notSent == KeptAmong(order[..i], q, sess.Keys)
    {
      var u := order[i];
      assert u in q;
      var sent := [];
      if u in sess {
        sent := SendQueued(sess[u], q[u]);
      }
      FlushAt(order, i, q, sess, out, sent);
      KeptAmongAt(order, i, q, sess, notSent);
      out := out + sent;
      notSent := if u in sess then notSent else notSent[u := q[u]];
      i := i + 1;
    }
    assert order[..i] == order;
    KeptAmongAll(order, q, sess.Keys);
  }

  /** Every queued message of a visited user with a session is among the flush's sends. */
  lemma {:induction false} FlushSendsEveryOnline(order: seq<UserId>, q: Queue, sess: map<UserId, ClientSess>, u: UserId)
    requires u in order && u in q && u in sess
    ensures multiset(SendAll(sess[u], q[u])) <= multiset(FlushSends(order, q, sess))
  {
    if order[0] != u {
      FlushSendsEveryOnline(order[1..], q, sess, u);
    }
  }

  /** Every send of a flush carries a queued message of a visited user, on that user's session. */
  lemma {:induction false} FlushSendsOnlyQueued(order: seq<UserId>, q: Queue, sess: map<UserId, ClientSess>, e: Effect)
    requires e in FlushSends(order, q, sess)
    ensures exists u :: u in order && u in q && u in sess && e in SendAll(sess[u], q[u])
  {
    var head := UserSends(order[0], q, sess);
    if e in head {
      assert order[0] in order;
    } else {
      FlushSendsOnlyQueued(order[1..], q, sess, e);
      var u :| u in order[1..] && u in q && u in sess && e in SendAll(sess[u], q[u]);
      assert u in order;
    }
  }

  /** Once flushed, a queue sends nothing more while the same users stay online. */
  lemma {:induction false} FlushAgainSendsNothing(order: seq<UserId>, q: Queue, sess: map<UserId, ClientSess>)
    ensures FlushSends(order, Kept(q, sess.Keys), sess) == []
  {
    if order != [] {
      FlushAgainSendsNothing(order[1..], q, sess);
    }
  }

  /** A queued query for a user who stays offline survives the flush, at the end of that user's list. */
  lemma EnqueuedKeptWhileOffline(q: Queue, user: UserId, m: Msg, online: set<UserId>)
    requires user !in online
    ensures user in Kept(Enqueue(q, user, m), online)
    ensures Kept(Enqueue(q, user, m), online)[user] == (if user in q then q[user] else []) + [m]
  {
  }
}
