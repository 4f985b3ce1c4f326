/**
 * The relay's registry of who is connected where: the tables that map user
 * ids and names to each other and to the user's backend (TCP client),
 * GUI (TCP server) and UDP sessions, the login state of each user, the
 * pairing of a freshly accepted GUI session with its spare backend
 * session, and the sessions waiting to reconnect.
 *
 * Each handler of CMediumServer that touches these tables is given here as
 * a function from the old registry to the new one; the relay's methods are
 * proved to perform exactly these updates, and the lemmas below say what
 * the updates guarantee.
 */
module Sessions {
  import opened Common

  /** The fields of a login request, kept so that it can be sent again. */
  datatype Credentials = Credentials(msgId: string, userName: string, password: string, osType: int)

  datatype Registry = Registry(
    clientSessOf: map<UserId, ClientSess>,    // m_userId_ClientSessMap
    guiSessOf: map<UserId, ServerSess>,       // m_userId_ServerSessMap
    udpSessOf: map<UserId, UdpSess>,          // m_userUdpSessMap
    udpAddrOf: map<UserId, Endpoint>,         // m_userIdUdpAddrMap
    keepAliveOf: map<UserId, int>,            // m_userKeepAliveMap
    idOfName: map<string, UserId>,            // m_userName_UserIdMap
    nameOfId: map<UserId, string>,            // m_userId_UserNameMap
    stateOf: map<UserId, SessState>,          // m_userStateMap
    forward: map<ServerSess, ClientSess>,     // m_ForwardSessMap: GUI session to its spare backend session
    back: map<ClientSess, ServerSess>,        // m_BackSessMap: the same pairs, the other way round
    clientIdent: map<ClientSess, Ident>,      // what SetUserId/SetUserName told each backend session
    guiIdent: map<ServerSess, Ident>,         // ... and each GUI session
    reconnect: map<ClientSess, int>,          // m_reConnectSessMap: session to the time it failed
    loginReqOf: map<string, Credentials>,     // m_userLoginMsgMap: the fields of each stored login request
    friendsOf: map<UserId, seq<UserId>>)      // m_userFriendListMap

  /** The registry of a relay that has just started. */
  function Empty(): (r: Registry)
    ensures r.forward == map[] && r.back == map[] && r.clientSessOf == map[]
  {
    Registry(map[], map[], map[], map[], map[], map[], map[], map[], map[], map[], map[], map[], map[], map[], map[])
  }

  // ------------------------------------------------------------------
  // Lookups (877-905, 2205-2215, 3346-3369, 3554-3563)

  /** CClientSess::UserId(): the id a backend session was given at login ("" before). */
  function SessUserId(r: Registry, c: ClientSess): (id: UserId)
    ensures c !in r.clientIdent ==> id == ""
  {
    if c in r.clientIdent then r.clientIdent[c].userId else ""
  }

  /** CClientSess::UserName(). */
  function SessUserName(r: Registry, c: ClientSess): (name: string)
    ensures c !in r.clientIdent ==> name == ""
  {
    if c in r.clientIdent then r.clientIdent[c].userName else ""
  }

  /** CServerSess::UserId(): the id a GUI session was given at login ("" before). */
  function GuiUserId(r: Registry, s: ServerSess): (id: UserId)
    ensures s !in r.guiIdent ==> id == ""
  {
    if s in r.guiIdent then r.guiIdent[s].userId else ""
  }

  /** CServerSess::UserName(). */
  function GuiUserName(r: Registry, s: ServerSess): (name: string)
    ensures s !in r.guiIdent ==> name == ""
  {
    if s in r.guiIdent then r.guiIdent[s].userName else ""
  }

  /** GetUserId: the id logged in under a name, "" for an unknown name. */
  function GetUserId(r: Registry, name: string): (id: UserId)
    ensures name in r.idOfName ==> id == r.idOfName[name]
    ensures name !in r.idOfName ==> id == ""
  {
    if name in r.idOfName then r.idOfName[name] else ""
  }

  /** GetUserNameById: the name of a user id, "" for an unknown id. */
  function GetUserNameById(r: Registry, id: UserId): (name: string)
    ensures id in r.nameOfId ==> name == r.nameOfId[id]
    ensures id !in r.nameOfId ==> name == ""
  {
    if id in r.nameOfId then r.nameOfId[id] else ""
  }

  /** GetClientSess: the backend session of a user, None (nullptr) when there is none. */
  function GetClientSess(r: Registry, id: UserId): (c: Option<ClientSess>)
    ensures c.Some? <==> id in r.clientSessOf
    ensures c.Some? ==> c.value == r.clientSessOf[id]
  {
    Lookup(r.clientSessOf, id)
  }

  /** Get_GUI_Sess: the GUI session of a user. */
  function GetGuiSess(r: Registry, id: UserId): (s: Option<ServerSess>)
    ensures s.Some? <==> id in r.guiSessOf
    ensures s.Some? ==> s.value == r.guiSessOf[id]
  {
    Lookup(r.guiSessOf, id)
  }

  /** GetUdpSess: the UDP session of a user. */
  function GetUdpSess(r: Registry, id: UserId): (u: Option<UdpSess>)
    ensures u.Some? <==> id in r.udpSessOf
    ensures u.Some? ==> u.value == r.udpSessOf[id]
  {
    Lookup(r.udpSessOf, id)
  }

  /** SetUserIdUserName (3346-3350): the name of a user id is replaced. */
  function WithUserName(r: Registry, id: UserId, name: string): (r': Registry)
    ensures GetUserNameById(r', id) == name
    ensures forall u :: u != id ==> GetUserNameById(r', u) == GetUserNameById(r, u)
  {
    r.(nameOfId := r.nameOfId[id := name])
  }

  // ------------------------------------------------------------------
  // Pairing of GUI sessions with their spare backend sessions

  /** The forward and back tables hold the same pairs, each the inverse of the other. */
  ghost predicate Paired(forward: map<ServerSess, ClientSess>, back: map<ClientSess, ServerSess>)
  {
    (forall g :: g in forward ==> forward[g] in back && back[forward[g]] == g) &&
    (forall c :: c in back ==> back[c] in forward && forward[back[c]] == c)
  }

  /**
   * do_accept (830-869): a new GUI session `s` is paired with a new backend
   * session `c`; both tables use insert, which keeps an existing entry.
   */
  function Accepted(r: Registry, s: ServerSess, c: ClientSess): (r': Registry)
  {
    r.(forward := InsertIfAbsent(r.forward, s, c), back := InsertIfAbsent(r.back, c, s))
  }

  /** Fresh sessions keep the tables paired, and the new pair is in both. */
  lemma AcceptedPaired(r: Registry, s: ServerSess, c: ClientSess)
    requires Paired(r.forward, r.back) && s !in r.forward && c !in r.back
    ensures Paired(Accepted(r, s, c).forward, Accepted(r, s, c).back)
    ensures Accepted(r, s, c).forward[s] == c && Accepted(r, s, c).back[c] == s
  {
  }

  // ------------------------------------------------------------------
  // Login and logout (2851-3006)

  /**
   * The tables after HSB_UserLoginRsp succeeded on backend session `c` for
   * `ident`; `udp` is the UDP session created when the user has none.
   * Every per-user entry is erased and inserted again, so the new values win.
   */
  function LoggedIn(r: Registry, c: ClientSess, ident: Ident, udp: UdpSess): Registry
  {
    var id := ident.userId;
    r.(stateOf := r.stateOf[id := LoginFinished],
       guiSessOf := if c in r.back then r.guiSessOf[id := r.back[c]] else r.guiSessOf,
       guiIdent := if c in r.back then r.guiIdent[r.back[c] := ident] else r.guiIdent,
       forward := if c in r.back then r.forward - {r.back[c]} else r.forward,
       back := r.back - {c},
       clientIdent := r.clientIdent[c := ident],
       clientSessOf := r.clientSessOf[id := c],
       idOfName := r.idOfName[ident.userName := id],
       nameOfId := r.nameOfId[id := ident.userName],
       udpSessOf := InsertIfAbsent(r.udpSessOf, id, udp),
       reconnect := r.reconnect - {c})
  }

  /**
   * After a login every lookup of the user answers with the new login: the
   * backend session, the name in both directions, the state; the GUI session
   * paired with `c` (if any) becomes the user's GUI session and takes the
   * identity; the user has a UDP session, the old one if there was one; and
   * `c` is neither paired nor waiting to reconnect.
   */
  lemma {:induction false} LoginBindsUser(r: Registry, c: ClientSess, ident: Ident, udp: UdpSess)
    ensures var r' := LoggedIn(r, c, ident, udp);
            GetClientSess(r', ident.userId) == Some(c) &&
            SessUserId(r', c) == ident.userId && SessUserName(r', c) == ident.userName &&
            GetUserId(r', ident.userName) == ident.userId &&
            GetUserNameById(r', ident.userId) == ident.userName &&
            r'.stateOf[ident.userId] == LoginFinished &&
            c !in r'.back && c !in r'.reconnect &&
            GetUdpSess(r', ident.userId) == Some(if ident.userId in r.udpSessOf then r.udpSessOf[ident.userId] else udp)
    ensures c in r.back ==>
              var r' := LoggedIn(r, c, ident, udp);
              GetGuiSess(r', ident.userId) == Some(r.back[c]) &&
              GuiUserId(r', r.back[c]) == ident.userId && GuiUserName(r', r.back[c]) == ident.userName &&
              r.back[c] !in r'.forward
    ensures c !in r.back ==> GetGuiSess(LoggedIn(r, c, ident, udp), ident.userId) == GetGuiSess(r, ident.userId)
  {
  }

  /** A login leaves the pairs of other GUI sessions in place and the tables paired. */
  lemma LoginKeepsPaired(r: Registry, c: ClientSess, ident: Ident, udp: UdpSess)
    requires Paired(r.forward, r.back)
    ensures Paired(LoggedIn(r, c, ident, udp).forward, LoggedIn(r, c, ident, udp).back)
    ensures forall g :: g in r.forward && r.forward[g] != c ==> g in LoggedIn(r, c, ident, udp).forward
  {
    var r' := LoggedIn(r, c, ident, udp);
    forall g | g in r.forward && r.forward[g] != c
      ensures g in r'.forward
    {
      if c in r.back {
        assert r.back[r.forward[g]] == g;
      }
    }
  }

  /** Last writer wins: logging the same user in twice keeps only the second login's session and name. */
  lemma LoginLastWriterWins(r: Registry, c1: ClientSess, c2: ClientSess, id: UserId, n1: string, n2: string,
                            u1: UdpSess, u2: UdpSess)
    ensures var r' := LoggedIn(LoggedIn(r, c1, Ident(id, n1), u1), c2, Ident(id, n2), u2);
            GetClientSess(r', id) == Some(c2) && GetUserNameById(r', id) == n2 &&
            GetUdpSess(r', id) == GetUdpSess(LoggedIn(r, c1, Ident(id, n1), u1), id)
  {
  }

  /**
   * The tables after HSB_UserLogoutRsp succeeded on backend session `c` for
   * user name `name`: the login request, backend session and UDP session of
   * the user the name maps to are dropped, its state becomes Logout, and the
   * GUI session still paired with `c` is unpaired.
   */
  function LoggedOut(r: Registry, c: ClientSess, name: string): Registry
  {
    var id := GetUserId(r, name);
    r.(loginReqOf := r.loginReqOf - {name},
       clientSessOf := r.clientSessOf - {id},
       stateOf := r.stateOf[id := Logout],
       udpSessOf := r.udpSessOf - {id},
       forward := if c in r.back then r.forward - {r.back[c]} else r.forward,
       back := r.back - {c})
  }

  /**
   * After a logout the user has neither backend nor UDP session and is in
   * state Logout; its names, UDP address and keep-alive time stay, which is
   * a different subset from the one a GUI close clears (see SessClosed).
   */
  lemma {:induction false} LogoutDropsUser(r: Registry, c: ClientSess, name: string)
    requires name in r.idOfName
    ensures var r' := LoggedOut(r, c, name);
            var id := r.idOfName[name];
            GetClientSess(r', id).None? && GetUdpSess(r', id).None? && r'.stateOf[id] == Logout &&
            name !in r'.loginReqOf && c !in r'.back &&
            r'.idOfName == r.idOfName && r'.nameOfId == r.nameOfId &&
            r'.udpAddrOf == r.udpAddrOf && r'.keepAliveOf == r.keepAliveOf
  {
  }

  lemma LogoutKeepsPaired(r: Registry, c: ClientSess, name: string)
    requires Paired(r.forward, r.back)
    ensures Paired(LoggedOut(r, c, name).forward, LoggedOut(r, c, name).back)
  {
  }

  // ------------------------------------------------------------------
  // A GUI session closes (3014-3040)

  /**
   * The tables after ServerSessClose of GUI session `s`: its pair is
   * dropped from both tables; the name, UDP address, UDP session, backend
   * session and keep-alive time of the user it was logged in as go, and so
   * does the id its user name maps to. Its GUI table entry stays.
   */
  function SessClosed(r: Registry, s: ServerSess): Registry
  {
    var id := GuiUserId(r, s);
    r.(back := if s in r.forward then r.back - {r.forward[s]} else r.back,
       forward := r.forward - {s},
       nameOfId := r.nameOfId - {id},
       udpAddrOf := r.udpAddrOf - {id},
       udpSessOf := r.udpSessOf - {id},
       clientSessOf := r.clientSessOf - {id},
       keepAliveOf := r.keepAliveOf - {id},
       idOfName := r.idOfName - {GuiUserName(r, s)})
  }

  /**
   * What a close clears and what it keeps: the state, the login request and
   * the GUI table entry of the user survive it, unlike a logout, which
   * clears the state and login request but keeps the names.
   */
  lemma {:induction false} CloseClearsUser(r: Registry, s: ServerSess)
    requires s in r.guiIdent
    ensures var r' := SessClosed(r, s);
            var id := r.guiIdent[s].userId;
            GetClientSess(r', id).None? && GetUdpSess(r', id).None? && GetUserNameById(r', id) == "" &&
            GetUserId(r', r.guiIdent[s].userName) == "" && id !in r'.udpAddrOf && id !in r'.keepAliveOf &&
            s !in r'.forward &&
            r'.stateOf == r.stateOf && r'.loginReqOf == r.loginReqOf && r'.guiSessOf == r.guiSessOf
  {
  }

  lemma CloseKeepsPaired(r: Registry, s: ServerSess)
    requires Paired(r.forward, r.back)
    ensures Paired(SessClosed(r, s).forward, SessClosed(r, s).back)
  {
  }

  // ------------------------------------------------------------------
  // Connection state (3047-3071)

  /**
   * HSB_NetFailed for backend session `c` at time `now`: a logged-in user
   * falls back to LoginSend and the session waits to reconnect (an earlier
   * failure time is kept); a logged-out user's session stops waiting.
   */
  function NetFailed(r: Registry, c: ClientSess, now: int): Registry
  {
    var state := Lookup(r.stateOf, SessUserId(r, c));
    r.(stateOf := if state == Some(LoginFinished) then r.stateOf[SessUserId(r, c) := LoginSend] else r.stateOf,
       reconnect := if state == Some(LoginFinished) then InsertIfAbsent(r.reconnect, c, now)
                    else if state == Some(Logout) then r.reconnect - {c}
                    else r.reconnect)
  }

  /**
   * The state machine of a failure: LoginFinished goes to LoginSend with
   * the session waiting to reconnect since `now` or earlier; Logout stays and
   * the session stops waiting; nothing else changes any table.
   */
  lemma NetFailedMoves(r: Registry, c: ClientSess, now: int, id: UserId)
    requires id == SessUserId(r, c)
    ensures id in r.stateOf && r.stateOf[id] == LoginFinished ==>
              NetFailed(r, c, now).stateOf[id] == LoginSend && c in NetFailed(r, c, now).reconnect &&
              NetFailed(r, c, now).reconnect[c] == (if c in r.reconnect then r.reconnect[c] else now)
    ensures id in r.stateOf && r.stateOf[id] == Logout ==>
              NetFailed(r, c, now).stateOf == r.stateOf && c !in NetFailed(r, c, now).reconnect
    ensures id !in r.stateOf || r.stateOf[id] == LoginSend ==>
              NetFailed(r, c, now).stateOf == r.stateOf && NetFailed(r, c, now).reconnect == r.reconnect
    ensures NetFailed(r, c, now).clientIdent == r.clientIdent
    ensures NetFailed(r, c, now).clientSessOf == r.clientSessOf
  {
    var r' := NetFailed(r, c, now);
    var state := Lookup(r.stateOf, id);
    if id in r.stateOf && r.stateOf[id] == LoginFinished {
      assert state == Some(LoginFinished);
    } else if id in r.stateOf && r.stateOf[id] == Logout {
      assert state == Some(Logout);
    } else {
      assert state != Some(LoginFinished) && state != Some(Logout);
    }
  }

  /** A second failure of the same session changes nothing more. */
  lemma NetFailedTwice(r: Registry, c: ClientSess, now: int, later: int)
    ensures NetFailed(NetFailed(r, c, now), c, later).stateOf == NetFailed(r, c, now).stateOf
    ensures NetFailed(NetFailed(r, c, now), c, later).reconnect == NetFailed(r, c, now).reconnect
  {
    var r1 := NetFailed(r, c, now);
    var id := SessUserId(r, c);
    NetFailedMoves(r, c, now, id);
    assert SessUserId(r1, c) == id;
    NetFailedMoves(r1, c, later, id);
    if id in r.stateOf && r.stateOf[id] == Logout {
      assert r1.reconnect - {c} == r1.reconnect;
    }
  }

  /** The login after a recovery takes the session out of the reconnect table again. */
  lemma RecoverThenLogin(r: Registry, c: ClientSess, now: int, ident: Ident, udp: UdpSess)
    requires SessUserId(r, c) == ident.userId
    ensures var r' := LoggedIn(NetFailed(r, c, now), c, ident, udp);
            c !in r'.reconnect && r'.stateOf[ident.userId] == LoginFinished
  {
  }

  // ------------------------------------------------------------------
  // Rendezvous tables (80-97, 776-797, 3092-3102)

  /** The first P2P start answer for a user records when it came (80-97); later answers change nothing. */
  function KeptAlive(r: Registry, id: UserId, now: int): (r': Registry)
    ensures id in r'.keepAliveOf
    ensures id in r.keepAliveOf ==> r' == r
    ensures id !in r.keepAliveOf ==> r'.keepAliveOf == r.keepAliveOf[id := now]
    ensures r'.forward == r.forward && r'.back == r.back
  {
    r.(keepAliveOf := InsertIfAbsent(r.keepAliveOf, id, now))
  }

  /** A user's friend list is replaced by the new one (erase then insert, 779-787). */
  function WithFriends(r: Registry, id: UserId, friends: seq<UserId>): (r': Registry)
    ensures id in r'.friendsOf && r'.friendsOf[id] == friends
    ensures forall u :: u != id ==> Lookup(r'.friendsOf, u) == Lookup(r.friendsOf, u)
    ensures r'.forward == r.forward && r'.back == r.back
  {
    r.(friendsOf := r.friendsOf[id := friends])
  }

  /** A queried UDP address replaces the one known for that user (erase then insert, 3100-3101). */
  function WithUdpAddr(r: Registry, id: UserId, addr: Endpoint): (r': Registry)
    ensures id in r'.udpAddrOf && r'.udpAddrOf[id] == addr
    ensures forall u :: u != id ==> Lookup(r'.udpAddrOf, u) == Lookup(r.udpAddrOf, u)
    ensures r'.forward == r.forward && r'.back == r.back
  {
    r.(udpAddrOf := r.udpAddrOf[id := addr])
  }

  /** A login request is remembered under its user name, replacing an earlier one (2063-2066). */
  function WithLoginReq(r: Registry, l: Credentials): (r': Registry)
    ensures l.userName in r'.loginReqOf && r'.loginReqOf[l.userName] == l
    ensures forall n :: n != l.userName ==> Lookup(r'.loginReqOf, n) == Lookup(r.loginReqOf, n)
    ensures r'.forward == r.forward && r'.back == r.back
  {
    r.(loginReqOf := r.loginReqOf[l.userName := l])
  }
}
