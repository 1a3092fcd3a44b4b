/**
 The classes Server_Main and AsyncServer with their maps, list and queues, and the loops of
 Update over queues that grow while they are drained, each tied to its operation in SessionModel.
 */
module SessionObjects {
  import opened Bytes
  import opened SessionModel

  class ServerMain {
    var players: map<uint32, Player>
    var rosters: Rosters                       // m_players of each match, m_active_match of each player

    constructor ()
      ensures players == map[] && rosters == Rosters(map[], map[])
    {
      players, rosters := map[], Rosters(map[], map[]);
    }

    /** expired() on a weak pointer to p, while running code owns held. */
    predicate Expired(p: Player?, held: set<Player>)
      reads this
    {
      p == null || (p !in players.Values && p !in Owned(rosters) && p !in held)
    }

    /** A session that already has a live player takes it out of its active match. */
    method UserConnected(s: SocketUser)
      modifies this`rosters
      ensures rosters == WithoutUserOf(s, old(rosters), old(Expired(s.state.user, {})))
      ensures var p, r := s.state.user, old(rosters);
              if s.state.hasUser && !old(Expired(s.state.user, {})) && p in r.active
                 && r.active[p] in r.players && p.userId in r.players[r.active[p]]
              then rosters == Rosters(r.players[r.active[p] := r.players[r.active[p]] - {p.userId}], r.active - {p})
              else rosters == r
    {
      if s.state.hasUser && !Expired(s.state.user, {}) {
        var player := s.state.user;
        if player in rosters.active {
          rosters := LeaveMatch(rosters, rosters.active[player], player);
        }
      }
    }

    method UserDisconnected(s: SocketUser)
      modifies this`players
      ensures players == if old(Expired(s.state.user, {})) then old(players)
                         else old(players) - {s.state.user.userId}
    {
      if !Expired(s.state.user, {}) {
        if s.state.user.userId in players {
          players := players - {s.state.user.userId};
        } else {
          assert players - {s.state.user.userId} == players;
        }
      }
    }
  }

  /** The rosters after s has connected: only a living player that is active in a match leaves it. */
  function WithoutUserOf(s: SocketUser, rosters: Rosters, expired: bool): Rosters
    reads s
  {
    var p := s.state.user;
    if s.state.hasUser && p != null && !expired && p in rosters.active
    then LeaveMatch(rosters, rosters.active[p], p)
    else rosters
  }

  /** list holds the sessions of users, each once, in some order. */
  ghost predicate Lists(list: seq<SocketUser>, users: map<string, SocketUser>) {
    && |list| == |users|
    && (forall s :: s in list ==> s in users.Values)
    && (forall s :: s in users.Values ==> s in list)
  }

  ghost predicate Keyed(users: map<string, SocketUser>) {
    forall t :: t in users ==> users[t].token == t
  }

  /** The sessions waiting to be added are not live. */
  ghost predicate Pending(users: map<string, SocketUser>, addQueue: seq<SocketUser>) {
    forall s :: s in addQueue ==> s.token !in users
  }

  /** The live sessions and those waiting to be added. */
  ghost function KnownFrom(users: map<string, SocketUser>, addQueue: seq<SocketUser>): set<SocketUser> {
    users.Values + (set s | s in addQueue)
  }

  lemma KnownAfterConnect(users: map<string, SocketUser>, addQueue: seq<SocketUser>, s: SocketUser)
    ensures KnownFrom(users, addQueue + [s]) == KnownFrom(users, addQueue) + {s}
  {
  }

  lemma KnownAfterAdd(users: map<string, SocketUser>, addQueue: seq<SocketUser>)
    requires addQueue != [] && addQueue[0].token !in users
    ensures KnownFrom(users[addQueue[0].token := addQueue[0]], addQueue[1..]) == KnownFrom(users, addQueue)
  {
    var s := addQueue[0];
    var more := users[s.token := s];
    assert addQueue == [s] + addQueue[1..];
    assert forall k :: k in more.Values ==> k in users.Values || k == s;
    assert forall t :: t in users ==> more[t] == users[t];
    assert more[s.token] == s;
  }

  lemma KnownAfterRemove(users: map<string, SocketUser>, addQueue: seq<SocketUser>, token: string)
    requires token in users && Keyed(users) && Pending(users, addQueue)
    ensures KnownFrom(users - {token}, addQueue) == KnownFrom(users, addQueue) - {users[token]}
  {
    var fewer := users - {token};
    assert forall t :: t in fewer ==> fewer[t] == users[t];
    assert forall k :: k in users.Values && k != users[token] ==> k.token in fewer && fewer[k.token] == k;
  }

  ghost function States(known: set<SocketUser>): (r: map<SocketUser, Session>)
    reads known
    ensures r.Keys == known && forall s :: s in known ==> r[s] == s.state
  {
    map s | s in known :: s.state
  }

  lemma StatesStay(known: set<SocketUser>, was: map<SocketUser, Session>)
    requires was.Keys == known && forall k :: k in known ==> k.state == was[k]
    ensures States(known) == was
  {
  }

  lemma OthersStay(known: set<SocketUser>, s: SocketUser, was: map<SocketUser, Session>)
    requires was.Keys == known && s in known && forall k :: k in known && k != s ==> k.state == was[k]
    ensures States(known) == was[s := s.state]
  {
  }

  lemma StatesWithout(others: set<SocketUser>, s: SocketUser, was: map<SocketUser, Session>)
    requires was.Keys == others + {s} && s !in others && forall k :: k in others ==> k.state == was[k]
    ensures States(others) == was - {s}
  {
  }

  lemma StatesWith(known: set<SocketUser>, s: SocketUser, was: map<SocketUser, Session>)
    requires was.Keys == known && s !in known && forall k :: k in known ==> k.state == was[k]
    ensures States(known + {s}) == was[s := s.state]
  {
  }

  /** e has the sessions of d, except for what has become of s. */
  ghost predicate OnlyChanged(d: Dir, s: SocketUser, e: Dir) {
    && e.sessions.Keys == d.sessions.Keys
    && forall k :: k in d.sessions && k != s ==> e.sessions[k] == d.sessions[k]
  }

  lemma ConnectIs(d: Dir, s: SocketUser, id: uint16, e: Dir)
    requires s !in d.sessions && e.sessions == d.sessions[s := Session(true, true, id, false, false, null)]
    requires e == d.(sessions := e.sessions, udpIds := d.udpIds[id := s], addQueue := d.addQueue + [s])
    ensures e == Connect(d, s, id)
  {
  }

  lemma CloseIs(d: Dir, s: SocketUser, e: Dir)
    requires s in d.sessions && OnlyChanged(d, s, e)
    requires var r := d.sessions[s];
             if r.connected
             then e.sessions[s] == r.(connected := false, udpEnabled := false)
                  && e == d.(sessions := e.sessions, removeQueue := d.removeQueue + [s.token])
             else e.sessions[s] == r && e == d.(sessions := e.sessions)
    ensures e == Close(d, s)
  {
    assert e.sessions == Close(d, s).sessions;
  }

  lemma AddFrontIs(d: Dir, e: Dir)
    requires Inv(d) && d.addQueue != []
    requires e == d.(users := d.users[d.addQueue[0].token := d.addQueue[0]], addQueue := d.addQueue[1..])
    ensures e == AddFront(d)
  {
  }

  lemma SessionRemoved(d: Dir, s: SocketUser, e: Dir)
    requires s.token in d.users && s == d.users[s.token] && s in d.sessions
    requires e.sessions == d.sessions - {s}
    requires e.removeQueue == if d.sessions[s].connected then d.removeQueue + [s.token] else d.removeQueue
    requires e.players == PlayersWithout(d, s)
    requires e == d.(sessions := e.sessions, removeQueue := e.removeQueue, players := e.players,
                     users := d.users - {s.token}, udpIds := d.udpIds - {d.sessions[s].udpId})
    ensures e == RemoveSession(d, s.token)
  {
    assert e.sessions == RemoveSession(d, s.token).sessions;
  }

  lemma RemoveFrontIs(d: Dir, e: Dir)
    requires d.removeQueue != [] && e == RemoveSession(d.(removeQueue := d.removeQueue[1..]), d.removeQueue[0])
    ensures e == RemoveFront(d)
  {
  }

  lemma Accepted(d: Dir, s: SocketUser, p: Player, e: Dir)
    requires s in d.sessions && OnlyChanged(d, s, e) && p.userId !in d.players
    requires e.sessions[s] == d.sessions[s].(hasUser := true, user := p, authenticated := true)
    requires e == d.(sessions := e.sessions, players := d.players[p.userId := p])
    ensures e == Identify(d, s, p, true, true)
  {
    assert e.sessions == Identify(d, s, p, true, true).sessions;
  }

  lemma Rejected(d: Dir, s: SocketUser, p: Player, identified: bool, authorized: bool, e: Dir)
    requires s in d.sessions && OnlyChanged(d, s, e) && !(identified && authorized && p.userId !in d.players)
    requires e.sessions[s] == if d.sessions[s].connected
                              then d.sessions[s].(hasUser := true, user := p, connected := false, udpEnabled := false)
                              else d.sessions[s].(hasUser := true, user := p)
    requires e.removeQueue == if d.sessions[s].connected then d.removeQueue + [s.token] else d.removeQueue
    requires e == d.(sessions := e.sessions, removeQueue := e.removeQueue)
    ensures e == Identify(d, s, p, identified, authorized)
  {
    assert e.sessions == Identify(d, s, p, identified, authorized).sessions;
  }

  lemma NextToAdd(d: Dir)
    requires Inv(d) && d.addQueue != []
    ensures var s := d.addQueue[0];
            s in d.sessions && !d.sessions[s].hasUser && s.token !in d.users
    ensures Keyed(d.users)
  {
    assert d.addQueue[0] in d.addQueue;
  }

  lemma UsersAreKeyed(d: Dir)
    requires Inv(d)
    ensures Keyed(d.users)
  {
  }

  lemma TokenIsFree(d: Dir, s: SocketUser)
    requires Inv(d) && forall k :: k in d.sessions ==> k.token != s.token
    ensures s.token !in d.users
  {
  }

  /** The player has given up its session. */
  predicate LetGo(p: Player)
    reads p
  {
    !p.isConnected && p.socketUser == null
  }

  /** From d to e a session that p is linked to, and still connected if so asked, went. */
  ghost predicate Lost(d: Dir, e: Dir, p: Player, connected: bool) {
    exists s :: s in d.sessions && s !in e.sessions && d.sessions[s].user == p
                && (connected ==> d.sessions[s].connected)
  }

  /** e has some of the sessions of d, as they were. */
  ghost predicate Within(e: Dir, d: Dir) {
    forall s :: s in e.sessions ==> s in d.sessions && e.sessions[s] == d.sessions[s]
  }

  lemma WithinFacts(x: Dir, e: Dir, d: Dir, linked: set<Player>)
    requires Within(x, e) && Within(e, d)
    ensures Within(x, d) && x.sessions.Keys <= e.sessions.Keys
    ensures LinksWithin(e, linked) ==> LinksWithin(x, linked)
  {
  }

  lemma LostInTwo(d: Dir, e: Dir, x: Dir, p: Player, connected: bool)
    requires Within(e, d) && Within(x, e)
    ensures Lost(d, x, p, connected) <==> Lost(d, e, p, connected) || Lost(e, x, p, connected)
  {
  }

  ghost predicate LinksWithin(d: Dir, linked: set<Player>) {
    forall k :: k in d.sessions && d.sessions[k].user != null ==> d.sessions[k].user in linked
  }

  lemma AddFrontShrinks(d: Dir)
    requires d.addQueue != []
    ensures AddFront(d).sessions == d.sessions && AddFront(d).rosters == d.rosters
  {
  }

  lemma RemoveFrontShrinks(d: Dir)
    requires Inv(d) && d.removeQueue != [] && d.addQueue == []
    ensures RemoveFront(d).addQueue == []
    ensures Within(RemoveFront(d), d) && RemoveFront(d).rosters == d.rosters
  {
    RemoveFrontExact(d);
  }

  lemma DrainAddsUnfold(d: Dir)
    ensures DrainAdds(d) == if d.addQueue == [] then d else DrainAdds(AddFront(d))
  {
  }

  lemma DrainRemovesUnfold(d: Dir)
    ensures DrainRemoves(d) == if d.removeQueue == [] then d else DrainRemoves(RemoveFront(d))
  {
  }

  /** A player's link to its session. */
  datatype Contact = Contact(isConnected: bool, socketUser: SocketUser?)

  const NO_CONTACT := Contact(false, null)

  ghost function Contacts(players: set<Player>): (r: map<Player, Contact>)
    reads players
    ensures r.Keys == players && forall p :: p in players ==> r[p] == Contact(p.isConnected, p.socketUser)
  {
    map p | p in players :: Contact(p.isConnected, p.socketUser)
  }

  /**
   From d to e the players follow their sessions: one that a match owns and whose connected
   session went has given it up; one none of whose sessions went is as it was.
   */
  ghost predicate Follow(d: Dir, e: Dir, before: map<Player, Contact>, after: map<Player, Contact>) {
    && after.Keys == before.Keys
    && forall p :: p in before ==>
         && (after[p] == before[p] || after[p] == NO_CONTACT)
         && (!Lost(d, e, p, false) ==> after[p] == before[p])
         && (Lost(d, e, p, true) && p in Owned(e.rosters) ==> after[p] == NO_CONTACT)
  }

  lemma FollowInTwo(d: Dir, e: Dir, x: Dir, before: map<Player, Contact>, between: map<Player, Contact>,
                    after: map<Player, Contact>)
    requires Within(e, d) && Within(x, e) && x.rosters == e.rosters
    requires Follow(d, e, before, between) && Follow(e, x, between, after)
    ensures Follow(d, x, before, after)
  {
    forall p | p in before
      ensures (Lost(d, x, p, false) <==> Lost(d, e, p, false) || Lost(e, x, p, false))
      ensures (Lost(d, x, p, true) <==> Lost(d, e, p, true) || Lost(e, x, p, true))
    {
      LostInTwo(d, e, x, p, false);
      LostInTwo(d, e, x, p, true);
    }
    hide Lost, Within, Owned;
  }

  lemma FollowFrom(d: Dir, popped: Dir, e: Dir, before: map<Player, Contact>, after: map<Player, Contact>)
    requires popped.sessions == d.sessions && Follow(popped, e, before, after)
    ensures Follow(d, e, before, after)
  {
    forall p, c ensures Lost(d, e, p, c) <==> Lost(popped, e, p, c) {
    }
    hide Lost, Owned;
  }

  /** Nobody, or s, went; only the player of s may have changed. */
  lemma FollowOne(d: Dir, s: SocketUser, e: Dir, before: map<Player, Contact>, after: map<Player, Contact>)
    requires s in d.sessions && e.sessions == d.sessions - {s} && after.Keys == before.Keys
    requires forall p :: p in before && p != d.sessions[s].user ==> after[p] == before[p]
    requires d.sessions[s].user in before ==>
        var p := d.sessions[s].user;
        && (after[p] == before[p] || after[p] == NO_CONTACT)
        && (d.sessions[s].connected && p in Owned(e.rosters) ==> after[p] == NO_CONTACT)
    ensures Follow(d, e, before, after)
  {
    hide Owned;
  }

  lemma FollowNone(d: Dir, e: Dir, before: map<Player, Contact>)
    requires e.sessions.Keys >= d.sessions.Keys
    ensures Follow(d, e, before, before)
  {
    hide Owned;
  }

  class AsyncServer {
    const server: ServerMain
    var users: map<string, SocketUser>         // m_socket_users
    var udpIds: map<uint16, SocketUser>        // m_udp_id_map
    var userList: seq<SocketUser>              // m_Socket_user_list
    var addQueue: seq<SocketUser>
    var removeQueue: seq<string>

    ghost function Known(): set<SocketUser>
      reads this
    {
      KnownFrom(users, addQueue)
    }

    /** The players the known sessions link to. */
    ghost function Linked(): set<Player>
      reads this, Known()
    {
      set s | s in Known() && s.state.user != null :: s.state.user
    }

    ghost function View(): Dir
      reads this, server, Known()
    {
      Dir(States(Known()), users, udpIds, addQueue, removeQueue, server.players, server.rosters)
    }

    ghost predicate Valid()
      reads this, server, Known()
    {
      Inv(View()) && Lists(userList, users)
    }

    constructor (server: ServerMain)
      requires server.players == map[] && server.rosters == Rosters(map[], map[])
      ensures Valid() && this.server == server && View() == Init()
    {
      this.server := server;
      users, udpIds, userList, addQueue, removeQueue := map[], map[], [], [], [];
    }

    method RemovePlayer(token: string)
      modifies this`removeQueue
      ensures removeQueue == old(removeQueue) + [token]
    {
      removeQueue := removeQueue + [token];
    }

    /** HandleStartConnect_Finished, for a session whose token nobody else has. */
    method HandleStartConnectFinished(s: SocketUser, successful: bool)
      requires Valid() && s.state == Session(true, false, 0, false, false, null)
      requires s !in Known() && forall k :: k in Known() ==> k.token != s.token
      requires exists k: uint16 :: k !in udpIds
      modifies this`addQueue, this`udpIds, s
      ensures Valid()
      ensures !successful ==> View() == old(View())
      ensures successful ==> s.state.udpId !in old(udpIds) && View() == Connect(old(View()), s, s.state.udpId)
    {
      hide Inv, Connect, KnownFrom;
      ghost var before, known := View(), Known();
      if successful {
        TokenIsFree(before, s);
        var udpId: uint16 :| udpId !in udpIds;
        Enroll(s, udpId, known);
        KnownAfterConnect(before.users, before.addQueue, s);
        StatesWith(known, s, before.sessions);
        hide States, Keyed;
        ConnectIs(before, s, udpId, View());
        ConnectKeeps(before, s, udpId);
      }
    }

    /** The statements of the success branch once the id is found. */
    method Enroll(s: SocketUser, udpId: uint16, ghost known: set<SocketUser>)
      modifies this`addQueue, this`udpIds, s
      ensures forall k :: k in known && k != s ==> k.state == old(k.state)
      ensures s.state == old(s.state).(udpId := udpId, udpEnabled := true)
      ensures addQueue == old(addQueue) + [s] && udpIds == old(udpIds)[udpId := s]
    {
      addQueue := addQueue + [s];
      s.state := s.state.(udpId := udpId);
      udpIds := udpIds[udpId := s];
      s.state := s.state.(udpEnabled := true);
    }

    /** SocketUser::Close; held are the players owned by the code that calls it. */
    method CloseSession(s: SocketUser, held: set<Player>, ghost known: set<SocketUser>)
      modifies this`removeQueue, s, s.state.user
      ensures forall k :: k in known && k != s ==> k.state == old(k.state)
      ensures s.state == if old(s.state.connected) then old(s.state).(connected := false, udpEnabled := false)
                         else old(s.state)
      ensures removeQueue == if old(s.state.connected) then old(removeQueue) + [s.token] else old(removeQueue)
      ensures var p := s.state.user;
              p != null ==>
                if old(s.state.connected) && !server.Expired(p, held) then LetGo(p) else unchanged(p)
    {
      if s.state.connected {
        s.state := s.state.(connected := false);
        s.state := s.state.(udpEnabled := false);
        if !server.Expired(s.state.user, held) {
          s.state.user.Disconnected();
        }
        RemovePlayer(s.token);
      }
    }

    /** A call of Close from outside the handlers. */
    method CloseKnown(s: SocketUser)
      requires Valid() && s in Known()
      modifies this`removeQueue, s, s.state.user
      ensures Valid() && View() == Close(old(View()), s)
      ensures var p := s.state.user;
              p != null ==>
                if old(s.state.connected) && !server.Expired(p, {}) then LetGo(p) else unchanged(p)
    {
      hide Inv, Close, KnownFrom;
      ghost var before, known := View(), Known();
      CloseSession(s, {}, known);
      OthersStay(known, s, before.sessions);
      hide States;
      CloseIs(before, s, View());
      CloseKeeps(before, s);
    }

    /** PopulateUserList, in whatever order the hash map is iterated. */
    method PopulateUserList(ghost linked: set<Player>)
      requires Keyed(users)
      modifies this`userList
      ensures Lists(userList, users) && View() == old(View())
      ensures Contacts(linked) == old(Contacts(linked))
    {
      ghost var known, was := Known(), States(Known());
      FillUserList();
      assert Known() == known;
      StatesStay(known, was);
    }

    /** The loop of PopulateUserList. */
    method FillUserList()
      requires Keyed(users)
      modifies this`userList
      ensures Lists(userList, users)
    {
      userList := [];
      var keys := users.Keys;
      while keys != {}
        invariant keys <= users.Keys && |userList| + |keys| == |users|
        invariant forall s :: s in userList ==> s in users.Values
        invariant forall s :: s in users.Values ==> (s in userList <==> s.token !in keys)
        decreases keys
      {
        var k :| k in keys;
        userList := userList + [users[k]];
        keys := keys - {k};
      }
    }

    method DoAddPlayer(s: SocketUser, ghost known: set<SocketUser>)
      requires Keyed(users)
      modifies this`users, this`userList, server`rosters
      ensures users == if s.token in old(users) then old(users) else old(users)[s.token := s]
      ensures s.token !in old(users) ==> Lists(userList, users)
      ensures s.token in old(users) ==> userList == old(userList)
      ensures server.rosters == if s.token in old(users) then old(server.rosters)
                                else WithoutUserOf(s, old(server.rosters), old(server.Expired(s.state.user, {})))
      ensures forall k :: k in known ==> k.state == old(k.state)
    {
      if s.token !in users {
        users := users[s.token := s];
        server.UserConnected(s);
        PopulateUserList({});
      }
    }

    /** linked are the players that sessions link to. */
    method DoRemovePlayer(token: string, ghost linked: set<Player>)
      requires Lists(userList, users) && LinksWithin(View(), linked)
      requires Keyed(users) && Pending(users, addQueue)
      modifies this`users, this`udpIds, this`userList, this`removeQueue, server`players, Known(), linked
      ensures View() == RemoveSession(old(View()), token) && Lists(userList, users)
      ensures Follow(old(View()), View(), old(Contacts(linked)), Contacts(linked))
    {
      assert forall k :: k in users.Values ==> k in Known();
      FollowNone(View(), View(), Contacts(linked));
      hide KnownFrom, Lists, Follow;
      if token in users {
        hide RemoveSession;
        var s := users[token];
        RemoveLive(s, linked);
        PopulateUserList(linked);
      }
    }

    /** The session is unregistered everywhere: player map, both directory maps, its own flags. */
    method RemoveLive(s: SocketUser, ghost linked: set<Player>)
      requires s.token in users && users[s.token] == s && LinksWithin(View(), linked)
      requires Keyed(users) && Pending(users, addQueue)
      modifies this`users, this`udpIds, this`removeQueue, server`players, s, linked
      ensures View() == RemoveSession(old(View()), s.token)
      ensures Keyed(users)
      ensures Follow(old(View()), View(), old(Contacts(linked)), Contacts(linked))
    {
      ghost var before, others, contacts := View(), Known() - {s}, Contacts(linked);
      hide RemoveSession;
      KnownAfterRemove(users, addQueue, s.token);
      hide KnownFrom;
      Unregister(s, others);
      assert Known() == others;
      StatesWithout(others, s, before.sessions);
      hide States, LinksWithin;
      SessionRemoved(before, s, View());
      assert View().sessions == before.sessions - {s};
      FollowOne(before, s, View(), contacts, Contacts(linked));
    }

    /** The statements of DoRemovePlayer for a live session. */
    method Unregister(s: SocketUser, ghost others: set<SocketUser>)
      modifies this`users, this`udpIds, this`removeQueue, server`players, s, s.state.user
      ensures forall k :: k in others && k != s ==> k.state == old(k.state)
      ensures users == old(users) - {s.token} && udpIds == old(udpIds) - {old(s.state.udpId)}
      ensures removeQueue == if old(s.state.connected) then old(removeQueue) + [s.token] else old(removeQueue)
      ensures server.players == if old(server.Expired(s.state.user, {})) then old(server.players)
                                else old(server.players) - {old(s.state.user).userId}
      ensures s.state.user == old(s.state.user)
      ensures var p := s.state.user;
              p != null ==>
                if old(s.state.connected) && !server.Expired(p, {}) then LetGo(p) else unchanged(p)
    {
      var udpId := s.state.udpId;
      server.UserDisconnected(s);
      CloseSession(s, {}, others);
      users := users - {s.token};
      udpIds := udpIds - {udpId};
    }

    method AddNext()
      requires Valid() && addQueue != []
      modifies this`users, this`userList, this`addQueue, server`rosters
      ensures Valid() && View() == AddFront(old(View()))
      ensures Known() == old(Known()) && addQueue == old(addQueue)[1..]
    {
      hide Inv, AddFront, KnownFrom, Lists, Keyed;
      ghost var before, known := View(), Known();
      NextToAdd(before);
      var s := addQueue[0];
      addQueue := addQueue[1..];
      DoAddPlayer(s, known);
      StatesStay(known, before.sessions);
      hide States;
      KnownAfterAdd(before.users, before.addQueue);
      AddFrontKeeps(before);
      AddFrontIs(before, View());
    }

    /** One turn of the remove loop; linked are the players that sessions link to. */
    method RemoveNext(ghost linked: set<Player>)
      requires Valid() && addQueue == [] && removeQueue != [] && LinksWithin(View(), linked)
      modifies this`users, this`udpIds, this`userList, this`removeQueue, server`players, Known(), linked
      ensures Valid() && View() == RemoveFront(old(View()))
      ensures Follow(old(View()), View(), old(Contacts(linked)), Contacts(linked))
    {
      hide Inv, RemoveFront, RemoveSession, KnownFrom;
      ghost var before := View();
      RemoveFrontKeeps(before);
      UsersAreKeyed(before);
      var token := removeQueue[0];
      removeQueue := removeQueue[1..];
      assert View() == before.(removeQueue := removeQueue);
      ghost var popped, contacts := View(), Contacts(linked);
      DoRemovePlayer(token, linked);
      FollowFrom(before, popped, View(), contacts, Contacts(linked));
      hide Follow;
      RemoveFrontIs(before, View());
    }

    /** The two drains of Update. */
    method Update()
      requires Valid()
      modifies this, server, Known(), Linked()
      ensures Valid() && View() == SessionModel.Update(old(View()))
      ensures Follow(old(View()), View(), old(Contacts(Linked())), Contacts(old(Linked())))
    {
      ghost var linked := Linked();
      assert LinksWithin(View(), linked);
      hide Inv, DrainAdds, DrainRemoves, Lists, Follow, LinksWithin, KnownFrom;
      ghost var before, contacts := View(), Contacts(linked);
      DrainAddQueue(linked);
      ghost var added := View();
      DrainRemoveQueue(linked);
      FollowFrom(before, added, View(), contacts, Contacts(linked));
    }

    /** The add loop; linked are the players that sessions link to. */
    method DrainAddQueue(ghost linked: set<Player>)
      requires Valid() && LinksWithin(View(), linked)
      modifies this`users, this`userList, this`addQueue, server`rosters
      ensures Valid() && View() == DrainAdds(old(View())) && addQueue == [] && Known() == old(Known())
      ensures View().sessions == old(View()).sessions && View().rosters == old(View()).rosters
      ensures LinksWithin(View(), linked) && Contacts(linked) == old(Contacts(linked))
    {
      ghost var d, known := View(), Known();
      hide Inv, AddFront, DrainAdds, Lists, KnownFrom;
      while addQueue != []
        invariant Valid() && DrainAdds(View()) == DrainAdds(d) && Known() == known
        invariant View().sessions == d.sessions && View().rosters == d.rosters
        decreases |addQueue|
      {
        DrainAddsUnfold(View());
        AddFrontShrinks(View());
        AddNext();
      }
      DrainAddsUnfold(View());
    }

    /** The remove loop, over a queue that its turns may push onto. */
    method DrainRemoveQueue(ghost linked: set<Player>)
      requires Valid() && addQueue == [] && LinksWithin(View(), linked)
      modifies this`users, this`udpIds, this`userList, this`removeQueue, server`players, Known(), linked
      ensures Valid() && View() == DrainRemoves(old(View()))
      ensures Follow(old(View()), View(), old(Contacts(linked)), Contacts(linked))
    {
      ghost var d, known, contacts := View(), Known(), Contacts(linked);
      hide Inv, RemoveFront, DrainRemoves, Lists, KnownFrom;
      FollowNone(d, d, contacts);
      assert Within(d, d);
      hide Follow, Within, LinksWithin;
      while removeQueue != []
        invariant Valid() && addQueue == [] && DrainRemoves(View()) == DrainRemoves(d)
        invariant Known() <= known && LinksWithin(View(), linked)
        invariant Within(View(), d) && View().rosters == d.rosters && Follow(d, View(), contacts, Contacts(linked))
        decreases |users|, |removeQueue|
      {
        ghost var e, between := View(), Contacts(linked);
        RemoveFrontDecreases(e);
        DrainRemovesUnfold(e);
        RemoveFrontShrinks(e);
        RemoveNext(linked);
        WithinFacts(View(), e, d, linked);
        FollowInTwo(d, e, View(), contacts, between, Contacts(linked));
      }
      DrainRemovesUnfold(View());
    }

    /** UserIdentify with SetUser and PlayerAuthenticated; the new player is owned by the handler until it returns. */
    method UserIdentify(s: SocketUser, userId: uint32, identified: bool, authorized: bool) returns (p: Player)
      requires Valid() && s in Known() && Live(View(), s)
      modifies this`removeQueue, server`players, s
      ensures Valid() && fresh(p) && p.userId == userId
      ensures View() == Identify(old(View()), s, p, identified, authorized)
      ensures identified && authorized && userId !in old(server.players) ==>
          p.socketUser == s && p.isConnected && s.state.authenticated && server.players[userId] == p
      ensures !(identified && authorized && userId !in old(server.players)) && old(s.state.connected) ==>
          p.socketUser == null && !s.state.connected
    {
      hide Inv, Identify, KnownFrom;
      ghost var before, known, linked := View(), Known(), Linked();
      assert LinksWithin(before, linked);
      p := Identity(s, userId, identified, authorized, known);
      assert p !in linked && Unreferenced(before, p);
      IdentifyKeeps(before, s, p, identified, authorized);
      OthersStay(known, s, before.sessions);
      hide States, Unreferenced, LinksWithin;
      if identified && authorized && userId !in before.players {
        Accepted(before, s, p, View());
      } else {
        Rejected(before, s, p, identified, authorized, View());
      }
    }

    /** The statements of UserIdentify. */
    method Identity(s: SocketUser, userId: uint32, identified: bool, authorized: bool, ghost known: set<SocketUser>)
      returns (p: Player)
      modifies this`removeQueue, server`players, s
      ensures fresh(p) && p.userId == userId
      ensures forall k :: k in known && k != s ==> k.state == old(k.state)
      ensures var r := old(s.state).(hasUser := true, user := p);
              if identified && authorized && p.userId !in old(server.players) then
                && s.state == r.(authenticated := true) && removeQueue == old(removeQueue)
                && server.players == old(server.players)[p.userId := p] && p.socketUser == s && p.isConnected
              else
                && server.players == old(server.players)
                && s.state == (if r.connected then r.(connected := false, udpEnabled := false) else r)
                && removeQueue == (if r.connected then old(removeQueue) + [s.token] else old(removeQueue))
                && (r.connected ==> p.socketUser == null)
    {
      p := new Player(userId);
      SetUser(s, p, known);
      if identified {
        PlayerAuthenticated(p, s, authorized, known);
      } else {
        CloseSession(s, {p}, known);
      }
    }

    /** SocketUser::SetUser. */
    method SetUser(s: SocketUser, p: Player, ghost known: set<SocketUser>)
      modifies s, p
      ensures forall k :: k in known && k != s ==> k.state == old(k.state)
      ensures s.state == old(s.state).(hasUser := true, user := p) && p.socketUser == s && p.isConnected
    {
      s.state := s.state.(user := p);
      p.SetSocketUser(s);
      s.state := s.state.(hasUser := true);
    }

    method PlayerAuthenticated(p: Player, s: SocketUser, authorized: bool, ghost known: set<SocketUser>)
      requires s.state.user == p && p.socketUser == s && p.isConnected
      modifies this`removeQueue, server`players, s, p
      ensures forall k :: k in known && k != s ==> k.state == old(k.state)
      ensures authorized && p.userId !in old(server.players) ==>
          s.state == old(s.state).(authenticated := true) && removeQueue == old(removeQueue)
          && server.players == old(server.players)[p.userId := p] && p.socketUser == s && p.isConnected
      ensures !(authorized && p.userId !in old(server.players)) ==>
          && server.players == old(server.players)
          && s.state == (if old(s.state.connected) then old(s.state).(connected := false, udpEnabled := false)
                         else old(s.state))
          && removeQueue == (if old(s.state.connected) then old(removeQueue) + [s.token] else old(removeQueue))
          && (old(s.state.connected) ==> p.socketUser == null)
    {
      if authorized && p.userId !in server.players {
        s.state := s.state.(authenticated := true);
        server.players := server.players[p.userId := p];
      } else {
        CloseSession(s, {p}, known);
      }
    }
  }
}
