/**
 The session directory and the login rule as a step system on values: AsyncServer with its two
 maps and deferred queues (source/Network/AsyncServer.cpp), SocketUser
 (source/Network/AsyncServer_SocketUser.cpp) and the player map of Server_Main
 (source/Server_Main.cpp). Objects are their identities; what changes in a session is a record.
 A weak pointer has expired when no shared pointer owns its object; the owners of a Player are
 the player map, the rosters of the matches and the local variables of a running handler.
 */
module SessionModel {
  import opened Bytes

  class Player {
    const userId: uint32
    var isConnected: bool
    var socketUser: SocketUser?

    constructor (userId: uint32)
      ensures this.userId == userId && socketUser == null
    {
      this.userId, isConnected, socketUser := userId, false, null;
    }

    method SetSocketUser(s: SocketUser)
      modifies this
      ensures isConnected && socketUser == s
    {
      isConnected, socketUser := true, s;
    }

    method Disconnected()
      modifies this
      ensures !isConnected && socketUser == null
    {
      isConnected, socketUser := false, null;
    }
  }

  /** user is the target of the weak pointer, alive or not. */
  datatype Session = Session(
    connected: bool, udpEnabled: bool, udpId: uint16,
    authenticated: bool, hasUser: bool, user: Player?)

  class SocketUser {
    const token: string
    var state: Session

    constructor (token: string)
      ensures this.token == token && state == Session(true, false, 0, false, false, null)
    {
      this.token, state := token, Session(true, false, 0, false, false, null);
    }
  }

  /** The rosters of the live matches, by match id and user id, and each player's active match. */
  datatype Rosters = Rosters(players: map<string, map<uint32, Player>>, active: map<Player, string>)

  /** The players that a match owns. */
  function Owned(r: Rosters): set<Player> {
    set m, id | m in r.players && id in r.players[m] :: r.players[m][id]
  }

  /** Match::RemovePlayer: the entry is looked up, and erased, by user id. */
  function LeaveMatch(r: Rosters, m: string, p: Player): Rosters {
    if m in r.players && p.userId in r.players[m]
    then Rosters(r.players[m := r.players[m] - {p.userId}], r.active - {p})
    else r
  }

  /** Match::JoinPlayer, for an open match. */
  function EnterMatch(r: Rosters, m: string, p: Player): Rosters
    requires m in r.players
  {
    var roster: map<uint32, Player> := r.players[m][p.userId := p];
    Rosters(r.players[m := roster], r.active[p := m])
  }

  /** Only the entry under the user id goes. */
  lemma LeavingFrees(r: Rosters, m: string, p: Player)
    ensures Owned(LeaveMatch(r, m, p)) <= Owned(r)
    ensures forall q :: q in Owned(r) && q.userId != p.userId && IdsMatch(r) ==> q in Owned(LeaveMatch(r, m, p))
    ensures m in LeaveMatch(r, m, p).players ==> p.userId !in LeaveMatch(r, m, p).players[m]
  {
    var x := LeaveMatch(r, m, p);
    forall q | q in Owned(r) && q.userId != p.userId && IdsMatch(r) ensures q in Owned(x) {
      var n, id :| n in r.players && id in r.players[n] && r.players[n][id] == q;
      assert n in x.players && id in x.players[n] && x.players[n][id] == q;
    }
  }

  ghost predicate IdsMatch(r: Rosters) {
    forall m, id :: m in r.players && id in r.players[m] ==> r.players[m][id].userId == id
  }

  /** The match comes to own p, in place of whoever had the same user id. */
  lemma EnteringOwns(r: Rosters, m: string, p: Player)
    requires m in r.players
    ensures Owned(EnterMatch(r, m, p)) <= Owned(r) + {p}
    ensures p in Owned(EnterMatch(r, m, p)) && p in EnterMatch(r, m, p).active && EnterMatch(r, m, p).active[p] == m
    ensures forall q :: q in Owned(r) && q.userId != p.userId && IdsMatch(r) ==> q in Owned(EnterMatch(r, m, p))
  {
    var x := EnterMatch(r, m, p);
    assert m in x.players && p.userId in x.players[m] && x.players[m][p.userId] == p;
    forall q | q in Owned(r) && q.userId != p.userId && IdsMatch(r) ensures q in Owned(x) {
      var n, id :| n in r.players && id in r.players[n] && r.players[n][id] == q;
      assert n in x.players && id in x.players[n] && x.players[n][id] == q;
    }
  }

  lemma OpeningOwnsNobody(r: Rosters, m: string)
    requires m !in r.players
    ensures Owned(r.(players := r.players[m := map[]])) == Owned(r)
  {
    var more := r.players[m := map[]];
    forall p | p in Owned(r) ensures p in Owned(r.(players := more)) {
      var n, id :| n in r.players && id in r.players[n] && r.players[n][id] == p;
      assert n in more && id in more[n] && more[n][id] == p;
    }
  }

  /** sessions: the live ones and those waiting to be added. */
  datatype Dir = Dir(
    sessions: map<SocketUser, Session>,
    users: map<string, SocketUser>, udpIds: map<uint16, SocketUser>,
    addQueue: seq<SocketUser>, removeQueue: seq<string>,
    players: map<uint32, Player>, rosters: Rosters)

  function Init(): Dir {
    Dir(map[], map[], map[], [], [], map[], Rosters(map[], map[]))
  }

  /** The weak pointer p can still be locked; held are the players owned by running code. */
  predicate Alive(d: Dir, p: Player?, held: set<Player>) {
    p != null && (p in d.players.Values || p in Owned(d.rosters) || p in held)
  }

  predicate Live(d: Dir, s: SocketUser) {
    s.token in d.users && d.users[s.token] == s
  }

  // ---------------------------------------------------------------- operations

  /** HandleStartConnect_Finished(true). */
  function Connect(d: Dir, s: SocketUser, id: uint16): Dir {
    d.(sessions := d.sessions[s := Session(true, true, id, false, false, null)],
       udpIds := d.udpIds[id := s], addQueue := d.addQueue + [s])
  }

  /** SocketUser::Close. */
  function Close(d: Dir, s: SocketUser): Dir
    requires s in d.sessions
  {
    var r := d.sessions[s];
    if r.connected
    then d.(sessions := d.sessions[s := r.(connected := false, udpEnabled := false)],
            removeQueue := d.removeQueue + [s.token])
    else d
  }

  /** One turn of the add loop of Update. */
  function AddFront(d: Dir): Dir
    requires d.addQueue != []
  {
    var s := d.addQueue[0];
    var popped := d.(addQueue := d.addQueue[1..]);
    if s.token in d.users then popped else popped.(users := d.users[s.token := s])
  }

  /** Server_Main::UserDisconnected. */
  function PlayersWithout(d: Dir, s: SocketUser): map<uint32, Player>
    requires s in d.sessions
  {
    var p := d.sessions[s].user;
    if Alive(d, p, {}) then d.players - {p.userId} else d.players
  }

  /** DoRemovePlayer, for a session whose object is known. */
  function RemoveSession(d: Dir, token: string): Dir {
    if token in d.users && d.users[token] in d.sessions then
      var s := d.users[token];
      var closed := Close(d, s);
      closed.(sessions := closed.sessions - {s}, users := d.users - {token},
              udpIds := d.udpIds - {d.sessions[s].udpId}, players := PlayersWithout(d, s))
    else d
  }

  /** One turn of the remove loop of Update. */
  function RemoveFront(d: Dir): Dir
    requires d.removeQueue != []
  {
    RemoveSession(d.(removeQueue := d.removeQueue[1..]), d.removeQueue[0])
  }

  function DrainAdds(d: Dir): Dir
    decreases |d.addQueue|
  {
    if d.addQueue == [] then d else DrainAdds(AddFront(d))
  }

  /** A turn that removes a session may push its token back, but then there is one session less. */
  lemma RemoveFrontDecreases(d: Dir)
    requires d.removeQueue != []
    ensures var e := RemoveFront(d);
            || (|e.users| < |d.users| && |e.removeQueue| <= |d.removeQueue|)
            || (|e.users| == |d.users| && |e.removeQueue| < |d.removeQueue|)
  {
    var token := d.removeQueue[0];
    if token in d.users {
      SizeWithout(d.users, token);
    }
  }

  function DrainRemoves(d: Dir): Dir
    decreases |d.users|, |d.removeQueue|
  {
    if d.removeQueue == [] then d
    else
      RemoveFrontDecreases(d);
      DrainRemoves(RemoveFront(d))
  }

  /** The two drains of AsyncServer::Update. */
  function Update(d: Dir): Dir {
    DrainRemoves(DrainAdds(d))
  }

  /** SocketUser::SetUser. */
  function Link(d: Dir, s: SocketUser, p: Player): Dir
    requires s in d.sessions
  {
    d.(sessions := d.sessions[s := d.sessions[s].(hasUser := true, user := p)])
  }

  /** The accepting branch of PlayerAuthenticated. */
  function Register(d: Dir, s: SocketUser, p: Player): Dir
    requires s in d.sessions
  {
    d.(sessions := d.sessions[s := d.sessions[s].(authenticated := true)],
       players := d.players[p.userId := p])
  }

  /**
   UserIdentify with its call of PlayerAuthenticated: the session links to a new player, who is
   registered unless the identity is bad, not authorized, or already registered.
   */
  function Identify(d: Dir, s: SocketUser, p: Player, identified: bool, authorized: bool): Dir
    requires s in d.sessions
  {
    var linked := Link(d, s, p);
    if identified && authorized && p.userId !in d.players
    then Register(linked, s, p)
    else Close(linked, s)
  }

  // ---------------------------------------------------------------- runs

  datatype Event =
    | Connected(s: SocketUser, id: uint16)
    | Closed(s: SocketUser)                 // a read error, a failed send, any call of Close
    | RemovalRequested(token: string)       // a timeout, a disconnect command, an empty frame
    | Identified(s: SocketUser, p: Player, identified: bool, authorized: bool)
    | MatchOpened(m: string)
    | JoinedMatch(s: SocketUser, m: string)
    | LeftMatch(m: string, p: Player)
    | MatchClosed(m: string)                // the last owner of the match lets go of it
    | Updated

  /** p is a new object: nothing refers to it. */
  predicate Unreferenced(d: Dir, p: Player) {
    && p !in d.players.Values && p !in Owned(d.rosters)
    && forall s :: s in d.sessions ==> d.sessions[s].user != p
  }

  /**
   Tokens of sessions are unique; the random id is one that is free; commands are processed
   for live sessions only; joining needs an authenticated session whose player is alive.
   */
  function Step(d: Dir, e: Event): Option<Dir> {
    match e
    case Connected(s, id) =>
      if s !in d.sessions && (forall k :: k in d.sessions ==> k.token != s.token)
         && s.token !in d.users && id !in d.udpIds
      then Some(Connect(d, s, id)) else None
    case Closed(s) => if s in d.sessions then Some(Close(d, s)) else None
    case RemovalRequested(token) => Some(d.(removeQueue := d.removeQueue + [token]))
    case Identified(s, p, identified, authorized) =>
      if s in d.sessions && Live(d, s) && Unreferenced(d, p)
      then Some(Identify(d, s, p, identified, authorized)) else None
    case MatchOpened(m) =>
      if m !in d.rosters.players
      then Some(d.(rosters := d.rosters.(players := d.rosters.players[m := map[]]))) else None
    case JoinedMatch(s, m) =>
      if s in d.sessions && Live(d, s) && d.sessions[s].authenticated && Alive(d, d.sessions[s].user, {})
         && m in d.rosters.players
      then Some(d.(rosters := EnterMatch(d.rosters, m, d.sessions[s].user))) else None
    case LeftMatch(m, p) => Some(d.(rosters := LeaveMatch(d.rosters, m, p)))
    case MatchClosed(m) => Some(d.(rosters := d.rosters.(players := d.rosters.players - {m})))
    case Updated => Some(Update(d))
  }

  /**
   What the events of a run presuppose: a new session has a new token and a free UDP id, a login is
   for a live session and brings a new player, and one joins a match as a living player.
   */
  lemma StepIsPossible(d: Dir, e: Event)
    ensures Step(d, e).Some? <==>
            match e
            case Connected(s, id) =>
              && s !in d.sessions && s.token !in d.users && id !in d.udpIds
              && forall k :: k in d.sessions ==> k.token != s.token
            case Closed(s) => s in d.sessions
            case Identified(s, p, _, _) =>
              && s in d.sessions && s.token in d.users && d.users[s.token] == s
              && p !in d.players.Values && p !in Owned(d.rosters)
              && forall k :: k in d.sessions ==> d.sessions[k].user != p
            case MatchOpened(m) => m !in d.rosters.players
            case JoinedMatch(s, m) =>
              && s in d.sessions && s.token in d.users && d.users[s.token] == s && d.sessions[s].authenticated
              && d.sessions[s].user != null && m in d.rosters.players
              && (d.sessions[s].user in d.players.Values || d.sessions[s].user in Owned(d.rosters))
            case _ => true
  {
    hide Update, Owned;
  }

  function Run(d: Dir, es: seq<Event>): Option<Dir>
    decreases |es|
  {
    if es == [] then Some(d)
    else match Step(d, es[0])
         case None => None
         case Some(next) => Run(next, es[1..])
  }

  // ---------------------------------------------------------------- invariants

  /** The maps and the add queue divide the sessions between them. */
  ghost predicate Membership(sessions: set<SocketUser>, users: map<string, SocketUser>, addQueue: seq<SocketUser>) {
    && (forall a, b :: a in sessions && b in sessions && a.token == b.token ==> a == b)
    && (forall t :: t in users ==> users[t].token == t && users[t] in sessions)
    && (forall s :: s in addQueue ==> s in sessions && s.token !in users)
    && (forall i, j :: 0 <= i < j < |addQueue| ==> addQueue[i] != addQueue[j])
    && (forall s :: s in sessions ==> s in addQueue || (s.token in users && users[s.token] == s))
  }

  ghost predicate Members(d: Dir) {
    Membership(d.sessions.Keys, d.users, d.addQueue)
  }

  /** Every session is found under its own UDP id, and every entry leads to a session. */
  ghost predicate Ids(sessions: map<SocketUser, Session>, udpIds: map<uint16, SocketUser>) {
    && (forall s :: s in sessions ==> sessions[s].udpId in udpIds && udpIds[sessions[s].udpId] == s)
    && (forall id :: id in udpIds ==> udpIds[id] in sessions && sessions[udpIds[id]].udpId == id)
  }

  /** A closed session, live or pending, has its token queued and sends nothing over UDP. */
  ghost predicate ClosedAreQueued(d: Dir) {
    forall s :: s in d.sessions && !d.sessions[s].connected ==>
      s.token in d.removeQueue && !d.sessions[s].udpEnabled
  }

  ghost predicate PendingHaveNoUser(d: Dir) {
    forall s :: s in d.addQueue && s in d.sessions ==> !d.sessions[s].hasUser && d.sessions[s].user == null
  }

  predicate SameUser(a: Session, b: Session) {
    a.user != null && a.user == b.user
  }

  /** A session's player, as long as it is alive, is the one registered under its user id. */
  ghost predicate Logins(d: Dir) {
    && (forall id :: id in d.players ==> d.players[id].userId == id)
    && (forall a, b :: a in d.sessions && b in d.sessions && SameUser(d.sessions[a], d.sessions[b]) ==> a == b)
    && (forall s :: s in d.sessions && Alive(d, d.sessions[s].user, {}) ==>
          d.sessions[s].user.userId in d.players && d.players[d.sessions[s].user.userId] == d.sessions[s].user)
  }

  ghost predicate Inv(d: Dir) {
    Members(d) && Ids(d.sessions, d.udpIds) && ClosedAreQueued(d) && PendingHaveNoUser(d) && Logins(d)
  }

  lemma InitInv()
    ensures Inv(Init())
  {
  }

  lemma ChangeKeepsIds(sessions: map<SocketUser, Session>, udpIds: map<uint16, SocketUser>, s: SocketUser, r: Session)
    requires Ids(sessions, udpIds) && s in sessions && r.udpId == sessions[s].udpId
    ensures Ids(sessions[s := r], udpIds)
  {
  }

  lemma ConnectKeepsMembership(d: Dir, s: SocketUser, id: uint16)
    requires Members(d) && Step(d, Connected(s, id)).Some?
    ensures Members(Connect(d, s, id))
  {
    assert Connect(d, s, id).sessions.Keys == d.sessions.Keys + {s};
  }

  lemma ConnectKeepsIds(d: Dir, s: SocketUser, id: uint16)
    requires Ids(d.sessions, d.udpIds) && s !in d.sessions && id !in d.udpIds
    ensures Ids(Connect(d, s, id).sessions, Connect(d, s, id).udpIds)
  {
  }

  lemma ConnectKeepsLogins(d: Dir, s: SocketUser, id: uint16)
    requires Logins(d) && s !in d.sessions
    ensures Logins(Connect(d, s, id))
  {
  }

  lemma ConnectKeepsQueued(d: Dir, s: SocketUser, id: uint16)
    requires ClosedAreQueued(d) && PendingHaveNoUser(d) && s !in d.sessions
    ensures ClosedAreQueued(Connect(d, s, id)) && PendingHaveNoUser(Connect(d, s, id))
  {
  }

  lemma ConnectKeeps(d: Dir, s: SocketUser, id: uint16)
    requires Inv(d) && Step(d, Connected(s, id)).Some?
    ensures Inv(Connect(d, s, id))
  {
    ConnectKeepsMembership(d, s, id);
    ConnectKeepsIds(d, s, id);
    ConnectKeepsLogins(d, s, id);
    ConnectKeepsQueued(d, s, id);
    hide Membership, Ids, Logins, ClosedAreQueued, PendingHaveNoUser;
  }

  lemma CloseKeepsLogins(d: Dir, s: SocketUser)
    requires Logins(d) && s in d.sessions
    ensures Logins(Close(d, s))
  {
  }

  lemma CloseKeepsQueued(d: Dir, s: SocketUser)
    requires ClosedAreQueued(d) && PendingHaveNoUser(d) && s in d.sessions
    ensures ClosedAreQueued(Close(d, s)) && PendingHaveNoUser(Close(d, s))
  {
  }

  lemma CloseKeeps(d: Dir, s: SocketUser)
    requires Inv(d) && s in d.sessions
    ensures Inv(Close(d, s))
  {
    assert Close(d, s).sessions.Keys == d.sessions.Keys;
    ChangeKeepsIds(d.sessions, d.udpIds, s, Close(d, s).sessions[s]);
    CloseKeepsLogins(d, s);
    CloseKeepsQueued(d, s);
    hide Membership, Ids, Logins, ClosedAreQueued, PendingHaveNoUser;
  }

  lemma LinkKeepsLogins(d: Dir, s: SocketUser, p: Player)
    requires Logins(d) && s in d.sessions && Unreferenced(d, p)
    ensures Logins(Link(d, s, p))
  {
  }

  lemma LinkKeepsQueued(d: Dir, s: SocketUser, p: Player)
    requires ClosedAreQueued(d) && PendingHaveNoUser(d) && s in d.sessions && s !in d.addQueue
    ensures ClosedAreQueued(Link(d, s, p)) && PendingHaveNoUser(Link(d, s, p))
  {
  }

  lemma LinkKeeps(d: Dir, s: SocketUser, p: Player)
    requires Inv(d) && s in d.sessions && Live(d, s) && Unreferenced(d, p)
    ensures Inv(Link(d, s, p))
  {
    assert Link(d, s, p).sessions.Keys == d.sessions.Keys && s !in d.addQueue;
    ChangeKeepsIds(d.sessions, d.udpIds, s, Link(d, s, p).sessions[s]);
    LinkKeepsLogins(d, s, p);
    LinkKeepsQueued(d, s, p);
    hide Membership, Ids, Logins, ClosedAreQueued, PendingHaveNoUser;
  }

  lemma RegisterKeepsLogins(d: Dir, s: SocketUser, p: Player)
    requires Logins(d) && s in d.sessions && d.sessions[s].user == p
    requires p.userId !in d.players && p !in Owned(d.rosters)
    ensures Logins(Register(d, s, p))
  {
  }

  lemma RegisterKeepsQueued(d: Dir, s: SocketUser, p: Player)
    requires ClosedAreQueued(d) && PendingHaveNoUser(d) && s in d.sessions && s !in d.addQueue
    ensures ClosedAreQueued(Register(d, s, p)) && PendingHaveNoUser(Register(d, s, p))
  {
  }

  lemma RegisterKeeps(d: Dir, s: SocketUser, p: Player)
    requires Inv(d) && s in d.sessions && Live(d, s) && d.sessions[s].user == p
    requires p.userId !in d.players && p !in Owned(d.rosters)
    ensures Inv(Register(d, s, p))
  {
    assert Register(d, s, p).sessions.Keys == d.sessions.Keys && s !in d.addQueue;
    ChangeKeepsIds(d.sessions, d.udpIds, s, Register(d, s, p).sessions[s]);
    RegisterKeepsLogins(d, s, p);
    RegisterKeepsQueued(d, s, p);
    hide Membership, Ids, Logins, ClosedAreQueued, PendingHaveNoUser;
  }

  lemma IdentifyKeeps(d: Dir, s: SocketUser, p: Player, identified: bool, authorized: bool)
    requires Inv(d) && s in d.sessions && Live(d, s) && Unreferenced(d, p)
    ensures Inv(Identify(d, s, p, identified, authorized))
  {
    LinkKeeps(d, s, p);
    var linked := Link(d, s, p);
    if identified && authorized && p.userId !in d.players {
      RegisterKeeps(linked, s, p);
    } else {
      CloseKeeps(linked, s);
    }
  }

  lemma AddFrontKeepsMembership(d: Dir)
    requires Members(d) && d.addQueue != []
    ensures Members(AddFront(d))
  {
    var s := d.addQueue[0];
    assert d.addQueue == [s] + d.addQueue[1..];
  }

  lemma AddFrontKeepsSessions(d: Dir)
    requires Logins(d) && ClosedAreQueued(d) && PendingHaveNoUser(d) && d.addQueue != []
    ensures Logins(AddFront(d)) && ClosedAreQueued(AddFront(d)) && PendingHaveNoUser(AddFront(d))
  {
  }

  lemma AddFrontKeeps(d: Dir)
    requires Inv(d) && d.addQueue != []
    ensures Inv(AddFront(d))
  {
    AddFrontKeepsMembership(d);
    AddFrontKeepsSessions(d);
    hide Membership, Ids, Logins, ClosedAreQueued, PendingHaveNoUser;
  }

  lemma RemoveKeepsMembership(d: Dir)
    requires Members(d) && d.removeQueue != [] && d.addQueue == []
    ensures Members(RemoveFront(d))
  {
  }

  lemma RemoveKeepsIds(d: Dir)
    requires Ids(d.sessions, d.udpIds) && d.removeQueue != []
    ensures Ids(RemoveFront(d).sessions, RemoveFront(d).udpIds)
  {
  }

  lemma RemoveKeepsQueued(d: Dir)
    requires ClosedAreQueued(d) && Members(d) && d.removeQueue != [] && d.addQueue == []
    ensures ClosedAreQueued(RemoveFront(d)) && RemoveFront(d).addQueue == []
  {
    assert d.removeQueue == [d.removeQueue[0]] + d.removeQueue[1..];
  }

  lemma RemoveKeepsLogins(d: Dir)
    requires Logins(d) && d.removeQueue != []
    ensures Logins(RemoveFront(d))
  {
  }

  lemma RemoveFrontKeeps(d: Dir)
    requires Inv(d) && d.removeQueue != [] && d.addQueue == []
    ensures Inv(RemoveFront(d)) && RemoveFront(d).addQueue == []
  {
    hide RemoveFront;
    RemoveKeepsMembership(d);
    RemoveKeepsIds(d);
    RemoveKeepsQueued(d);
    RemoveKeepsLogins(d);
  }

  // ---------------------------------------------------------------- the drains of Update

  /** After the add drain every session is live, and nothing else has changed. */
  lemma {:induction false} DrainAddsExact(d: Dir)
    requires Inv(d)
    ensures var e := DrainAdds(d);
            && Inv(e) && e == d.(users := e.users, addQueue := [])
            && forall s :: s in e.sessions ==> Live(e, s)
    decreases |d.addQueue|
  {
    if d.addQueue != [] {
      AddFrontKeeps(d);
      DrainAddsExact(AddFront(d));
    }
  }

  /** The entry under id belongs to a session that is queued for removal. */
  ghost predicate Evicted(d: Dir, id: uint32)
    requires id in d.players
  {
    exists s :: s in d.sessions && s.token in d.removeQueue && d.sessions[s].user == d.players[id]
  }

  ghost function SurvivingSessions(d: Dir): map<SocketUser, Session> {
    map s | s in d.sessions && s.token !in d.removeQueue :: d.sessions[s]
  }

  ghost function SurvivingPlayers(d: Dir): map<uint32, Player> {
    map id | id in d.players && !Evicted(d, id) :: d.players[id]
  }

  /** The session that the next turn of the remove loop takes out. */
  predicate Next(d: Dir, s: SocketUser) {
    d.removeQueue != [] && s in d.sessions && s.token == d.removeQueue[0]
  }

  lemma NextIsLive(d: Dir)
    requires Members(d) && d.removeQueue != [] && d.addQueue == []
    ensures var token := d.removeQueue[0];
            forall s :: s in d.sessions ==> (Next(d, s) <==> token in d.users && d.users[token] == s)
    ensures d.removeQueue[0] in d.users ==> d.users[d.removeQueue[0]] in d.sessions
  {
  }

  /** What a turn does when nobody, or s, is named. */
  lemma RemoveFrontCases(d: Dir)
    requires d.removeQueue != [] && forall t :: t in d.users ==> d.users[t].token == t
    ensures var token, e := d.removeQueue[0], RemoveFront(d);
            && e.rosters == d.rosters
            && (e.removeQueue == d.removeQueue[1..] || e.removeQueue == d.removeQueue[1..] + [token])
            && if token in d.users && d.users[token] in d.sessions
               then var s := d.users[token];
                    e.sessions == d.sessions - {s} && e.players == PlayersWithout(d, s)
               else e.sessions == d.sessions && e.players == d.players
  {
    var token := d.removeQueue[0];
    if token in d.users && d.users[token] in d.sessions {
      var s := d.users[token];
      assert Close(d.(removeQueue := d.removeQueue[1..]), s).sessions - {s} == d.sessions - {s};
    }
  }

  /** The entry of the player of s goes if and only if it is that player. */
  lemma EntryOfGoes(d: Dir, s: SocketUser)
    requires Logins(d) && s in d.sessions
    ensures forall id :: id in PlayersWithout(d, s) ==> id in d.players && PlayersWithout(d, s)[id] == d.players[id]
    ensures forall id :: id in d.players ==> (id !in PlayersWithout(d, s) <==> d.sessions[s].user == d.players[id])
  {
  }

  /** One turn removes the session named, if any, and the entry of its player, if any. */
  lemma RemoveFrontExact(d: Dir)
    requires Inv(d) && d.removeQueue != [] && d.addQueue == []
    ensures var e := RemoveFront(d);
            && e.sessions == (map s | s in d.sessions && !Next(d, s) :: d.sessions[s])
            && e.rosters == d.rosters
            && (e.removeQueue == d.removeQueue[1..] || e.removeQueue == d.removeQueue[1..] + [d.removeQueue[0]])
    ensures var e := RemoveFront(d);
            && (forall id :: id in e.players ==> id in d.players && e.players[id] == d.players[id])
            && (forall id :: id in d.players ==> (id !in e.players <==>
                  exists s :: s in d.sessions && Next(d, s) && d.sessions[s].user == d.players[id]))
  {
    NextIsLive(d);
    RemoveFrontCases(d);
    var token := d.removeQueue[0];
    if token in d.users {
      assert Next(d, d.users[token]);
      EntryOfGoes(d, d.users[token]);
    }
    hide RemoveFront, Inv, Next, PlayersWithout;
  }

  lemma TurnUnqueues(d: Dir)
    requires Inv(d) && d.removeQueue != [] && d.addQueue == []
    ensures forall s :: s in d.sessions ==>
        (s.token in d.removeQueue <==> Next(d, s) || s.token in RemoveFront(d).removeQueue)
  {
    RemoveFrontExact(d);
    var e := RemoveFront(d);
    hide RemoveFront, Inv;
    assert d.removeQueue == [d.removeQueue[0]] + d.removeQueue[1..];
  }

  lemma TurnKeepsSessions(d: Dir)
    requires Inv(d) && d.removeQueue != [] && d.addQueue == []
    ensures SurvivingSessions(RemoveFront(d)) == SurvivingSessions(d)
  {
    RemoveFrontExact(d);
    TurnUnqueues(d);
    hide RemoveFront, Inv;
  }

  lemma TurnKeepsPlayers(d: Dir)
    requires Inv(d) && d.removeQueue != [] && d.addQueue == []
    ensures SurvivingPlayers(RemoveFront(d)) == SurvivingPlayers(d)
  {
    RemoveFrontExact(d);
    TurnUnqueues(d);
    var e := RemoveFront(d);
    hide RemoveFront, Inv, Evicted;
    forall id | id in d.players
      ensures Evicted(d, id) <==> (id !in e.players || Evicted(e, id))
    {
      TurnEvicts(d, e, id);
    }
  }

  lemma TurnEvicts(d: Dir, e: Dir, id: uint32)
    requires id in d.players && d.removeQueue != []
    requires e.sessions == (map s | s in d.sessions && !Next(d, s) :: d.sessions[s])
    requires forall s :: s in d.sessions ==> (s.token in d.removeQueue <==> Next(d, s) || s.token in e.removeQueue)
    requires id in e.players ==> e.players[id] == d.players[id]
    requires id !in e.players <==>
             exists s :: s in d.sessions && Next(d, s) && d.sessions[s].user == d.players[id]
    ensures Evicted(d, id) <==> (id !in e.players || Evicted(e, id))
  {
  }

  /**
   The remove drain ends with both queues empty and every session left connected; the sessions
   left are those whose token was not queued, untouched, and the players left are those no
   removed session linked to.
   */
  lemma {:induction false} DrainRemovesExact(d: Dir)
    requires Inv(d) && d.addQueue == []
    ensures var e := DrainRemoves(d);
            && Inv(e) && e.addQueue == [] && e.removeQueue == [] && e.rosters == d.rosters
            && e.sessions == SurvivingSessions(d) && e.players == SurvivingPlayers(d)
            && forall s :: s in e.sessions ==> e.sessions[s].connected
    decreases |d.users|, |d.removeQueue|
  {
    hide SurvivingSessions, SurvivingPlayers;
    if d.removeQueue == [] {
      NothingQueued(d);
    } else {
      RemoveFrontKeeps(d);
      RemoveFrontExact(d);
      RemoveFrontDecreases(d);
      TurnKeepsSessions(d);
      TurnKeepsPlayers(d);
      DrainRemovesExact(RemoveFront(d));
    }
  }

  lemma NothingQueued(d: Dir)
    requires Inv(d) && d.removeQueue == []
    ensures SurvivingSessions(d) == d.sessions && SurvivingPlayers(d) == d.players
    ensures forall s :: s in d.sessions ==> d.sessions[s].connected
  {
  }

  /** Turns of the remove loop: each session is removed, and its token put back, at most once. */
  function Turns(d: Dir): nat
    decreases |d.users|, |d.removeQueue|
  {
    if d.removeQueue == [] then 0
    else
      RemoveFrontDecreases(d);
      1 + Turns(RemoveFront(d))
  }

  lemma {:induction false} TurnsAreBounded(d: Dir)
    ensures Turns(d) <= |d.users| + |d.removeQueue|
    decreases |d.users|, |d.removeQueue|
  {
    if d.removeQueue != [] {
      RemoveFrontDecreases(d);
      TurnsAreBounded(RemoveFront(d));
    }
  }

  /** Both drains together, from any state with the invariant. */
  lemma UpdateExact(d: Dir)
    requires Inv(d)
    ensures var e := Update(d);
            && Inv(e) && e.addQueue == [] && e.removeQueue == [] && e.rosters == d.rosters
            && e.sessions == SurvivingSessions(d) && e.players == SurvivingPlayers(d)
            && forall s :: s in e.sessions ==> e.sessions[s].connected && Live(e, s)
  {
    DrainAddsExact(d);
    var added := DrainAdds(d);
    DrainRemovesExact(added);
    AddsKeepSurvivors(d, added);
    AllAreLive(DrainRemoves(added));
    hide Inv, SurvivingSessions, SurvivingPlayers;
  }

  lemma AddsKeepSurvivors(d: Dir, e: Dir)
    requires e == d.(users := e.users, addQueue := [])
    ensures SurvivingSessions(e) == SurvivingSessions(d) && SurvivingPlayers(e) == SurvivingPlayers(d)
  {
    assert forall id :: id in d.players ==> (Evicted(e, id) <==> Evicted(d, id));
  }

  lemma AllAreLive(d: Dir)
    requires Inv(d) && d.addQueue == []
    ensures forall s :: s in d.sessions ==> Live(d, s)
  {
  }

  // ---------------------------------------------------------------- all runs

  /** Only a player that was alive before can come to be owned by a match. */
  lemma RostersKeepInv(d: Dir, e: Dir)
    requires Inv(d) && e == d.(rosters := e.rosters)
    requires forall p :: p in Owned(e.rosters) && p !in Owned(d.rosters) ==> Alive(d, p, {})
    ensures Inv(e)
  {
    hide Ids, Owned;
  }

  lemma RosterStepKeepsInv(d: Dir, e: Event, x: Dir)
    requires Inv(d) && Step(d, e) == Some(x)
    requires e.MatchOpened? || e.JoinedMatch? || e.LeftMatch? || e.MatchClosed?
    ensures Inv(x)
  {
    match e {
      case MatchOpened(m) => OpeningOwnsNobody(d.rosters, m);
      case JoinedMatch(s, m) => EnteringOwns(d.rosters, m, d.sessions[s].user);
      case LeftMatch(m, p) => LeavingFrees(d.rosters, m, p);
      case MatchClosed(m) => assert Owned(x.rosters) <= Owned(d.rosters);
    }
    hide Owned, Inv;
    RostersKeepInv(d, x);
  }

  lemma StepKeepsInv(d: Dir, e: Event, x: Dir)
    requires Inv(d) && Step(d, e) == Some(x)
    ensures Inv(x)
  {
    match e
    case Connected(s, id) => ConnectKeeps(d, s, id);
    case Closed(s) => CloseKeeps(d, s);
    case Identified(s, p, identified, authorized) => IdentifyKeeps(d, s, p, identified, authorized);
    case Updated => UpdateExact(d);
    case RemovalRequested(token) =>
    case _ => RosterStepKeepsInv(d, e, x);
  }

  lemma {:induction false} RunKeepsInv(d: Dir, es: seq<Event>, x: Dir)
    requires Inv(d) && Run(d, es) == Some(x)
    ensures Inv(x)
    decreases |es|
  {
    if es != [] {
      StepKeepsInv(d, es[0], Step(d, es[0]).value);
      RunKeepsInv(Step(d, es[0]).value, es[1..], x);
    }
  }

  /**
   In every reachable state tokens and UDP ids lead to the session that carries them, each
   live session is found under its own UDP id, each UDP entry leads to a live or pending
   session, no two sessions share an id, and each player is registered under its own user id.
   */
  lemma DirectoryInEveryRun(es: seq<Event>, d: Dir)
    requires Run(Init(), es) == Some(d)
    ensures forall t :: t in d.users ==> d.users[t].token == t && d.users[t] in d.sessions
    ensures forall t :: t in d.users ==> d.udpIds.Keys >= {d.sessions[d.users[t]].udpId}
                                         && d.udpIds[d.sessions[d.users[t]].udpId] == d.users[t]
    ensures forall id :: id in d.udpIds ==>
        d.udpIds[id] in d.sessions && d.sessions[d.udpIds[id]].udpId == id
        && (Live(d, d.udpIds[id]) || d.udpIds[id] in d.addQueue)
    ensures forall a, b :: a in d.sessions && b in d.sessions && d.sessions[a].udpId == d.sessions[b].udpId ==> a == b
    ensures forall id :: id in d.players ==> d.players[id].userId == id
  {
    InitInv();
    RunKeepsInv(Init(), es, d);
  }

  /** s is a session at every moment of the run. */
  ghost predicate StaysIn(d: Dir, s: SocketUser, es: seq<Event>)
    decreases |es|
  {
    && s in d.sessions
    && (es != [] && Step(d, es[0]).Some? ==> StaysIn(Step(d, es[0]).value, s, es[1..]))
  }

  ghost predicate LinkedStay(d: Dir, p: Player, es: seq<Event>) {
    forall s :: s in d.sessions && d.sessions[s].user == p ==> StaysIn(d, s, es)
  }

  lemma UpdateKeepsEntry(d: Dir, id: uint32)
    requires Inv(d) && id in d.players
    requires forall s :: s in d.sessions && d.sessions[s].user == d.players[id] ==> s in Update(d).sessions
    ensures id in Update(d).players && Update(d).players[id] == d.players[id]
    ensures forall s :: s in Update(d).sessions ==> s in d.sessions && Update(d).sessions[s] == d.sessions[s]
  {
    UpdateExact(d);
    hide Update, Inv;
    assert !Evicted(d, id);
  }

  lemma StepKeepsEntry(d: Dir, e: Event, x: Dir, id: uint32)
    requires Inv(d) && Step(d, e) == Some(x) && id in d.players
    requires forall s :: s in d.sessions && d.sessions[s].user == d.players[id] ==> s in x.sessions
    ensures id in x.players && x.players[id] == d.players[id]
    ensures forall s :: s in x.sessions && x.sessions[s].user == d.players[id] ==>
        s in d.sessions && d.sessions[s].user == d.players[id]
  {
    hide Update, Inv;
    if e.Updated? {
      UpdateKeepsEntry(d, id);
    }
  }

  /**
   Over any run an entry of the player map is neither evicted nor replaced as long as the
   sessions linked to its player, if there are any, are not removed: no other login, accepted
   or rejected, and no removal of another session touches it.
   */
  lemma {:induction false} FirstLoginStays(d: Dir, es: seq<Event>, x: Dir, id: uint32)
    requires Inv(d) && Run(d, es) == Some(x) && id in d.players
    requires LinkedStay(d, d.players[id], es)
    ensures id in x.players && x.players[id] == d.players[id]
    decreases |es|
  {
    if es != [] {
      var next := Step(d, es[0]).value;
      assert forall s :: s in d.sessions && d.sessions[s].user == d.players[id] ==> StaysIn(next, s, es[1..]);
      StepKeepsEntry(d, es[0], next, id);
      StepKeepsInv(d, es[0], next);
      FirstLoginStays(next, es[1..], x, id);
    }
  }

  /** At every moment of the run p is registered under id. */
  ghost predicate EntryKept(d: Dir, es: seq<Event>, id: uint32, p: Player)
    decreases |es|
  {
    && id in d.players && d.players[id] == p
    && (es != [] && Step(d, es[0]).Some? ==> EntryKept(Step(d, es[0]).value, es[1..], id, p))
  }

  /** No Update of the run finds a session queued for removal that is linked to the player under id. */
  ghost predicate NeverEvicted(d: Dir, es: seq<Event>, id: uint32)
    decreases |es|
  {
    es != [] ==>
      && (es[0].Updated? && id in d.players ==> !Evicted(d, id))
      && (Step(d, es[0]).Some? ==> NeverEvicted(Step(d, es[0]).value, es[1..], id))
  }

  lemma StepEvictsExactly(d: Dir, e: Event, x: Dir, id: uint32)
    requires Inv(d) && Step(d, e) == Some(x) && id in d.players
    ensures id in x.players && x.players[id] == d.players[id] <==> !(e.Updated? && Evicted(d, id))
  {
    if e.Updated? {
      UpdateExact(d);
      hide Step, Inv, Evicted;
    } else {
      OnlyUpdateRemoves(d, e, x);
    }
  }

  lemma OnlyUpdateRemoves(d: Dir, e: Event, x: Dir)
    requires Step(d, e) == Some(x) && !e.Updated?
    ensures forall id :: id in d.players ==> id in x.players && x.players[id] == d.players[id]
  {
    hide Update, Owned, EnterMatch, LeaveMatch, Alive, Unreferenced, Live;
  }

  /**
   Over any run an entry of the player map stays as it is, whoever else logs in, is rejected or
   is removed, if and only if no Update finds a session linked to its player queued for removal.
   */
  lemma {:induction false} EntryStaysExactly(d: Dir, es: seq<Event>, x: Dir, id: uint32)
    requires Inv(d) && Run(d, es) == Some(x) && id in d.players
    ensures EntryKept(d, es, id, d.players[id]) <==> NeverEvicted(d, es, id)
    decreases |es|
  {
    if es != [] {
      var next := Step(d, es[0]).value;
      StepEvictsExactly(d, es[0], next, id);
      StepKeepsInv(d, es[0], next);
      hide Step, Inv, Evicted;
      if id in next.players && next.players[id] == d.players[id] {
        EntryStaysExactly(next, es[1..], x, id);
      }
    }
  }

  /**
   A second login under a registered user id closes its session, which the next Update removes;
   its player has no owner left. The existing entry survives that Update if and only if no
   removal of another session linked to its player had been requested.
   */
  lemma RejectedLoginLeavesFirst(d: Dir, s: SocketUser, p: Player)
    requires Inv(d) && s in d.sessions && Live(d, s) && Unreferenced(d, p) && p.userId in d.players
    ensures var first := d.players[p.userId];
            var rejected := Identify(d, s, p, true, true);
            var x := Update(rejected);
            && rejected.players == d.players && !rejected.sessions[s].connected
            && !Alive(rejected, p, {})
            && s !in x.sessions
            && ((p.userId in x.players && x.players[p.userId] == first) <==>
                !exists other :: other in d.sessions && other != s && d.sessions[other].user == first
                                 && other.token in d.removeQueue)
  {
    IdentifyKeeps(d, s, p, true, true);
    var rejected := Identify(d, s, p, true, true);
    assert !Alive(d, p, {});
    RejectedState(d, s, p);
    UpdateExact(rejected);
    hide Update, Identify, Inv, Live, Unreferenced, Owned;
    RejectedEvicts(d, s, p, rejected);
    hide Evicted;
  }

  lemma RejectedEvicts(d: Dir, s: SocketUser, p: Player, rejected: Dir)
    requires s in d.sessions && p.userId in d.players && rejected.players == d.players
    requires p != d.players[p.userId]
    requires rejected.sessions.Keys == d.sessions.Keys && rejected.sessions[s].user == p
    requires forall k :: k in d.sessions && k != s ==>
        rejected.sessions[k] == d.sessions[k] && (k.token in rejected.removeQueue <==> k.token in d.removeQueue)
    ensures Evicted(rejected, p.userId) <==>
        exists other :: other in d.sessions && other != s && d.sessions[other].user == d.players[p.userId]
                        && other.token in d.removeQueue
  {
  }

  lemma RejectedState(d: Dir, s: SocketUser, p: Player)
    requires Inv(d) && s in d.sessions && p.userId in d.players
    ensures var rejected := Identify(d, s, p, true, true);
            && rejected.players == d.players && rejected.rosters == d.rosters
            && rejected.sessions.Keys == d.sessions.Keys && s.token in rejected.removeQueue
            && rejected.sessions[s].user == p && !rejected.sessions[s].connected
            && (forall k :: k in d.sessions && k != s ==> rejected.sessions[k] == d.sessions[k])
            && (forall k :: k in d.sessions && k != s ==>
                  (k.token in rejected.removeQueue <==> k.token in d.removeQueue))
  {
    ClosedIsQueued(d, s);
    TokensDiffer(d, s);
    hide Inv;
  }

  lemma ClosedIsQueued(d: Dir, s: SocketUser)
    requires ClosedAreQueued(d) && s in d.sessions
    ensures !d.sessions[s].connected ==> s.token in d.removeQueue
  {
  }

  lemma TokensDiffer(d: Dir, s: SocketUser)
    requires Members(d) && s in d.sessions
    ensures forall k :: k in d.sessions && k != s ==> k.token != s.token
  {
  }
}
