/**
 What the events of a run tell about sessions, logins and rosters, with neither maps by token or
 UDP id nor queues: a reference for SessionModel, which is shown to agree with it step by step.
 */
module SessionTold {
  import opened Bytes
  import opened SessionModel

  /** asked: the tokens whose removal was asked for since the last Update. */
  datatype Told = Told(
    sessions: map<SocketUser, Session>, asked: set<string>, players: map<uint32, Player>, rosters: Rosters)

  function Nothing(): Told {
    Told(map[], {}, map[], Rosters(map[], map[]))
  }

  function TellClosed(h: Told, s: SocketUser): Told {
    if s in h.sessions
    then h.(sessions := h.sessions[s := h.sessions[s].(connected := false, udpEnabled := false)],
            asked := h.asked + {s.token})
    else h
  }

  /** A login is accepted if its identity is good, authorized, and not registered; else it closes its session. */
  function TellIdentified(h: Told, s: SocketUser, p: Player, identified: bool, authorized: bool): Told {
    if s !in h.sessions then h
    else
      var r := h.sessions[s].(hasUser := true, user := p);
      if identified && authorized && p.userId !in h.players
      then h.(sessions := h.sessions[s := r.(authenticated := true)], players := h.players[p.userId := p])
      else TellClosed(h.(sessions := h.sessions[s := r]), s)
  }

  ghost predicate Leaves(h: Told, p: Player) {
    exists s :: s in h.sessions && s.token in h.asked && h.sessions[s].user == p
  }

  /** All sessions asked for go at once, with the entries of their players. */
  ghost function TellUpdated(h: Told): Told {
    Told(map s | s in h.sessions && s.token !in h.asked :: h.sessions[s], {},
         map id | id in h.players && !Leaves(h, h.players[id]) :: h.players[id], h.rosters)
  }

  function TellJoined(h: Told, s: SocketUser, m: string): Rosters {
    if s in h.sessions && h.sessions[s].user != null && m in h.rosters.players then
      var p: Player := h.sessions[s].user;
      var roster: map<uint32, Player> := h.rosters.players[m][p.userId := p];
      Rosters(h.rosters.players[m := roster], h.rosters.active[p := m])
    else h.rosters
  }

  function TellLeft(r: Rosters, m: string, p: Player): Rosters {
    if m in r.players && p.userId in r.players[m]
    then Rosters(r.players[m := r.players[m] - {p.userId}], r.active - {p})
    else r
  }

  ghost function Tell(h: Told, e: Event): Told {
    match e
    case Connected(s, id) => h.(sessions := h.sessions[s := Session(true, true, id, false, false, null)])
    case Closed(s) => TellClosed(h, s)
    case RemovalRequested(token) => h.(asked := h.asked + {token})
    case Identified(s, p, identified, authorized) => TellIdentified(h, s, p, identified, authorized)
    case MatchOpened(m) => h.(rosters := h.rosters.(players := h.rosters.players[m := map[]]))
    case JoinedMatch(s, m) => h.(rosters := TellJoined(h, s, m))
    case LeftMatch(m, p) => h.(rosters := TellLeft(h.rosters, m, p))
    case MatchClosed(m) => h.(rosters := h.rosters.(players := h.rosters.players - {m}))
    case Updated => TellUpdated(h)
  }

  ghost function ToldFrom(h: Told, es: seq<Event>): Told
    decreases |es|
  {
    if es == [] then h else ToldFrom(Tell(h, es[0]), es[1..])
  }

  ghost function ToldBy(es: seq<Event>): Told {
    ToldFrom(Nothing(), es)
  }

  // ---------------------------------------------------------------- agreement

  ghost predicate Agrees(d: Dir, h: Told) {
    && d.sessions == h.sessions && d.players == h.players && d.rosters == h.rosters
    && forall token :: token in d.removeQueue <==> token in h.asked
  }

  lemma CloseAgrees(d: Dir, h: Told, s: SocketUser)
    requires ClosedAreQueued(d) && Agrees(d, h) && s in d.sessions
    ensures Agrees(Close(d, s), TellClosed(h, s))
  {
    if !d.sessions[s].connected {
      assert TellClosed(h, s).sessions == h.sessions;
    }
  }

  lemma IdentifyAgrees(d: Dir, h: Told, s: SocketUser, p: Player, identified: bool, authorized: bool)
    requires ClosedAreQueued(d) && Agrees(d, h) && s in d.sessions
    ensures Agrees(Identify(d, s, p, identified, authorized), TellIdentified(h, s, p, identified, authorized))
  {
    if identified && authorized && p.userId !in d.players {
    } else {
      var linked := Link(d, s, p);
      assert ClosedAreQueued(linked);
      CloseAgrees(linked, h.(sessions := linked.sessions), s);
    }
  }

  lemma UpdateAgrees(d: Dir, h: Told)
    requires Inv(d) && Agrees(d, h)
    ensures Agrees(Update(d), TellUpdated(h))
  {
    UpdateExact(d);
    hide Update, Inv;
    SurvivorsAreTold(d, h);
    hide SurvivingSessions, SurvivingPlayers, Leaves;
  }

  lemma SurvivorsAreTold(d: Dir, h: Told)
    requires Agrees(d, h)
    ensures SurvivingSessions(d) == TellUpdated(h).sessions && SurvivingPlayers(d) == TellUpdated(h).players
  {
    assert forall id :: id in d.players ==> (Evicted(d, id) <==> Leaves(h, h.players[id]));
    hide Evicted, Leaves;
  }

  lemma StepAgrees(d: Dir, h: Told, e: Event, x: Dir)
    requires Inv(d) && Agrees(d, h) && Step(d, e) == Some(x)
    ensures Agrees(x, Tell(h, e))
  {
    match e
    case Closed(s) => CloseAgrees(d, h, s);
    case Identified(s, p, identified, authorized) => IdentifyAgrees(d, h, s, p, identified, authorized);
    case Updated => UpdateAgrees(d, h);
    case _ => RestAgrees(d, h, e, x);
  }

  lemma RestAgrees(d: Dir, h: Told, e: Event, x: Dir)
    requires Agrees(d, h) && Step(d, e) == Some(x)
    requires !e.Closed? && !e.Identified? && !e.Updated?
    ensures Agrees(x, Tell(h, e))
  {
    hide Update, Unreferenced, Owned, TellIdentified, Identify;
  }

  lemma {:induction false} RunAgreesFrom(d: Dir, h: Told, es: seq<Event>, x: Dir)
    requires Inv(d) && Agrees(d, h) && Run(d, es) == Some(x)
    ensures Agrees(x, ToldFrom(h, es))
    decreases |es|
  {
    if es != [] {
      var next := Step(d, es[0]).value;
      StepAgrees(d, h, es[0], next);
      StepKeepsInv(d, es[0], next);
      hide Inv, Agrees, Tell, Step;
      RunAgreesFrom(next, Tell(h, es[0]), es[1..], x);
    }
  }

  /**
   In every reachable state the sessions with all their flags, the registered players and the
   rosters are what the events of the run tell, and a token is in the removal queue if and only
   if its removal was asked for since the last Update: by a timeout or a disconnect command, by
   a Close of its session, or by a rejected login.
   */
  lemma RunAgrees(es: seq<Event>, d: Dir)
    requires Run(Init(), es) == Some(d)
    ensures d.sessions == ToldBy(es).sessions && d.players == ToldBy(es).players && d.rosters == ToldBy(es).rosters
    ensures forall token :: token in d.removeQueue <==> token in ToldBy(es).asked
  {
    InitInv();
    assert Agrees(Init(), Nothing());
    RunAgreesFrom(Init(), Nothing(), es, d);
  }

  /**
   In every reachable state an Update empties both queues within as many turns of the remove
   loop as there are sessions and queued tokens, and leaves exactly the sessions that nobody
   asked to remove, all live and connected.
   */
  lemma UpdateInEveryRun(es: seq<Event>, d: Dir)
    requires Run(Init(), es) == Some(d)
    ensures Step(d, Updated).Some?
    ensures var x, h := Step(d, Updated).value, ToldBy(es);
            && x.addQueue == [] && x.removeQueue == []
            && x.sessions == (map s | s in h.sessions && s.token !in h.asked :: h.sessions[s])
            && x.players == (map id | id in h.players && !Leaves(h, h.players[id]) :: h.players[id])
            && forall s :: s in x.sessions ==> x.sessions[s].connected && Live(x, s)
    ensures Turns(DrainAdds(d)) <= |DrainAdds(d).users| + |d.removeQueue|
  {
    Reachable(es, d);
    UpdateTold(d, ToldBy(es));
    hide Run, Inv, Agrees, ToldBy, Leaves, Turns, Step;
  }

  lemma Reachable(es: seq<Event>, d: Dir)
    requires Run(Init(), es) == Some(d)
    ensures Inv(d) && Agrees(d, ToldBy(es))
  {
    InitInv();
    RunKeepsInv(Init(), es, d);
    RunAgrees(es, d);
  }

  lemma UpdateTold(d: Dir, h: Told)
    requires Inv(d) && Agrees(d, h)
    ensures Step(d, Updated) == Some(Update(d))
    ensures var x := Update(d);
            && x.addQueue == [] && x.removeQueue == []
            && x.sessions == TellUpdated(h).sessions && x.players == TellUpdated(h).players
            && forall s :: s in x.sessions ==> x.sessions[s].connected && Live(x, s)
    ensures Turns(DrainAdds(d)) <= |DrainAdds(d).users| + |d.removeQueue|
  {
    assert Step(d, Updated) == Some(Update(d));
    hide Step, Inv, Update, TellUpdated, DrainAdds, Turns, SurvivingSessions, SurvivingPlayers;
    UpdateTurns(d);
    UpdateExact(d);
    UpdateAgrees(d, h);
  }

  lemma UpdateTurns(d: Dir)
    requires Inv(d)
    ensures Turns(DrainAdds(d)) <= |DrainAdds(d).users| + |d.removeQueue|
  {
    DrainAddsExact(d);
    TurnsAreBounded(DrainAdds(d));
  }
}
