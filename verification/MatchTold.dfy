/**
 What the events of a run tell about a match, without its buffer, its queues or the layout of
 anything: a reference for MatchRuns, which is shown to agree with it step by step.
 */
module MatchTold {
  import opened Bytes
  import opened BufferUtils
  import opened MatchModel
  import opened MatchRuns

  /** accepted: the events it joined with and every Jump since; queued: those not yet taken. */
  datatype Member = Member(
    instanceId: byte, authenticated: bool, update: seq<byte>, queued: seq<PlayerEvent>, accepted: seq<PlayerEvent>)

  /** batches: what each SendPlayerEvents took from the queues. */
  datatype Told = Told(
    phase: Phase, members: map<uint32, Member>, startRoster: set<uint32>, batches: seq<seq<Outgoing>>)

  function Nothing(): Told {
    Told(Created, map[], {}, [])
  }

  /** The orientation update carried by a command. */
  function UpdateIn(buffer: seq<byte>, beyond: seq<byte>): Option<seq<byte>> {
    if buffer != [] && buffer[0] == UPDATE_ORIENTATION then Some(ReadUpdate(buffer[1..], beyond)) else None
  }

  /**
   An update is the 28 bytes behind its command code if the command is long enough; a shorter
   one, and only a shorter one, takes in whatever memory follows it.
   */
  lemma UpdateReadsOnlyTheCommand(buffer: seq<byte>)
    requires buffer != [] && buffer[0] == UPDATE_ORIENTATION
    ensures (forall b, c :: UpdateIn(buffer, b) == UpdateIn(buffer, c)) <==> |buffer| > ORIENTATION_SIZE
    ensures |buffer| > ORIENTATION_SIZE ==>
        forall b :: UpdateIn(buffer, b) == Some(buffer[1..1 + ORIENTATION_SIZE])
  {
    var data := buffer[1..];
    if |buffer| > ORIENTATION_SIZE {
      forall b ensures UpdateIn(buffer, b) == Some(data[..ORIENTATION_SIZE]) {
        assert (data + b)[..ORIENTATION_SIZE] == data[..ORIENTATION_SIZE];
      }
      assert data[..ORIENTATION_SIZE] == buffer[1..1 + ORIENTATION_SIZE];
    } else {
      var zeros: seq<byte>, ones: seq<byte> := seq(ORIENTATION_SIZE, _ => 0), seq(ORIENTATION_SIZE, _ => 1);
      var last := ORIENTATION_SIZE - 1;
      assert UpdateIn(buffer, zeros).value[last] == 0 && UpdateIn(buffer, ones).value[last] == 1;
    }
  }

  /** The Jump event carried by a command of an authenticated player. */
  function JumpIn(authenticated: bool, buffer: seq<byte>): seq<PlayerEvent> {
    if authenticated && |buffer| >= 2 && buffer[0] == PLAYER_EVENT && buffer[1] == EVENT_JUMP
    then [PlayerEvent(EVENT_JUMP, buffer[2..])]
    else []
  }

  function Sends(k: uint32, m: Member): (r: seq<Outgoing>)
    ensures |r| == |m.queued|
  {
    seq(|m.queued|, i requires 0 <= i < |m.queued| => Outgoing(k, m.instanceId, m.queued[i]))
  }

  /** Each member's queue, one after the other. */
  function Queued(members: map<uint32, Member>, keys: seq<uint32>): seq<Outgoing>
    requires forall k :: k in keys ==> k in members
  {
    if keys == [] then [] else Sends(keys[0], members[keys[0]]) + Queued(members, keys[1..])
  }

  /** All queues in the order of the user ids. */
  function BatchOf(members: map<uint32, Member>): seq<Outgoing> {
    KeyOrderHasKeys(members.Keys);
    Queued(members, KeyOrder(members.Keys))
  }

  function TellStart(h: Told): Told {
    if h.phase.JoinedWaiting? then h.(phase := Started, startRoster := h.members.Keys) else h
  }

  /** The update and the Jump that a command of its player carries. */
  function Commanded(m: Member, buffer: seq<byte>, beyond: seq<byte>): Member {
    var update, jumps := UpdateIn(buffer, beyond), JumpIn(m.authenticated, buffer);
    m.(update := if update.Some? then update.value else m.update,
       queued := m.queued + jumps, accepted := m.accepted + jumps)
  }

  function TellCommand(h: Told, k: uint32, buffer: seq<byte>, beyond: seq<byte>): Told {
    if k !in h.members then h
    else if buffer != [] && buffer[0] == DEBUG_START then TellStart(h)
    else h.(members := h.members[k := Commanded(h.members[k], buffer, beyond)])
  }

  function Emptied(members: map<uint32, Member>): map<uint32, Member> {
    map k | k in members :: members[k].(queued := [])
  }

  function Tell(h: Told, e: Event): Told {
    match e
    case Initialise => if h.phase.Created? then h.(phase := JoinedWaiting) else h
    case JoinPlayer(p) =>
      if h.phase.JoinedWaiting?
      then h.(members := h.members[p.userId := Member(|h.members.Keys + {p.userId}| % 0x100, p.authenticated,
                                                      Orientation(p), p.events, p.events)])
      else h
    case RemovePlayer(k) => h.(members := h.members - {k})
    case SetAuthenticated(k, flag) =>
      if k in h.members then h.(members := h.members[k := h.members[k].(authenticated := flag)]) else h
    case StartMatch(_) => TellStart(h)
    case End => h.(phase := Ended)
    case ExecuteCommand(k, buffer, beyond, _) => TellCommand(h, k, buffer, beyond)
    case SendOrientations => h
    case SendEvents =>
      if h.phase.Started?
      then h.(batches := h.batches + [BatchOf(h.members)], members := Emptied(h.members))
      else h
  }

  function ToldFrom(h: Told, es: seq<Event>): Told
    decreases |es|
  {
    if es == [] then h else ToldFrom(Tell(h, es[0]), es[1..])
  }

  function ToldBy(es: seq<Event>): Told {
    ToldFrom(Nothing(), es)
  }

  lemma {:induction false} ToldAppend(h: Told, a: seq<Event>, b: seq<Event>)
    ensures ToldFrom(h, a + b) == ToldFrom(ToldFrom(h, a), b)
    decreases |a|
  {
    if a == [] {
      assert a + b == b;
    } else {
      assert (a + b)[1..] == a[1..] + b;
      ToldAppend(Tell(h, a[0]), a[1..], b);
    }
  }

  // ---------------------------------------------------------------- agreement

  function Rank(p: Phase): nat {
    match p
    case Created => 0
    case JoinedWaiting => 1
    case Started => 2
    case Ended => 3
  }

  predicate Same(p: PlayerState, m: Member) {
    && p.instanceId == m.instanceId && p.authenticated == m.authenticated
    && Orientation(p) == m.update && p.events == m.queued && OnlyJumps(p.events)
  }

  ghost predicate SameRoster(players: Roster, members: map<uint32, Member>) {
    && players.Keys == members.Keys
    && forall k :: k in players ==> Same(players[k], members[k])
  }

  /** After the start the roster is within that of the start, by which the buffer is sized. */
  predicate Sizes(m: MatchState, h: Told) {
    && (m.phase.Created? ==> m.players.Keys == {})
    && (m.phase.Started? ==> m.players.Keys <= h.startRoster && |m.buffer| == BufferSize(|h.startRoster|))
    && (Rank(m.phase) < Rank(Started) ==> h.batches == [])
  }

  ghost predicate Agrees(m: MatchState, h: Told) {
    m.phase == h.phase && SameRoster(m.players, h.members) && Sizes(m, h)
  }

  /** A command leaves its player with the update and the events it carried, and no others. */
  lemma CommandOnPlayer(p: PlayerState, buffer: seq<byte>, beyond: seq<byte>)
    ensures var q := ExecuteOnPlayer(p, buffer, beyond);
            var update := UpdateIn(buffer, beyond);
            && q.userId == p.userId && q.instanceId == p.instanceId && q.authenticated == p.authenticated
            && Orientation(q) == (if update.Some? then update.value else Orientation(p))
            && q.events == p.events + JumpIn(p.authenticated, buffer)
  {
    if buffer != [] {
      var rest := RemoveFront(REMOVE_CMD, buffer);
      if buffer[0] == UPDATE_ORIENTATION {
        OrientationBitExact(ReadUpdate(rest, beyond));
      } else if buffer[0] == PLAYER_EVENT && rest != [] {
        assert RemoveFront(REMOVE_CMD, rest) == buffer[2..];
      }
    }
  }

  lemma SetMember(players: Roster, members: map<uint32, Member>, k: uint32, p: PlayerState, q: Member)
    requires SameRoster(players, members) && p.userId == k && Same(p, q)
    ensures SameRoster(players[k := p], members[k := q])
  {
  }

  lemma JoinAgrees(m: MatchState, h: Told, p: PlayerState)
    requires Agrees(m, h) && OnlyJumps(p.events)
    ensures Agrees(Join(m, p), Tell(h, JoinPlayer(p)))
  {
    if m.phase.JoinedWaiting? {
      var n := |m.players.Keys + {p.userId}|;
      var q := p.(instanceId := ToU8(n));
      assert Orientation(q) == Orientation(p);
      SetMember(m.players, h.members, p.userId, q,
                Member(n % 0x100, p.authenticated, Orientation(p), p.events, p.events));
      hide SameRoster, SerializeOrientation;
    }
  }

  lemma StartAgrees(m: MatchState, h: Told, junk: seq<byte>)
    requires Agrees(m, h)
    ensures Agrees(Start(m, junk), TellStart(h))
  {
    hide Same;
    assert |m.players| == |m.players.Keys|;
  }

  lemma PlayerAgrees(p: PlayerState, m: Member, buffer: seq<byte>, beyond: seq<byte>)
    requires Same(p, m)
    ensures Same(ExecuteOnPlayer(p, buffer, beyond), Commanded(m, buffer, beyond))
  {
    CommandOnPlayer(p, buffer, beyond);
    hide ExecuteOnPlayer, UpdateIn, SerializeOrientation;
  }

  lemma CommandAgrees(m: MatchState, h: Told, k: uint32, buffer: seq<byte>, beyond: seq<byte>, junk: seq<byte>)
    requires Agrees(m, h)
    ensures Agrees(Execute(m, k, buffer, beyond, junk), TellCommand(h, k, buffer, beyond))
  {
    if k in m.players {
      if buffer != [] && buffer[0] == DEBUG_START {
        StartAgrees(m, h, junk);
      } else {
        PlayerAgrees(m.players[k], h.members[k], buffer, beyond);
        ChangeAgrees(m, h, k, ExecuteOnPlayer(m.players[k], buffer, beyond), Commanded(h.members[k], buffer, beyond));
        hide ExecuteOnPlayer, Commanded, Agrees;
      }
    }
  }

  /** One player, and what is told of it, changes. */
  lemma ChangeAgrees(m: MatchState, h: Told, k: uint32, p: PlayerState, q: Member)
    requires Agrees(m, h) && k in m.players && p.userId == k && Same(p, q)
    ensures Agrees(m.(players := m.players[k := p]), h.(members := h.members[k := q]))
  {
    SetMember(m.players, h.members, k, p, q);
    hide SameRoster, Same;
    assert m.players[k := p].Keys == m.players.Keys;
  }

  lemma FlagIsSame(p: PlayerState, m: Member, flag: bool)
    requires Same(p, m)
    ensures Same(p.(authenticated := flag), m.(authenticated := flag))
  {
    assert Orientation(p.(authenticated := flag)) == Orientation(p);
  }

  lemma FlagAgrees(m: MatchState, h: Told, k: uint32, flag: bool)
    requires Agrees(m, h)
    ensures Agrees(Flagged(m, k, flag), Tell(h, SetAuthenticated(k, flag)))
  {
    if k in m.players {
      var p, q := m.players[k].(authenticated := flag), h.members[k].(authenticated := flag);
      FlagIsSame(m.players[k], h.members[k], flag);
      hide Same, Agrees;
      ChangeAgrees(m, h, k, p, q);
    }
  }

  lemma RemoveAgrees(m: MatchState, h: Told, k: uint32)
    requires Agrees(m, h)
    ensures Agrees(Remove(m, k), Tell(h, RemovePlayer(k)))
  {
    hide Same;
  }

  lemma EmptyAgrees(m: MatchState, h: Told)
    requires Agrees(m, h)
    ensures Step(m, SendEvents).Some? && Agrees(Step(m, SendEvents).value, Tell(h, SendEvents))
  {
    assert Silenced(m.players).Keys == m.players.Keys;
    hide BatchOf;
  }

  lemma BroadcastAgrees(m: MatchState, h: Told)
    requires Agrees(m, h) && Fits(m)
    ensures Agrees(m.(buffer := Filled(m)), h)
  {
    EntriesDecode(RosterEntries(m), []);
    assert |Filled(m)| == |m.buffer|;
    hide Filled, SameRoster;
  }

  lemma StepAgrees(m: MatchState, h: Told, e: Event, x: MatchState)
    requires Agrees(m, h) && Step(m, e) == Some(x)
    ensures Agrees(x, Tell(h, e))
  {
    hide SameRoster;
    match e
    case JoinPlayer(p) => JoinAgrees(m, h, p);
    case RemovePlayer(k) => RemoveAgrees(m, h, k);
    case SetAuthenticated(k, flag) => FlagAgrees(m, h, k, flag);
    case StartMatch(junk) => StartAgrees(m, h, junk);
    case ExecuteCommand(k, buffer, beyond, junk) => CommandAgrees(m, h, k, buffer, beyond, junk);
    case SendEvents => EmptyAgrees(m, h);
    case SendOrientations =>
      if m.phase.Started? {
        BroadcastAgrees(m, h);
        hide Filled;
      }
    case Initialise =>
    case End =>
  }

  lemma {:induction false} RunAgreesFrom(m: MatchState, h: Told, es: seq<Event>, x: MatchState)
    requires Agrees(m, h) && Run(m, es) == Some(x)
    ensures Agrees(x, ToldFrom(h, es))
    decreases |es|
  {
    hide Agrees, Tell, Step;
    if es != [] {
      var next := Step(m, es[0]).value;
      StepAgrees(m, h, es[0], next);
      RunAgreesFrom(next, Tell(h, es[0]), es[1..], x);
    }
  }

  /**
   In every run the state of a match, its roster, and the instance id, flag, orientation and event
   queue of each player are what the events of the run tell.
   */
  lemma RunAgrees(es: seq<Event>, m: MatchState)
    requires Run(NewMatch(), es) == Some(m)
    ensures Agrees(m, ToldBy(es))
    ensures m.phase == ToldBy(es).phase && m.players.Keys == ToldBy(es).members.Keys
    ensures forall k :: k in m.players ==> Same(m.players[k], ToldBy(es).members[k])
  {
    assert Agrees(NewMatch(), Nothing());
    RunAgreesFrom(NewMatch(), Nothing(), es, m);
  }

  lemma {:induction false} PendingIsSends(k: uint32, p: PlayerState, m: Member)
    requires p.userId == k && p.instanceId == m.instanceId && p.events == m.queued && OnlyJumps(p.events)
    ensures Pending(p.userId, p.instanceId, p.events) == Sends(k, m)
    decreases |p.events|
  {
    if p.events != [] {
      var rest := m.(queued := m.queued[1..]);
      PendingIsSends(k, p.(events := p.events[1..]), rest);
      assert Sends(k, m) == [Outgoing(k, m.instanceId, m.queued[0])] + Sends(k, rest);
    }
  }

  lemma {:induction false} PendingIsQueued(players: Roster, members: map<uint32, Member>, keys: seq<uint32>)
    requires SameRoster(players, members) && forall k :: k in keys ==> k in players
    ensures AllPending(InOrder(players, keys)) == Queued(members, keys)
  {
    if keys != [] {
      var k, rest := keys[0], keys[1..];
      assert InOrder(players, keys)[0] == players[k] && InOrder(players, keys)[1..] == InOrder(players, rest);
      PendingIsSends(k, players[k], members[k]);
      PendingIsQueued(players, members, rest);
      hide InOrder, Pending, Sends;
    }
  }

  /** What SendPlayerEvents takes and sends is what the events of the run tell. */
  lemma SendsWhatIsTold(es: seq<Event>, m: MatchState)
    requires Run(NewMatch(), es) == Some(m)
    ensures RosterPending(m) == BatchOf(ToldBy(es).members)
    ensures EventsToSend(m) == Packet(BatchOf(ToldBy(es).members))
    ensures EventsToSend(m) == None <==> |BatchOf(ToldBy(es).members)| % 0x100 == 0
  {
    RunAgrees(es, m);
    var n := |BatchOf(ToldBy(es).members)|;
    assert ToU8(n) == n % 0x100;
    hide ToldBy, Same, BatchOf, ToU8, EventPacket;
    PendingIsQueued(m.players, ToldBy(es).members, Keys(m));
  }
}
