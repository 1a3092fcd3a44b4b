/**
 What matches broadcast over whole runs: each player's last update, its events exactly once, and
 when a broadcast stays inside its buffer.
 */
module MatchHistory {
  import opened Bytes
  import opened BufferUtils
  import opened MatchModel
  import opened MatchRuns
  import opened MatchTold

  // ---------------------------------------------------------------- phases and roster

  /** From h to x the phase did not go back, and after the start the roster did not grow. */
  ghost predicate Advances(h: Told, x: Told) {
    && Rank(h.phase) <= Rank(x.phase)
    && (Rank(h.phase) >= Rank(Started) ==> x.members.Keys <= h.members.Keys && x.startRoster == h.startRoster)
  }

  lemma CommandAdvances(h: Told, k: uint32, buffer: seq<byte>, beyond: seq<byte>)
    ensures Advances(h, TellCommand(h, k, buffer, beyond))
  {
    if k in h.members {
      assert h.members.Keys + {k} == h.members.Keys;
    }
  }

  lemma TellAdvances(h: Told, e: Event)
    ensures Advances(h, Tell(h, e))
  {
    hide TellCommand, BatchOf;
    match e
    case ExecuteCommand(k, buffer, beyond, _) => CommandAdvances(h, k, buffer, beyond);
    case _ =>
  }

  lemma {:induction false} ToldAdvances(h: Told, es: seq<Event>)
    ensures Advances(h, ToldFrom(h, es))
    decreases |es|
  {
    if es != [] {
      TellAdvances(h, es[0]);
      hide Tell;
      ToldAdvances(Tell(h, es[0]), es[1..]);
    }
  }

  /**
   Over any run the phase only advances; between two moments after the start the roster only
   shrinks, and it stays within the roster of the start.
   */
  lemma RosterFrozenAfterStart(before: seq<Event>, m: MatchState, after: seq<Event>, x: MatchState)
    requires Run(NewMatch(), before) == Some(m) && Run(m, after) == Some(x)
    ensures Rank(m.phase) <= Rank(x.phase)
    ensures Rank(m.phase) >= Rank(Started) ==> x.players.Keys <= m.players.Keys
    ensures x.phase.Started? ==> x.players.Keys <= ToldBy(before + after).startRoster
  {
    RunAppend(NewMatch(), before, m, after);
    RunAgrees(before, m);
    RunAgrees(before + after, x);
    ToldAppend(Nothing(), before, after);
    hide ToldFrom, SameRoster, Same;
    ToldAdvances(ToldBy(before), after);
  }

  /**
   In every run an orientation broadcast of a started match stays inside the buffer if and only
   if the roster is no larger than the start roster's size modulo 256.
   */
  lemma BroadcastFitsExactly(es: seq<Event>, m: MatchState)
    requires Run(NewMatch(), es) == Some(m) && m.phase.Started?
    ensures Step(m, SendOrientations).Some? <==> |m.players| <= |ToldBy(es).startRoster| % 0x100
    ensures Step(m, SendOrientations) == if Fits(m) then Some(m.(buffer := Filled(m))) else None
  {
    RunAgrees(es, m);
    hide ToldBy, SameRoster, Same, Filled;
    assert |m.buffer| == 29 * ToU8(|ToldBy(es).startRoster|) + 1;
  }

  /**
   In every run, if at most 255 players were in the match when it started, no later orientation
   broadcast writes outside the buffer: the step is always possible.
   */
  lemma BroadcastsStayInBuffer(es: seq<Event>, m: MatchState)
    requires Run(NewMatch(), es) == Some(m)
    requires m.phase.Started? && |ToldBy(es).startRoster| <= 0xFF
    ensures Fits(m) && Step(m, SendOrientations).Some? && |m.players| <= 0xFF
    ensures DecodeOrientations(Filled(m)) == Some(RosterEntries(m))
  {
    RunAgrees(es, m);
    SubsetSize(m.players.Keys, ToldBy(es).startRoster);
    BroadcastFitsExactly(es, m);
    hide ToldBy, Filled, SameRoster, Same;
    assert |m.players| == |m.players.Keys|;
    OrientationPacketDecodes(m);
  }

  lemma SubsetSize<T>(a: set<T>, b: set<T>)
    requires a <= b
    ensures |a| <= |b|
  {
    assert b == a + (b - a);
  }

  /**
   In every run an orientation broadcast that is due carries, for each player in key order, its
   instance id and the 28 bytes of the last update in its commands since it joined.
   */
  lemma BroadcastCarriesLastUpdates(es: seq<Event>, m: MatchState)
    requires Run(NewMatch(), es) == Some(m)
    requires m.phase.Started? && |ToldBy(es).startRoster| <= 0xFF
    ensures Fits(m)
    ensures var decoded, members := DecodeOrientations(Filled(m)), ToldBy(es).members;
            && decoded.Some? && |decoded.value| == |m.players|
            && forall i :: 0 <= i < |m.players| ==>
                 Keys(m)[i] in members &&
                 decoded.value[i] == OrientationEntry(members[Keys(m)[i]].instanceId, members[Keys(m)[i]].update)
  {
    BroadcastsStayInBuffer(es, m);
    RunAgrees(es, m);
    OrientationPacketDecodes(m);
    hide ToldBy, Filled, DecodeOrientations, SerializeOrientation, Keys, OnlyJumps;
    forall i | 0 <= i < |m.players|
      ensures Keys(m)[i] in m.players && Same(m.players[Keys(m)[i]], ToldBy(es).members[Keys(m)[i]])
    {
      assert Keys(m)[i] in Keys(m);
    }
  }

  // ---------------------------------------------------------------- events

  function Delivered(drained: seq<Outgoing>, userId: uint32): seq<PlayerEvent> {
    if drained == [] then []
    else OneDelivered(drained[0], userId) + Delivered(drained[1..], userId)
  }

  function OneDelivered(o: Outgoing, userId: uint32): seq<PlayerEvent> {
    if o.userId == userId then [o.event] else []
  }

  function ParseAll(packets: seq<seq<byte>>): Option<seq<WireEvent>> {
    if packets == [] then Some([])
    else match (ParseEventPacket(packets[0]), ParseAll(packets[1..]))
         case (Some(first), Some(rest)) => Some(first + rest)
         case _ => None
  }

  lemma {:induction false} DeliveredAppend(a: seq<Outgoing>, b: seq<Outgoing>, userId: uint32)
    ensures Delivered(a + b, userId) == Delivered(a, userId) + Delivered(b, userId)
  {
    if a == [] {
      assert a + b == b;
    } else {
      hide OneDelivered;
      DeliveredAppend(a[1..], b, userId);
      assert (a + b)[1..] == a[1..] + b;
      ConcatAssociates(OneDelivered(a[0], userId), Delivered(a[1..], userId), Delivered(b, userId));
    }
  }

  ghost predicate JumpsOnly(drained: seq<Outgoing>) {
    forall i :: 0 <= i < |drained| ==> drained[i].event.command == EVENT_JUMP
  }

  /** Accepted events are those taken from the queue followed by those in it, and all are Jumps. */
  ghost predicate Accounts(h: Told) {
    && (Rank(h.phase) < Rank(Started) ==> h.batches == [])
    && JumpsOnly(Flatten(h.batches))
    && forall k :: k in h.members ==> AccountsFor(h.members[k], Flatten(h.batches), k)
  }

  ghost predicate AccountsFor(m: Member, drained: seq<Outgoing>, k: uint32) {
    OnlyJumps(m.queued) && m.accepted == Delivered(drained, k) + m.queued
  }

  lemma {:induction false} SendsDeliver(k: uint32, m: Member, other: uint32)
    requires OnlyJumps(m.queued)
    ensures JumpsOnly(Sends(k, m))
    ensures Delivered(Sends(k, m), other) == if other == k then m.queued else []
    decreases |m.queued|
  {
    if m.queued != [] {
      var rest := m.(queued := m.queued[1..]);
      SendsDeliver(k, rest, other);
      assert Sends(k, m)[1..] == Sends(k, rest);
      assert m.queued == [m.queued[0]] + m.queued[1..];
    }
  }

  /** Among distinct keys each member's whole queue is delivered once. */
  lemma {:induction false} QueuedDelivers(members: map<uint32, Member>, keys: seq<uint32>, k: uint32)
    requires forall i :: i in keys ==> i in members && OnlyJumps(members[i].queued)
    requires forall i, j :: 0 <= i < j < |keys| ==> keys[i] != keys[j]
    ensures JumpsOnly(Queued(members, keys))
    ensures Delivered(Queued(members, keys), k) == if k in keys then members[k].queued else []
  {
    if keys != [] {
      var rest := keys[1..];
      assert forall i :: i in keys <==> i == keys[0] || i in rest;
      SendsDeliver(keys[0], members[keys[0]], k);
      QueuedDelivers(members, rest, k);
      DeliveredAppend(Sends(keys[0], members[keys[0]]), Queued(members, rest), k);
      hide Sends, Delivered, OnlyJumps;
    }
  }

  lemma BatchDelivers(members: map<uint32, Member>, k: uint32)
    requires forall i :: i in members ==> OnlyJumps(members[i].queued)
    ensures JumpsOnly(BatchOf(members))
    ensures Delivered(BatchOf(members), k) == if k in members then members[k].queued else []
  {
    KeyOrderHasKeys(members.Keys);
    KeyOrderIsSorted(members.Keys);
    hide KeyOrder, Queued, OnlyJumps;
    QueuedDelivers(members, KeyOrder(members.Keys), k);
  }

  lemma FlattenOneMore<T>(parts: seq<seq<T>>, part: seq<T>)
    ensures Flatten(parts + [part]) == Flatten(parts) + part
  {
    FlattenAppend(parts, [part]);
    assert Flatten([part]) == part + Flatten([]) == part;
  }

  lemma EmptyingAccounts(h: Told)
    requires Accounts(h) && h.phase.Started?
    ensures Accounts(Tell(h, SendEvents))
  {
    var out := BatchOf(h.members);
    assert forall k :: k in h.members ==> OnlyJumps(h.members[k].queued);
    hide BatchOf, OnlyJumps;
    FlattenOneMore(h.batches, out);
    BatchDelivers(h.members, 0);
    assert OnlyJumps([]);
    hide Flatten;
    forall k | k in h.members
      ensures h.members[k].accepted == Delivered(Flatten(h.batches) + out, k) + []
    {
      BatchDelivers(h.members, k);
      DeliveredAppend(Flatten(h.batches), out, k);
    }
  }

  lemma CommandAccounts(h: Told, k: uint32, buffer: seq<byte>, beyond: seq<byte>)
    requires Accounts(h)
    ensures Accounts(TellCommand(h, k, buffer, beyond))
  {
    if k in h.members && !(buffer != [] && buffer[0] == DEBUG_START) {
      var m, drained := h.members[k], Flatten(h.batches);
      var jumps := JumpIn(m.authenticated, buffer);
      assert OnlyJumps(m.queued + jumps);
      assert Commanded(m, buffer, beyond).queued == m.queued + jumps;
      assert Commanded(m, buffer, beyond).accepted == m.accepted + jumps;
      hide Commanded, JumpIn, OnlyJumps, Delivered, Flatten;
      ConcatAssociates(Delivered(drained, k), m.queued, jumps);
    }
  }

  lemma TellAccounts(h: Told, e: Event)
    requires Accounts(h) && (e.JoinPlayer? ==> OnlyJumps(e.player.events))
    ensures Accounts(Tell(h, e))
  {
    hide Flatten, TellCommand, OnlyJumps, BatchOf, JumpsOnly, SerializeOrientation;
    match e
    case ExecuteCommand(k, buffer, beyond, _) => CommandAccounts(h, k, buffer, beyond);
    case SendEvents =>
      if h.phase.Started? {
        EmptyingAccounts(h);
      }
    case JoinPlayer(p) => NothingDelivered(h, p.userId, p.events);
    case _ =>
  }

  lemma NothingDelivered(h: Told, k: uint32, events: seq<PlayerEvent>)
    requires Accounts(h)
    ensures Rank(h.phase) < Rank(Started) ==> events == Delivered(Flatten(h.batches), k) + events
  {
  }

  lemma {:induction false} ToldAccounts(m: MatchState, h: Told, es: seq<Event>)
    requires Accounts(h) && Run(m, es).Some?
    ensures Accounts(ToldFrom(h, es))
    decreases |es|
  {
    if es != [] {
      TellAccounts(h, es[0]);
      var next := Step(m, es[0]).value;
      hide Tell, Step, Accounts;
      ToldAccounts(next, Tell(h, es[0]), es[1..]);
    }
  }

  /** A packet parses to no more events than were put in, and to the same events only within the limits. */
  lemma PacketParses(ws: seq<WireEvent>)
    ensures var r := ParseEventPacket(EventPacket(ws));
            (r.Some? ==> |r.value| <= |ws|) && (r == Some(ws) <==> Encodable(ws))
  {
    var n, bytes := ToU8(|ws|), EncodeEvents(ws);
    EventPacketRoundTrip(ws);
    ParsedFits(n, bytes);
    assert n <= |ws|;
    assert EventPacket(ws)[0] == n && EventPacket(ws)[1..] == bytes;
    hide ToU8, EncodeEvents, EventPacket, ParseEvents, Encodable;
  }

  function PacketsOf(batches: seq<seq<Outgoing>>): seq<seq<byte>> {
    if batches == [] then []
    else (match Packet(batches[0]) case None => [] case Some(packet) => [packet]) + PacketsOf(batches[1..])
  }

  ghost predicate AllFit(batches: seq<seq<Outgoing>>) {
    forall i :: 0 <= i < |batches| ==> Encodable(Map(ToWire, batches[i]))
  }

  lemma {:induction false} BatchesParse(batches: seq<seq<Outgoing>>)
    ensures var r := ParseAll(PacketsOf(batches));
            && (r.Some? ==> |r.value| <= |Flatten(batches)|)
            && (r == Some(Map(ToWire, Flatten(batches))) <==> AllFit(batches))
  {
    if batches != [] {
      var batch, rest := batches[0], batches[1..];
      var ws, others := Map(ToWire, batch), Map(ToWire, Flatten(rest));
      BatchesParse(rest);
      MapAppend(ToWire, batch, Flatten(rest));
      assert batches == [batch] + rest;
      assert AllFit(batches) <==> Encodable(ws) && AllFit(rest);
      hide AllFit;
      OnePacketMore(batch, ws, PacketsOf(rest), others);
    }
  }

  /** One more batch: the packets tell all events if and only if the others do and the batch fits. */
  lemma OnePacketMore(batch: seq<Outgoing>, ws: seq<WireEvent>, packets: seq<seq<byte>>, others: seq<WireEvent>)
    requires ws == Map(ToWire, batch)
    requires ParseAll(packets).Some? ==> |ParseAll(packets).value| <= |others|
    ensures var r := ParseAll((match Packet(batch) case None => [] case Some(packet) => [packet]) + packets);
            && (r.Some? ==> |r.value| <= |ws + others|)
            && (r == Some(ws + others) <==> ParseAll(packets) == Some(others) && Encodable(ws))
  {
    PacketParses(ws);
    if Packet(batch).None? {
      assert [] + packets == packets;
      if ws == [] {
        assert ws + others == others;
      }
    } else {
      var packet := EventPacket(ws);
      assert ([packet] + packets)[1..] == packets;
      if ParseAll(packets).Some? && ParseEventPacket(packet).Some? {
        SplitAtLength(ParseEventPacket(packet).value, ParseAll(packets).value, ws, others);
      }
    }
  }

  lemma SplitAtLength<T>(a: seq<T>, b: seq<T>, c: seq<T>, d: seq<T>)
    requires |a| <= |c| && |b| <= |d|
    ensures a + b == c + d <==> a == c && b == d
  {
    if a + b == c + d {
      assert |a + b| == |c + d|;
      assert a == (a + b)[..|a|] == (c + d)[..|c|] == c;
      assert b == (a + b)[|a|..] == (c + d)[|c|..] == d;
    }
  }

  /**
   In every run, for each player in the roster, the events accepted are exactly those taken from
   its queue so far followed by those still in it, and nothing but Jump was ever taken. What
   clients parse out of the packets sent is all that was taken, in order, if and only if every
   batch had at most 255 events of at most 255 bytes each.
   */
  lemma EventsExactlyOnce(es: seq<Event>, m: MatchState)
    requires Run(NewMatch(), es) == Some(m)
    ensures m.players.Keys == ToldBy(es).members.Keys
    ensures var h := ToldBy(es);
            forall k :: k in m.players ==>
              h.members[k].accepted == Delivered(Flatten(h.batches), k) + m.players[k].events
    ensures JumpsOnly(Flatten(ToldBy(es).batches))
    ensures var batches := ToldBy(es).batches;
            ParseAll(PacketsOf(batches)) == Some(Map(ToWire, Flatten(batches))) <==> AllFit(batches)
  {
    assert Accounts(Nothing());
    ToldAccounts(NewMatch(), Nothing(), es);
    RunAgrees(es, m);
    BatchesParse(ToldBy(es).batches);
    hide ToldBy, ToldFrom, Run, Delivered, Flatten, AllFit, ParseAll, PacketsOf, SerializeOrientation, JumpsOnly, Map;
    forall k | k in m.players
      ensures ToldBy(es).members[k].accepted ==
              Delivered(Flatten(ToldBy(es).batches), k) + m.players[k].events
    {
      assert AccountsFor(ToldBy(es).members[k], Flatten(ToldBy(es).batches), k);
    }
  }

  // ---------------------------------------------------------------- a match that is too large

  function Newcomer(userId: uint32): PlayerState {
    var zero: Word := [0, 0, 0, 0];
    PlayerState(userId, 0, false, Vec3(zero, zero, zero), Quat(zero, zero, zero, zero), [])
  }

  /** n players join an open match. */
  lemma {:induction false} ManyJoin(n: nat) returns (es: seq<Event>, m: MatchState)
    requires n <= 0x1_0000
    ensures Run(NewMatch(), es) == Some(m) && m.phase.JoinedWaiting?
    ensures |m.players| == n && forall k :: k in m.players ==> k < n
  {
    if n == 0 {
      m := InitMatch(NewMatch());
      es := [Initialise];
      RunCons(NewMatch(), Initialise, []);
      assert [Initialise] + [] == [Initialise];
    } else {
      var es1, m1 := ManyJoin(n - 1);
      var join := JoinPlayer(Newcomer(n - 1));
      m := Join(m1, Newcomer(n - 1));
      es := es1 + [join];
      RunCons(m1, join, []);
      assert [join] + [] == [join];
      RunAppend(NewMatch(), es1, m1, [join]);
      assert m.players.Keys == m1.players.Keys + {n - 1};
      assert |m.players| == |m.players.Keys| && |m1.players| == |m1.players.Keys|;
    }
  }

  /** A match that starts with 256 players has a one-byte buffer, and its first broadcast leaves it. */
  lemma LargeMatchOverruns() returns (es: seq<Event>, m: MatchState)
    ensures Run(NewMatch(), es) == Some(m) && m.phase.Started? && |ToldBy(es).startRoster| == 0x100
    ensures Step(m, SendOrientations).None?
  {
    var es1, m1 := ManyJoin(0x100);
    var start := StartMatch([]);
    m := Start(m1, []);
    es := es1 + [start];
    RunCons(m1, start, []);
    assert [start] + [] == [start];
    RunAppend(NewMatch(), es1, m1, [start]);
    RunAgrees(es1, m1);
    ToldAppend(Nothing(), es1, [start]);
    assert ToldFrom(ToldBy(es1), [start]) == TellStart(ToldBy(es1));
    assert |m1.players| == |m1.players.Keys|;
    hide ToldFrom, Run, SameRoster, Same;
    BroadcastFitsExactly(es, m);
  }

  // ---------------------------------------------------------------- one jump, short or long

  /** A match of one player who jumps once, with data. */
  function JumpRun(data: seq<byte>): seq<Event> {
    [Initialise, JoinPlayer(Newcomer(0)), SetAuthenticated(0, true), StartMatch([]),
     ExecuteCommand(0, [PLAYER_EVENT, EVENT_JUMP] + data, [], []), SendEvents]
  }

  lemma {:induction false} RunWithoutBroadcasts(m: MatchState, es: seq<Event>)
    requires forall i :: 0 <= i < |es| ==>
        !es[i].SendOrientations? && (es[i].JoinPlayer? ==> OnlyJumps(es[i].player.events))
    ensures Run(m, es).Some?
    decreases |es|
  {
    if es != [] {
      var next := Step(m, es[0]).value;
      hide Step;
      RunWithoutBroadcasts(next, es[1..]);
    }
  }

  /** What the run of one jump tells. */
  lemma JumpIsTold(data: seq<byte>)
    ensures var h, e := ToldBy(JumpRun(data)), PlayerEvent(EVENT_JUMP, data);
            && h.batches == [[Outgoing(0, 1, e)]]
            && h.members.Keys == {0} && h.members[0].accepted == [e] && h.members[0].queued == []
  {
    var es := JumpRun(data);
    var e, buffer := PlayerEvent(EVENT_JUMP, data), [PLAYER_EVENT, EVENT_JUMP] + data;
    var p := Member(1, true, Orientation(Newcomer(0)), [], []);
    var h1 := Told(JoinedWaiting, map[], {}, []);
    var h2 := h1.(members := map[0 := p.(authenticated := false)]);
    var h3 := h1.(members := map[0 := p]);
    var h4 := Told(Started, map[0 := p], {0}, []);
    var h5 := h4.(members := map[0 := p.(queued := [e], accepted := [e])]);
    assert JumpIn(true, buffer) == [e] && UpdateIn(buffer, []) == None by {
      assert buffer[2..] == data;
    }
    assert Tell(Nothing(), es[0]) == h1;
    FirstIsTold(h1);
    assert Tell(h2, es[2]) == h3;
    assert h3.members.Keys == {0} && Tell(h3, es[3]) == h4;
    assert [] + [e] == [e] && Tell(h4, es[4]) == h5;
    OneBatch(h5.members, e);
    hide JumpIn, UpdateIn, BatchOf, SerializeOrientation;
    assert es == [es[0], es[1], es[2], es[3], es[4], es[5]];
    ToldSix(es, h1, h2, h3, h4, h5);
  }

  lemma FirstIsTold(h: Told)
    requires h == Told(JoinedWaiting, map[], {}, [])
    ensures Tell(h, JoinPlayer(Newcomer(0))) ==
            h.(members := map[0 := Member(1, false, Orientation(Newcomer(0)), [], [])])
  {
    assert h.members.Keys + {0} == {0};
    hide SerializeOrientation;
  }

  lemma OneBatch(members: map<uint32, Member>, e: PlayerEvent)
    requires members.Keys == {0} && members[0].queued == [e] && members[0].instanceId == 1
    ensures BatchOf(members) == [Outgoing(0, 1, e)]
  {
    assert KeyOrder({0}) == [0] + KeyOrder({}) by {
      assert Least({0}) == 0 && {0 as uint32} - {0} == {};
    }
    assert Queued(members, [0]) == Sends(0, members[0]) + Queued(members, []);
  }

  lemma ToldSix(es: seq<Event>, h1: Told, h2: Told, h3: Told, h4: Told, h5: Told)
    requires |es| == 6 && Tell(Nothing(), es[0]) == h1 && Tell(h1, es[1]) == h2 && Tell(h2, es[2]) == h3
    requires Tell(h3, es[3]) == h4 && Tell(h4, es[4]) == h5
    ensures ToldBy(es) == Tell(h5, es[5])
  {
    hide Tell;
    assert ToldFrom(h5, es[5..]) == Tell(h5, es[5]);
    assert ToldFrom(h4, es[4..]) == ToldFrom(h5, es[4..][1..]) && es[4..][1..] == es[5..];
    assert ToldFrom(h3, es[3..]) == ToldFrom(h4, es[3..][1..]) && es[3..][1..] == es[4..];
    assert ToldFrom(h2, es[2..]) == ToldFrom(h3, es[2..][1..]) && es[2..][1..] == es[3..];
    assert ToldFrom(h1, es[1..]) == ToldFrom(h2, es[1..][1..]) && es[1..][1..] == es[2..];
  }

  /** Clients parse the jump out of what was sent if and only if its data has at most 255 bytes. */
  lemma JumpArrivesExactly(data: seq<byte>) returns (m: MatchState)
    ensures Run(NewMatch(), JumpRun(data)) == Some(m)
    ensures ToldBy(JumpRun(data)).members.Keys == {0}
    ensures ToldBy(JumpRun(data)).members[0].accepted == [PlayerEvent(EVENT_JUMP, data)]
    ensures ParseAll(PacketsOf(ToldBy(JumpRun(data)).batches)) == Some([WireEvent(1, EVENT_JUMP, data)]) <==>
            |data| <= 0xFF
  {
    var out := [Outgoing(0, 1, PlayerEvent(EVENT_JUMP, data))];
    RunWithoutBroadcasts(NewMatch(), JumpRun(data));
    m := Run(NewMatch(), JumpRun(data)).value;
    JumpIsTold(data);
    EventsExactlyOnce(JumpRun(data), m);
    hide Run, NewMatch, JumpRun, ToldBy, ParseAll, PacketsOf;
    assert Flatten([out]) == out + Flatten([]) == out;
    assert Map(ToWire, out) == [WireEvent(1, EVENT_JUMP, data)];
    assert AllFit([out]) <==> Encodable(Map(ToWire, out));
  }
}
