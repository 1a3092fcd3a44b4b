/**
 The classes Match and Player (source/Match.h, source/Match.cpp, source/Player.h): methods
 that update fields, maps and the send buffer in place, each tied to its operation in MatchRuns.
 */
module MatchObjects {
  import opened Bytes
  import opened BufferUtils
  import opened MatchModel
  import opened MatchRuns

  class Player {
    const userId: uint32
    var instanceId: byte
    var authenticated: bool     // the flag of the session behind Socket_User()
    var location: Vec3
    var rotation: Quat
    var events: seq<PlayerEvent>
    var activeMatch: Match?

    constructor (userId: uint32)
      ensures this.userId == userId && instanceId == 0 && events == [] && activeMatch == null
    {
      this.userId := userId;
      instanceId, authenticated, events, activeMatch := 0, false, [], null;
      var zero: Word := [0, 0, 0, 0];
      location, rotation := Vec3(zero, zero, zero), Quat(zero, zero, zero, zero);
    }

    function View(): PlayerState
      reads this
    {
      PlayerState(userId, instanceId, authenticated, location, rotation, events)
    }

    method AddPlayerEvent(e: PlayerEvent)
      modifies this`events
      ensures View() == AddEvent(old(View()), e)
    {
      if e.command == EVENT_JUMP {
        events := events + [e];
      }
    }

    /** Serialize_Orientation: 28 bytes into the caller's buffer. */
    method SerializeInto(outBuff: array<byte>, at: nat)
      requires at + ORIENTATION_SIZE <= outBuff.Length
      modifies outBuff
      ensures outBuff[..] == old(outBuff[..])[..at] + Orientation(View()) + old(outBuff[..])[at + ORIENTATION_SIZE..]
    {
      MemCopy(outBuff, at, SerializeOrientation(location, rotation));
    }

    /** One turn of the fill loop: the instance id, then the orientation. */
    method FillEntry(outBuff: array<byte>, at: nat)
      requires at + ENTRY_SIZE <= outBuff.Length
      modifies outBuff
      ensures outBuff[..] == old(outBuff[..])[..at] + EntryBytes(EntryOf(View())) + old(outBuff[..])[at + ENTRY_SIZE..]
    {
      ghost var before := outBuff[..];
      outBuff[at] := instanceId;
      assert outBuff[..] == before[at := instanceId];
      assert outBuff[..][..at + 1] == before[..at] + [instanceId];
      assert outBuff[..][at + ENTRY_SIZE..] == before[at + ENTRY_SIZE..];
      SerializeInto(outBuff, at + 1);
    }

    /** One event in the format of the packet. */
    method AppendEvent(eventsBuff: seq<byte>, e: PlayerEvent) returns (res: seq<byte>)
      ensures res == eventsBuff + WireBytes(ToWire(Outgoing(userId, instanceId, e)))
    {
      hide ToU8;
      res := eventsBuff + [instanceId];
      res := res + [e.command];
      res := res + [ToU8(|e.data|)];
      if |e.data| > 0 {
        res := Add(res, e.data);
      }
    }

    /** SerializePlayerEvents: drains the queue into eventsBuff. */
    method SerializePlayerEvents(eventsBuff: seq<byte>) returns (res: seq<byte>, numEvents: nat)
      modifies this`events
      ensures events == []
      ensures var out := Wires(userId, instanceId, old(events));
              res == eventsBuff + EncodeEvents(out) && numEvents == |out|
    {
      res, numEvents := eventsBuff, 0;
      ghost var done: seq<PlayerEvent> := [];
      assert Wires(userId, instanceId, done) == [];
      assert EncodeEvents(Wires(userId, instanceId, done)) == [];
      hide Wires, EncodeEvents, WireBytes, ToWire;
      while events != []
        invariant old(events) == done + events
        invariant res == eventsBuff + EncodeEvents(Wires(userId, instanceId, done))
        invariant numEvents == |Wires(userId, instanceId, done)|
        decreases |events|
      {
        var active := events[0];
        events := events[1..];
        WiresStep(userId, instanceId, done, active);
        done := done + [active];
        if active.command == EVENT_NONE {
          continue;
        }
        res := AppendEvent(res, active);
        numEvents := numEvents + 1;
      }
      assert done == old(events);
    }
  }

  /** The wire form of one player's queue. */
  function Wires(userId: uint32, instanceId: byte, events: seq<PlayerEvent>): seq<WireEvent> {
    Map(ToWire, Pending(userId, instanceId, events))
  }

  lemma {:induction false} PendingAppend(userId: uint32, instanceId: byte, a: seq<PlayerEvent>, b: seq<PlayerEvent>)
    ensures Pending(userId, instanceId, a + b) == Pending(userId, instanceId, a) + Pending(userId, instanceId, b)
  {
    if a == [] {
      assert a + b == b;
    } else {
      assert (a + b)[1..] == a[1..] + b;
      PendingAppend(userId, instanceId, a[1..], b);
    }
  }

  lemma WiresStep(userId: uint32, instanceId: byte, done: seq<PlayerEvent>, e: PlayerEvent)
    ensures var w := ToWire(Outgoing(userId, instanceId, e));
            var before, after := Wires(userId, instanceId, done), Wires(userId, instanceId, done + [e]);
            if e.command == EVENT_NONE then after == before
            else |after| == |before| + 1 && EncodeEvents(after) == EncodeEvents(before) + WireBytes(w)
  {
    PendingAppend(userId, instanceId, done, [e]);
    var w := ToWire(Outgoing(userId, instanceId, e));
    MapAppend(ToWire, Pending(userId, instanceId, done), Pending(userId, instanceId, [e]));
    if e.command != EVENT_NONE {
      assert Pending(userId, instanceId, [e]) == [Outgoing(userId, instanceId, e)];
      assert Map(ToWire, Pending(userId, instanceId, [e])) == [w];
      EventsAppend(Wires(userId, instanceId, done), [w]);
      assert EncodeEvents([w]) == WireBytes(w);
    } else {
      assert Pending(userId, instanceId, [e]) == [];
    }
  }

  datatype NetCommand = NetCommand(user: uint32, buffer: seq<byte>)

  /** What lies behind a command that is too short, and in memory that is allocated for it. */
  datatype Memory = Memory(beyond: seq<byte>, junk: seq<byte>)

  /** The commands executed one after the other, the first with memory(i), the next with memory(i + 1). */
  function ExecuteAll(m: MatchState, commands: seq<NetCommand>, memory: nat -> Memory, i: nat): MatchState
    decreases |commands|
  {
    if commands == [] then m
    else ExecuteAll(Execute(m, commands[0].user, commands[0].buffer, memory(i).beyond, memory(i).junk),
                    commands[1..], memory, i + 1)
  }

  lemma ExecuteAllUnfold(m: MatchState, commands: seq<NetCommand>, memory: nat -> Memory, i: nat)
    ensures ExecuteAll(m, commands, memory, i) ==
            if commands == [] then m
            else ExecuteAll(Execute(m, commands[0].user, commands[0].buffer, memory(i).beyond, memory(i).junk),
                            commands[1..], memory, i + 1)
  {
  }

  ghost predicate Keyed(players: map<uint32, Player>) {
    forall k :: k in players ==> players[k].userId == k
  }

  ghost function Views(players: map<uint32, Player>): (r: Roster)
    reads players.Values
    requires Keyed(players)
    ensures r.Keys == players.Keys && |r| == |players|
    ensures forall k :: k in players ==> r[k] == players[k].View()
  {
    var r := map k | k in players :: players[k].View();
    assert r.Keys == players.Keys;
    r
  }

  lemma JoinIs(before: MatchState, p: PlayerState, after: MatchState)
    requires before.phase.JoinedWaiting? && after.phase == before.phase && after.buffer == before.buffer
    requires after.players.Keys == before.players.Keys + {p.userId}
    requires after.players[p.userId] == p.(instanceId := ToU8(|after.players|))
    requires forall k :: k in before.players && k != p.userId ==> after.players[k] == before.players[k]
    ensures after == Join(before, p)
  {
    hide ToU8;
    assert |after.players| == |after.players.Keys|;
    var joined := p.(instanceId := ToU8(|before.players.Keys + {p.userId}|));
    assert after.players[p.userId] == joined;
    assert after.players == before.players[p.userId := joined];
  }

  lemma RemoveIs(before: MatchState, userId: uint32, after: MatchState)
    requires after.phase == before.phase && after.buffer == before.buffer
    requires after.players.Keys == before.players.Keys - {userId}
    requires forall k :: k in after.players ==> after.players[k] == before.players[k]
    ensures after == Remove(before, userId)
  {
  }

  method Allocate(contents: seq<byte>) returns (buffer: array<byte>)
    ensures fresh(buffer) && buffer[..] == contents
  {
    buffer := new byte[|contents|];
    MemCopy(buffer, 0, contents);
  }

  /** PastBuffer: the fill loop would write behind the buffer; nothing is claimed about what follows. */
  datatype Broadcast = NotSent | Sent(packet: seq<byte>) | PastBuffer

  class Match {
    const id: string
    const shortId: uint16
    var phase: Phase
    var players: map<uint32, Player>
    var buffer: array<byte>          // m_orientation_send_buffer; empty before the start
    var commands: seq<NetCommand>

    constructor (id: string, shortId: uint16)
      ensures Valid() && this.id == id && this.shortId == shortId
      ensures View() == MatchState(Created, map[], []) && commands == []
    {
      this.id, this.shortId := id, shortId;
      phase, players, commands := Created, map[], [];
      buffer := new byte[0];
    }

    ghost predicate Valid()
      reads this
    {
      Keyed(players)
    }

    ghost function View(): MatchState
      reads this, players.Values, buffer
      requires Valid()
    {
      MatchState(phase, Views(players), buffer[..])
    }

    method InitThread()
      requires Valid()
      modifies this`phase
      ensures Valid() && View() == InitMatch(old(View()))
    {
      if phase.Created? {
        phase := JoinedWaiting;
      }
    }

    method JoinPlayer(player: Player) returns (joined: bool)
      requires Valid()
      modifies this`players, player
      ensures Valid() && View() == Join(old(View()), old(player.View()))
      ensures joined == phase.JoinedWaiting?
      ensures !joined ==> unchanged(player) && players == old(players)
      ensures joined ==> player.activeMatch == this && players == old(players)[player.userId := player]
    {
      if !phase.JoinedWaiting? {
        return false;
      }
      ghost var before, p := View(), player.View();
      Insert(player);
      JoinIs(before, p, View());
      return true;
    }

    /** The part of JoinPlayer inside the lock. */
    method Insert(player: Player)
      requires Valid()
      modifies this`players, player
      ensures Valid() && players == old(players)[player.userId := player]
      ensures player.View() == old(player.View()).(instanceId := ToU8(|players|)) && player.activeMatch == this
      ensures forall k :: k in players && k != player.userId ==> players[k].View() == old(players[k].View())
    {
      player.activeMatch := this;
      players := players[player.userId := player];
      player.instanceId := ToU8(|players|);
    }

    /** The player is looked up, and erased, by its user id. */
    method RemovePlayer(player: Player) returns (removed: bool)
      requires Valid()
      modifies this`players, player
      ensures Valid() && View() == Remove(old(View()), player.userId)
      ensures removed == (player.userId in old(players))
      ensures player.activeMatch == if removed then null else old(player.activeMatch)
      ensures player.View() == old(player.View())
    {
      ghost var before := View();
      if player.userId in players {
        player.activeMatch := null;
        players := players - {player.userId};
        RemoveIs(before, player.userId, View());
        return true;
      }
      RemoveIs(before, player.userId, before);
      return false;
    }

    method StartMatch(junk: seq<byte>)
      requires Valid()
      modifies this`phase, this`buffer
      ensures Valid() && View() == Start(old(View()), junk)
    {
      if !phase.JoinedWaiting? {
        return;
      }
      var numOrientations := ToU8(|players|);
      var size := 29 * (numOrientations as int) + 1;
      assert size == BufferSize(|players|);
      hide Start, ToU8, BufferSize, Sized;
      StartWith(Sized(junk, size));
      StartIs(old(View()), junk, size, View());
    }

    /** A new buffer with these contents. */
    method StartWith(contents: seq<byte>)
      requires Valid()
      modifies this`phase, this`buffer
      ensures Valid() && View() == MatchState(Started, old(View()).players, contents)
    {
      ghost var roster := Views(players);
      buffer := Allocate(contents);
      phase := Started;
      assert forall k :: k in players ==> players[k].View() == roster[k];
    }

    method EndMatchState()
      requires Valid()
      modifies this`phase
      ensures Valid() && View() == EndMatch(old(View()))
    {
      phase := Ended;
    }

    /** The player's own part of ExecuteNetCommand: UpdateOrientation_NetCmd and SubmitPlayerEvent. */
    method ExecuteOn(player: Player, buffer: seq<byte>, beyond: seq<byte>)
      requires buffer != []
      modifies player`location, player`rotation, player`events
      ensures player.View() == ExecuteOnPlayer(old(player.View()), buffer, beyond)
      ensures player.activeMatch == old(player.activeMatch)
    {
      var subCommand := buffer[0];
      var rest := RemoveFront(REMOVE_CMD, buffer);
      if subCommand == UPDATE_ORIENTATION {
        var floats := ReadUpdate(rest, beyond);
        player.location := ReadLocation(floats);
        player.rotation := ReadRotation(floats);
      } else if subCommand == PLAYER_EVENT && |rest| > 0 {
        if player.authenticated {
          player.AddPlayerEvent(PlayerEvent(rest[0], RemoveFront(REMOVE_CMD, rest)));
        }
      }
    }

    method ExecuteNetCommand(userId: uint32, buffer: seq<byte>, beyond: seq<byte>, junk: seq<byte>)
      requires Valid()
      modifies this`phase, this`buffer
      modifies players.Values`location, players.Values`rotation, players.Values`events
      ensures Valid() && View() == Execute(old(View()), userId, buffer, beyond, junk)
      ensures forall k :: k in players ==> players[k].activeMatch == old(players[k].activeMatch)
    {
      if userId !in players {
        return;
      }
      ghost var before := View();
      if |buffer| > 0 {
        if buffer[0] == DEBUG_START {
          StartMatch(junk);
        } else {
          ExecuteOn(players[userId], buffer, beyond);
          ExecuteIs(before, userId, buffer, beyond, View());
        }
      } else {
        ExecuteIs(before, userId, buffer, beyond, before);
      }
    }

    method SubmitMatchCommand(user: Player, buffer: seq<byte>)
      modifies this`commands
      ensures commands == old(commands) + [NetCommand(user.userId, buffer)]
    {
      commands := commands + [NetCommand(user.userId, buffer)];
    }

    /** ProcessNetCommands: the queue is moved to a local one, which is then worked off. */
    method ProcessNetCommands(memory: nat -> Memory)
      requires Valid()
      modifies this`phase, this`buffer, this`commands
      modifies players.Values`location, players.Values`rotation, players.Values`events
      ensures Valid() && View() == ExecuteAll(old(View()), old(commands), memory, 0)
      ensures forall k :: k in players ==> players[k].activeMatch == old(players[k].activeMatch)
      ensures commands == []
    {
      hide Execute, ExecuteAll, Views;
      var current := TakeCommands();
      ExecuteBatch(current, memory);
    }

    /** threadSafeCommandQueueDuplicate into a new queue. */
    method TakeCommands() returns (batch: seq<NetCommand>)
      requires Valid()
      modifies this`commands
      ensures Valid() && View() == old(View())
      ensures batch == old(commands) && commands == []
    {
      hide Views;
      batch := commands;
      commands := [];
    }

    /** The loop of ProcessNetCommands. */
    method ExecuteBatch(batch: seq<NetCommand>, memory: nat -> Memory)
      requires Valid()
      modifies this`phase, this`buffer
      modifies players.Values`location, players.Values`rotation, players.Values`events
      ensures Valid() && View() == ExecuteAll(old(View()), batch, memory, 0)
    {
      hide Execute, ExecuteAll, Views;
      ghost var m := View();
      var current, i := batch, 0;
      while current != []
        invariant Valid() && ExecuteAll(View(), current, memory, i) == ExecuteAll(m, batch, memory, 0)
        decreases |current|
      {
        var data := current[0];
        ExecuteAllUnfold(View(), current, memory, i);
        current := current[1..];
        ExecuteNetCommand(data.user, data.buffer, memory(i).beyond, memory(i).junk);
        i := i + 1;
      }
      ExecuteAllUnfold(View(), current, memory, i);
    }

    /** SendOrientationUpdates; due: the send interval has passed. */
    method SendOrientationUpdates(due: bool) returns (broadcast: Broadcast)
      requires Valid()
      modifies buffer
      ensures broadcast == if !phase.Started? || !due then NotSent
                           else if Fits(old(View())) then Sent(Filled(old(View())))
                           else PastBuffer
      ensures buffer[..] == if broadcast.Sent? then broadcast.packet else old(buffer[..])
    {
      if !phase.Started? || !due {
        return NotSent;
      }
      if 1 + 29 * |players| > buffer.Length {
        return PastBuffer;
      }
      FillBuffer();
      broadcast := Sent(buffer[..]);
    }

    /** The players in the order in which the map is iterated. */
    method InKeyOrder() returns (list: seq<Player>)
      requires Valid()
      ensures forall i :: 0 <= i < |list| ==> list[i] in players.Values
      ensures forall k :: k in players ==> players[k] in list
      ensures ViewsOf(list) == Players(View())
      ensures forall i, j :: 0 <= i < j < |list| ==> list[i] != list[j]
    {
      var keys := KeyOrder(players.Keys);
      KeyOrderHasKeys(players.Keys);
      KeyOrderIsSorted(players.Keys);
      hide KeyOrder;
      list := AtKeys(keys);
      forall k | k in players ensures players[k] in list {
        var i :| 0 <= i < |keys| && keys[i] == k;
        assert list[i] == players[k];
      }
      assert ViewsOf(list) == Players(View()) by {
        assert Keys(View()) == keys;
      }
    }

    function AtKeys(keys: seq<uint32>): (list: seq<Player>)
      reads this
      requires Valid() && forall k :: k in keys ==> k in players
      ensures |list| == |keys|
      ensures forall i :: 0 <= i < |list| ==> list[i] == players[keys[i]] && list[i].userId == keys[i]
    {
      var ps := players;
      seq(|keys|, i requires 0 <= i < |keys| && keys[i] in ps => ps[keys[i]])
    }

    /** The fill loop: the players overwrite the front of the buffer, entry by entry. */
    method FillBuffer()
      requires Valid() && Fits(View())
      modifies buffer
      ensures buffer[..] == Filled(old(View()))
    {
      hide Players, Filled, KeyOrder;
      var list := InKeyOrder();
      FillFrom(list, View());
    }

    method FillFrom(list: seq<Player>, ghost m: MatchState)
      requires Fits(m) && m.buffer == buffer[..] && |m.players| == |players| && ViewsOf(list) == Players(m)
      modifies buffer
      ensures buffer[..] == Filled(m)
    {
      hide ToU8, Players, Filled, EncodeEntries;
      buffer[0] := ToU8(|players|);
      ghost var start := buffer[..];
      assert start == m.buffer[0 := ToU8(|players|)];
      assert ViewsOf(list) == Players(m);
      FillEntries(list, buffer);
      FilledIs(m, start, buffer[..]);
    }

    /** SendPlayerEvents: every queue is drained, and the events are broadcast unless their count is zero. */
    method SendPlayerEvents() returns (packet: Option<seq<byte>>)
      requires Valid()
      modifies players.Values`events
      ensures Valid()
      ensures phase.Started? ==> packet == EventsToSend(old(View()))
      ensures packet == None <==> !phase.Started? || |RosterPending(old(View()))| % 0x100 == 0
      ensures phase.Started? ==> View() == old(View()).(players := Silenced(old(View()).players))
      ensures !phase.Started? ==> packet == None && View() == old(View())
      ensures forall k :: k in players ==> players[k].activeMatch == old(players[k].activeMatch)
    {
      if !phase.Started? {
        return None;
      }
      hide ToU8, Players, AllPending, Silenced;
      ghost var m := View();
      var sendBuff, numEvents := DrainEvents();
      SilencedIs(m, View());
      if numEvents == 0 {
        return None;
      }
      packet := Some(AddFirst(numEvents, sendBuff));
    }

    /** The loop of SendPlayerEvents. */
    method DrainEvents() returns (sendBuff: seq<byte>, numEvents: byte)
      requires Valid()
      modifies players.Values`events
      ensures sendBuff == EncodeEvents(Map(ToWire, RosterPending(old(View()))))
      ensures numEvents == ToU8(|RosterPending(old(View()))|)
      ensures forall k :: k in players ==> players[k].View() == old(players[k].View()).(events := [])
      ensures forall k :: k in players ==> players[k].activeMatch == old(players[k].activeMatch)
    {
      hide ToU8, Players, AllPending;
      ghost var m := View();
      var list := InKeyOrder();
      sendBuff, numEvents := DrainAll(list);
      forall k | k in players
        ensures players[k].View() == old(players[k].View()).(events := [])
                && players[k].activeMatch == old(players[k].activeMatch)
      {
        var i :| 0 <= i < |list| && list[i] == players[k];
      }
    }
  }

  ghost function ViewsOf(list: seq<Player>): (r: seq<PlayerState>)
    reads list
    ensures |r| == |list| && forall i :: 0 <= i < |list| ==> r[i] == list[i].View()
  {
    seq(|list|, i requires 0 <= i < |list| reads list => list[i].View())
  }

  /** Entry i goes to byte 1 + 29 i. */
  method FillEntries(list: seq<Player>, buffer: array<byte>)
    requires 1 + 29 * |list| <= buffer.Length
    modifies buffer
    ensures buffer[..] == old(buffer[..])[..1]
                          + (EncodeEntries(Map(EntryOf, old(ViewsOf(list)))) + old(buffer[..])[1 + 29 * |list|..])
  {
    hide EncodeEntries, FilledUpTo;
    ghost var views, start := ViewsOf(list), buffer[..];
    var pIndex := 0;
    FilledNone(views, start);
    while pIndex < |list|
      invariant 0 <= pIndex <= |list|
      invariant buffer[..] == FilledUpTo(views, start, pIndex)
    {
      ghost var before := buffer[..];
      list[pIndex].FillEntry(buffer, pIndex * 29 + 1);
      FillStep(views, start, pIndex, before, buffer[..]);
      pIndex := pIndex + 1;
    }
    FilledAll(views, start);
  }

  /** The buffer after i turns of the fill loop. */
  ghost function FilledUpTo(views: seq<PlayerState>, start: seq<byte>, i: nat): seq<byte>
    requires i <= |views| && 1 + 29 * |views| <= |start|
  {
    start[..1] + (EncodeEntries(Map(EntryOf, views[..i])) + start[1 + 29 * i..])
  }

  lemma FilledNone(views: seq<PlayerState>, start: seq<byte>)
    requires 1 + 29 * |views| <= |start|
    ensures FilledUpTo(views, start, 0) == start
  {
    assert views[..0] == [];
  }

  lemma FilledAll(views: seq<PlayerState>, start: seq<byte>)
    requires 1 + 29 * |views| <= |start|
    ensures FilledUpTo(views, start, |views|) ==
            start[..1] + (EncodeEntries(Map(EntryOf, views)) + start[1 + 29 * |views|..])
  {
    assert views[..|views|] == views;
  }

  lemma FillStep(views: seq<PlayerState>, start: seq<byte>, i: nat, before: seq<byte>, after: seq<byte>)
    requires i < |views| && 1 + 29 * |views| <= |start| && before == FilledUpTo(views, start, i)
    requires |before| >= 1 + 29 * i + ENTRY_SIZE
    requires after == before[..1 + 29 * i] + EntryBytes(EntryOf(views[i])) + before[1 + 29 * i + ENTRY_SIZE..]
    ensures after == FilledUpTo(views, start, i + 1)
  {
    hide EncodeEntries;
    var front := EncodeEntries(Map(EntryOf, views[..i]));
    EntriesStep(views, i);
    assert before[..1 + 29 * i] == start[..1] + front;
    assert before[1 + 29 * i + ENTRY_SIZE..] == start[1 + 29 * (i + 1)..];
  }

  lemma EntriesStep(views: seq<PlayerState>, i: nat)
    requires i < |views|
    ensures EncodeEntries(Map(EntryOf, views[..i + 1])) ==
            EncodeEntries(Map(EntryOf, views[..i])) + EntryBytes(EntryOf(views[i]))
    ensures |EncodeEntries(Map(EntryOf, views[..i]))| == 29 * i
  {
    var done, e := Map(EntryOf, views[..i]), EntryOf(views[i]);
    assert Map(EntryOf, views[..i + 1]) == done + [e];
    EntriesAppend(done, [e]);
    assert EncodeEntries([e]) == EntryBytes(e);
    EntriesDecode(done, []);
  }

  /** The players' queues are drained one after the other; the event count is kept in a byte. */
  method DrainAll(list: seq<Player>) returns (sendBuff: seq<byte>, numEvents: byte)
    requires forall i, j :: 0 <= i < j < |list| ==> list[i] != list[j]
    modifies list`events
    ensures sendBuff == EncodeEvents(Map(ToWire, AllPending(old(ViewsOf(list)))))
    ensures numEvents == ToU8(|AllPending(old(ViewsOf(list)))|)
    ensures forall i :: 0 <= i < |list| ==> list[i].View() == old(list[i].View()).(events := [])
    ensures forall i :: 0 <= i < |list| ==> list[i].activeMatch == old(list[i].activeMatch)
  {
    CountStart();
    hide ToU8, AllPending, Pending;
    ghost var views := ViewsOf(list);
    sendBuff, numEvents := [], 0;
    var i := 0;
    PendingNone(views);
    while i < |list|
      invariant 0 <= i <= |list|
      invariant sendBuff == EncodeEvents(Map(ToWire, AllPending(views[..i])))
      invariant numEvents == ToU8(|AllPending(views[..i])|)
      invariant forall j :: 0 <= j < |list| ==>
          list[j].View() == if j < i then views[j].(events := []) else views[j]
    {
      var n;
      PendingStep(views, i);
      CountStep(|AllPending(views[..i])|, |Wires(list[i].userId, list[i].instanceId, list[i].events)|);
      sendBuff, n := list[i].SerializePlayerEvents(sendBuff);
      numEvents := ToU8(numEvents as int + n);
      i := i + 1;
    }
    assert views[..i] == views;
  }

  lemma CountStart()
    ensures ToU8(0) == 0
  {
  }

  lemma CountStep(a: nat, b: nat)
    ensures ToU8(ToU8(a) + b) == ToU8(a + b)
  {
  }

  lemma PendingNone(views: seq<PlayerState>)
    ensures AllPending(views[..0]) == []
  {
  }

  lemma {:induction false} PendingSplit(a: seq<PlayerState>, p: PlayerState)
    ensures AllPending(a + [p]) == AllPending(a) + Pending(p.userId, p.instanceId, p.events)
  {
    if a == [] {
      assert a + [p] == [p];
    } else {
      assert (a + [p])[1..] == a[1..] + [p];
      PendingSplit(a[1..], p);
    }
  }

  lemma PendingStep(views: seq<PlayerState>, i: nat)
    requires i < |views|
    ensures var p := views[i];
            var before, after := AllPending(views[..i]), AllPending(views[..i + 1]);
            var wires := Wires(p.userId, p.instanceId, p.events);
            EncodeEvents(Map(ToWire, after)) == EncodeEvents(Map(ToWire, before)) + EncodeEvents(wires)
            && |after| == |before| + |wires|
  {
    var p := views[i];
    assert views[..i + 1] == views[..i] + [p];
    PendingSplit(views[..i], p);
    var before, out := AllPending(views[..i]), Pending(p.userId, p.instanceId, p.events);
    MapAppend(ToWire, before, out);
    EventsAppend(Map(ToWire, before), Map(ToWire, out));
  }

  lemma FilledIs(m: MatchState, start: seq<byte>, after: seq<byte>)
    requires Fits(m) && |start| == |m.buffer| && start[0] == ToU8(|m.players|) && start[1..] == m.buffer[1..]
    requires after == start[..1] + (EncodeEntries(Map(EntryOf, Players(m))) + start[1 + 29 * |Players(m)|..])
    ensures after == Filled(m)
  {
    hide ToU8, Players, EncodeEntries;
    assert start[1 + 29 * |m.players|..] == start[1..][29 * |m.players|..];
    assert m.buffer[1 + 29 * |m.players|..] == m.buffer[1..][29 * |m.players|..];
  }

  lemma StartIs(before: MatchState, junk: seq<byte>, size: nat, after: MatchState)
    requires before.phase.JoinedWaiting? && after.phase == Started && after.players == before.players
    requires size == BufferSize(|before.players|) && after.buffer == Sized(junk, size)
    ensures after == Start(before, junk)
  {
  }

  lemma SilencedIs(before: MatchState, after: MatchState)
    requires after.phase == before.phase && after.buffer == before.buffer
    requires after.players.Keys == before.players.Keys
    requires forall k :: k in before.players ==> after.players[k] == before.players[k].(events := [])
    ensures after == before.(players := Silenced(before.players))
  {
  }

  lemma ExecuteIs(before: MatchState, userId: uint32, buffer: seq<byte>, beyond: seq<byte>, after: MatchState)
    requires userId in before.players && !(buffer != [] && buffer[0] == DEBUG_START)
    requires after.phase == before.phase && after.buffer == before.buffer
    requires after.players.Keys == before.players.Keys
    requires after.players[userId] == ExecuteOnPlayer(before.players[userId], buffer, beyond)
    requires forall k :: k in before.players && k != userId ==> after.players[k] == before.players[k]
    ensures forall junk :: after == Execute(before, userId, buffer, beyond, junk)
  {
    assert after.players == before.players[userId := ExecuteOnPlayer(before.players[userId], buffer, beyond)];
  }
}
