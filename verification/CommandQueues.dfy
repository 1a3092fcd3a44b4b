/**
 The queue objects of AsyncServer and Match and the loops over them, run without interference:
 each does in place what CommandRelay does in single steps.
 */
module CommandQueues {
  import opened BufferUtils
  import opened Bytes
  import opened CommandRelay
  import opened Framing

  class Queue<T> {
    var items: seq<T>

    constructor ()
      ensures items == []
    {
      items := [];
    }

    method Push(x: T)
      modifies this
      ensures items == old(items) + [x]
    {
      items := items + [x];
    }

    method Pop() returns (x: T)
      requires items != []
      modifies this
      ensures x == old(items)[0] && items == old(items)[1..]
    {
      x, items := items[0], items[1..];
    }
  }

  /** threadSafeCommandQueueDuplicate: everything in from moves to the end of to. */
  method Duplicate<T>(from: Queue<T>, to: Queue<T>) returns (res: nat)
    requires from != to
    modifies from, to
    ensures from.items == [] && to.items == old(to.items) + old(from.items) && res == |old(from.items)|
  {
    res := 0;
    while from.items != []
      invariant to.items + from.items == old(to.items) + old(from.items)
      invariant res + |from.items| == |old(from.items)|
      decreases |from.items|
    {
      ghost var front, back := from.items, to.items;
      var x := from.Pop();
      to.Push(x);
      assert front == [x] + front[1..];
      assert back + [x] + front[1..] == back + front;
      res := res + 1;
    }
  }

  /** What a batch puts on the queue of one match while nothing else changes. */
  function RouteAll(env: Env, matchId: string, batch: seq<ThreadCommand>): seq<MatchCommand> {
    if batch == [] then []
    else Route(env, matchId, batch[0]) + RouteAll(env, matchId, batch[1..])
  }

  class CommandServer {
    const asyncCommands: Queue<ThreadCommand>
    const mainCommands: Queue<ThreadCommand>

    /** Each queue holds the commands of its own class. */
    ghost predicate Valid()
      reads asyncCommands, mainCommands
    {
      && asyncCommands != mainCommands
      && (forall i :: 0 <= i < |asyncCommands.items| ==> IsAsync(asyncCommands.items[i]))
      && (forall i :: 0 <= i < |mainCommands.items| ==> !IsAsync(mainCommands.items[i]))
    }

    constructor ()
      ensures Valid() && asyncCommands.items == mainCommands.items == []
      ensures fresh(asyncCommands) && fresh(mainCommands)
    {
      asyncCommands := new Queue();
      mainCommands := new Queue();
    }

    /** Process: the command goes to the queue its Is_Async flag names; an unknown opcode counts as not async. */
    method Process(user: string, command: byte, data: seq<byte>, protocol: Protocol)
      requires Valid()
      modifies asyncCommands, mainCommands
      ensures Valid()
      ensures var c := ThreadCommand(user, Data(protocol, command, data));
              && asyncCommands.items == old(asyncCommands.items) + Class([c], true)
              && mainCommands.items == old(mainCommands.items) + Class([c], false)
    {
      var threadCmd := ThreadCommand(user, Data(protocol, command, data));
      assert Class([threadCmd][1..], true) == [] == Class([threadCmd][1..], false);
      if command in REGISTERED && REGISTERED[command] {
        asyncCommands.Push(threadCmd);
      } else {
        mainCommands.Push(threadCmd);
      }
    }

    /** SocketUser::ProcessReceiveBuffer, for a message the TCP reader delivers; an empty one is dropped. */
    method ProcessReceiveBuffer(user: string, buffer: seq<byte>)
      requires Valid()
      modifies asyncCommands, mainCommands
      ensures Valid()
      ensures asyncCommands.items == old(asyncCommands.items) + Class(TcpCommands(user, [buffer]), true)
      ensures mainCommands.items == old(mainCommands.items) + Class(TcpCommands(user, [buffer]), false)
    {
      assert [buffer][1..] == [];
      if |buffer| > 0 {
        var command := buffer[0];
        Process(user, command, RemoveFront(REMOVE_CMD, buffer), Tcp);
        assert TcpCommands(user, [buffer]) ==
               [ThreadCommand(user, Data(Tcp, command, RemoveFront(REMOVE_CMD, buffer)))];
      }
    }

    /** handle_receive and Receive_UDP: a datagram for a registered id is processed for its session. */
    method ReceiveDatagram(recvBuff: array<byte>, udpIds: map<uint16, string>) returns (outcome: UdpOutcome<string>)
      requires Valid() && recvBuff.Length == MAX_UDP_SIZE
      modifies asyncCommands, mainCommands
      ensures Valid() && outcome == ReceiveUdp(recvBuff[..], udpIds)
      ensures var c := if outcome.Deliver?
                       then [ThreadCommand(outcome.session, Data(Udp, outcome.code, outcome.buffer))] else [];
              && asyncCommands.items == old(asyncCommands.items) + Class(c, true)
              && mainCommands.items == old(mainCommands.items) + Class(c, false)
    {
      var size: int := U16At(recvBuff[..], 0);
      if size < 3 {
        return TooShort;
      }
      var udpId := U16At(recvBuff[..], 2);
      var command := recvBuff[4];
      if udpId !in udpIds {
        return UnknownId(udpId);
      }
      if 5 + size > recvBuff.Length {
        return PastBuffer;
      }
      var buffer := recvBuff[5..5 + size];
      assert buffer == recvBuff[..][5..5 + size];
      Process(udpIds[udpId], command, buffer, Udp);
      return Deliver(udpIds[udpId], command, buffer);
    }

    /** One turn of Process_Async: drain the queue, then route the batch command by command. */
    method ProcessAsyncOnce(env: Env, matchId: string, matchCommands: Queue<MatchCommand>)
      returns (numEntries: nat)
      requires Valid()
      modifies asyncCommands, matchCommands
      ensures Valid() && asyncCommands.items == [] && numEntries == |old(asyncCommands.items)|
      ensures matchCommands.items ==
              old(matchCommands.items) + RouteAll(env, matchId, old(asyncCommands.items))
    {
      var current := new Queue<ThreadCommand>();
      numEntries := Duplicate(asyncCommands, current);
      assert current.items == old(asyncCommands.items);
      while current.items != []
        invariant fresh(current) && Valid() && asyncCommands.items == []
        invariant forall i :: 0 <= i < |current.items| ==> IsAsync(current.items[i])
        invariant matchCommands.items + RouteAll(env, matchId, current.items) ==
                  old(matchCommands.items) + RouteAll(env, matchId, old(asyncCommands.items))
        decreases |current.items|
      {
        ghost var batch, before := current.items, matchCommands.items;
        var c := current.Pop();
        var calledNull := DoProcess(env, matchId, c, matchCommands);
        AsyncExactly(c);
        assert !calledNull;
        assert before + Route(env, matchId, c) + RouteAll(env, matchId, batch[1..])
            == before + RouteAll(env, matchId, batch);
      }
    }

    /** DoProcess down to SubmitMatchCommand; calledNull: the entry under the opcode has no callback. */
    method DoProcess(env: Env, matchId: string, c: ThreadCommand, matchCommands: Queue<MatchCommand>)
      returns (calledNull: bool)
      modifies matchCommands
      ensures calledNull == (c.user in env.sessions && c.data.command !in {0xff, 1, 2, 3})
      ensures matchCommands.items ==
              old(matchCommands.items) +
              if && c.data.command == 2 && c.user in env.sessions && env.sessions[c.user].authenticated
                 && env.sessions[c.user].player.Some?
                 && env.sessions[c.user].player.value.activeMatch == Some(matchId)
              then [MatchCommand(c.user, env.sessions[c.user].player.value.userId, c.data)] else []
    {
      if c.user !in env.sessions {
        return false;
      }
      if c.data.command !in REGISTERED {
        return true;
      }
      calledNull := false;
      if c.data.command == MATCH_COMMAND {
        var user := env.sessions[c.user];
        if !user.authenticated {
          return;
        }
        match user.player {
          case None =>
          case Some(player) =>
            if player.activeMatch == Some(matchId) {
              matchCommands.Push(MatchCommand(c.user, player.userId, c.data));
            }
        }
      }
    }
  }

  function Repeat(e: Event, n: nat): seq<Event> {
    if n == 0 then [] else [e] + Repeat(e, n - 1)
  }

  lemma {:induction false} StepsRouteAll(matchId: string, s: State)
    ensures var t := Run(matchId, s, Repeat(StepAsync, |s.asyncBatch|));
            && t.Some? && t.value.asyncBatch == []
            && t.value.asyncDone == s.asyncDone + s.asyncBatch && t.value.asyncQueue == s.asyncQueue
            && t.value.matchQueue == s.matchQueue + RouteAll(s.env, matchId, s.asyncBatch)
    decreases |s.asyncBatch|
  {
    if s.asyncBatch != [] {
      var es := Repeat(StepAsync, |s.asyncBatch|);
      var next := Step(matchId, s, StepAsync).value;
      assert es[1..] == Repeat(StepAsync, |next.asyncBatch|);
      StepsRouteAll(matchId, next);
      assert Run(matchId, s, es) == Run(matchId, next, es[1..]);
      var c, rest := s.asyncBatch[0], s.asyncBatch[1..];
      assert s.asyncBatch == [c] + rest;
      assert s.asyncDone + [c] + rest == s.asyncDone + s.asyncBatch;
      assert s.matchQueue + Route(s.env, matchId, c) + RouteAll(s.env, matchId, rest)
          == s.matchQueue + RouteAll(s.env, matchId, s.asyncBatch);
    }
  }

  /** ProcessAsyncOnce does what the step system does when no other thread gets in between. */
  lemma OnceIsARun(matchId: string, s: State)
    requires s.asyncBatch == []
    ensures var t := Run(matchId, s, [TakeAsync] + Repeat(StepAsync, |s.asyncQueue|));
            && t.Some? && t.value.asyncQueue == [] && t.value.asyncBatch == []
            && t.value.matchQueue == s.matchQueue + RouteAll(s.env, matchId, s.asyncQueue)
            && t.value.asyncDone == s.asyncDone + s.asyncQueue
  {
    var es := Repeat(StepAsync, |s.asyncQueue|);
    var taken := s.(asyncBatch := s.asyncQueue, asyncQueue := []);
    assert ([TakeAsync] + es)[1..] == es;
    StepsRouteAll(matchId, taken);
  }
}
