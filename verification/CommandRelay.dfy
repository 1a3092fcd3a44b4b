/**
 The way of a command from the network threads to a match: Process puts it on one of two
 queues, a server thread drains its queue in batches and routes each command, and the match
 thread drains its own queue and executes (source/Network/AsyncServer.cpp,
 source/MatchManager.cpp, source/Match.cpp). Any interleaving of the threads; sessions,
 authentication, active matches and rosters change at any time.
 */
module CommandRelay {
  import opened Bytes
  import opened Framing
  import opened Subsequences

  datatype Protocol = Tcp | Udp

  datatype Data = Data(protocol: Protocol, command: byte, buffer: seq<byte>)

  datatype ThreadCommand = ThreadCommand(user: string, data: Data)

  /** origin is history: the session that submitted the command. */
  datatype MatchCommand = MatchCommand(origin: string, user: uint32, data: Data)

  /** A command's data with the session it came from. */
  datatype Tagged = Tagged(origin: string, data: Data)

  /** player: what the session's weak link leads to, None when it has expired. */
  datatype PlayerLink = PlayerLink(userId: uint32, activeMatch: Option<string>)
  datatype Session = Session(authenticated: bool, player: Option<PlayerLink>)

  datatype Env = Env(sessions: map<string, Session>, roster: set<uint32>)

  const MATCH_COMMAND: byte := 2

  /** The opcodes that have a callback, each with its Is_Async flag. */
  const REGISTERED: map<byte, bool> := map[0xff := false, 1 := false, MATCH_COMMAND := true, 3 := false]

  /** The queues as seen by one match; submitted to executed are history. */
  datatype State = State(
    env: Env,
    asyncQueue: seq<ThreadCommand>, asyncBatch: seq<ThreadCommand>,
    mainQueue: seq<ThreadCommand>, mainBatch: seq<ThreadCommand>,
    matchQueue: seq<MatchCommand>, matchBatch: seq<MatchCommand>,
    submitted: seq<ThreadCommand>, asyncDone: seq<ThreadCommand>, mainDone: seq<ThreadCommand>,
    routed: seq<MatchCommand>, matchDone: seq<MatchCommand>, executed: seq<MatchCommand>)

  datatype Event =
    | Submit(command: ThreadCommand)   // Process, by any network thread
    | TakeAsync | StepAsync            // Process_Async: drain the queue, then work off the batch
    | TakeMain | StepMain              // Update: the same for the main queue
    | TakeMatch | StepMatch            // ProcessNetCommands
    | Change(env: Env)                 // anything the rest of the server does

  function Init(env: Env): State {
    State(env, [], [], [], [], [], [], [], [], [], [], [], [])
  }

  predicate IsAsync(c: ThreadCommand) {
    c.data.command in REGISTERED && REGISTERED[c.data.command]
  }

  /**
   The command is one for matchId: a match command of a live and authenticated session whose
   player is there and active in that match.
   */
  predicate IsForMatch(env: Env, matchId: string, c: ThreadCommand) {
    && c.data.command == MATCH_COMMAND
    && c.user in env.sessions && env.sessions[c.user].authenticated
    && env.sessions[c.user].player.Some?
    && env.sessions[c.user].player.value.activeMatch == Some(matchId)
  }

  /** DoProcess and RoutMatchNetCommand: what reaches the queue of the match called matchId. */
  function Route(env: Env, matchId: string, c: ThreadCommand): seq<MatchCommand> {
    if c.data.command !in REGISTERED || c.user !in env.sessions then []
    else if c.data.command != MATCH_COMMAND then []
    else
      var session := env.sessions[c.user];
      if !session.authenticated || session.player.None? then []
      else if session.player.value.activeMatch != Some(matchId) then []
      else [MatchCommand(c.user, session.player.value.userId, c.data)]
  }

  /**
   The entry that Process makes for an unknown opcode has no callback, so that DoProcess, for a
   live session, calls through a null pointer.
   */
  predicate CallsNull(env: Env, c: ThreadCommand) {
    c.data.command !in REGISTERED && c.user in env.sessions
  }

  /** None: the step is not possible, or it calls through a null pointer. */
  function Step(matchId: string, s: State, e: Event): Option<State> {
    match e
    case Submit(c) =>
      if IsAsync(c) then
        Some(s.(asyncQueue := s.asyncQueue + [c], submitted := s.submitted + [c]))
      else
        Some(s.(mainQueue := s.mainQueue + [c], submitted := s.submitted + [c]))
    case TakeAsync =>
      if s.asyncBatch == [] then Some(s.(asyncBatch := s.asyncQueue, asyncQueue := [])) else None
    case TakeMain =>
      if s.mainBatch == [] then Some(s.(mainBatch := s.mainQueue, mainQueue := [])) else None
    case StepAsync =>
      if s.asyncBatch == [] then None
      else
        var out := Route(s.env, matchId, s.asyncBatch[0]);
        Some(s.(asyncBatch := s.asyncBatch[1..], asyncDone := s.asyncDone + [s.asyncBatch[0]],
                matchQueue := s.matchQueue + out, routed := s.routed + out))
    case StepMain =>
      if s.mainBatch == [] || CallsNull(s.env, s.mainBatch[0]) then None
      else
        var out := Route(s.env, matchId, s.mainBatch[0]);
        Some(s.(mainBatch := s.mainBatch[1..], mainDone := s.mainDone + [s.mainBatch[0]],
                matchQueue := s.matchQueue + out, routed := s.routed + out))
    case TakeMatch =>
      if s.matchBatch == [] then Some(s.(matchBatch := s.matchQueue, matchQueue := [])) else None
    case StepMatch =>
      if s.matchBatch == [] then None
      else
        var c := s.matchBatch[0];
        Some(s.(matchBatch := s.matchBatch[1..], matchDone := s.matchDone + [c],
                executed := if c.user in s.env.roster then s.executed + [c] else s.executed))
    case Change(env) => Some(s.(env := env))
  }

  function Run(matchId: string, s: State, es: seq<Event>): Option<State>
    decreases |es|
  {
    if es == [] then Some(s)
    else match Step(matchId, s, es[0])
         case None => None
         case Some(next) => Run(matchId, next, es[1..])
  }

  /**
   Any command can be submitted, and anything around the relay can change, at any time; a thread
   takes a new batch when it has worked off the last one. Only a main command of a live session
   with an opcode that has no callback stops the main thread.
   */
  lemma StepIsPossible(matchId: string, s: State, e: Event)
    ensures Step(matchId, s, e).Some? <==>
            match e
            case Submit(_) => true
            case Change(_) => true
            case TakeAsync => s.asyncBatch == []
            case TakeMain => s.mainBatch == []
            case TakeMatch => s.matchBatch == []
            case StepAsync => s.asyncBatch != []
            case StepMain =>
              && s.mainBatch != []
              && (s.mainBatch[0].user in s.env.sessions ==> s.mainBatch[0].data.command in {0xff, 1, 2, 3})
            case StepMatch => s.matchBatch != []
    ensures e.Change? ==> Step(matchId, s, e) == Some(s.(env := e.env))
  {
  }

  function Submissions(es: seq<Event>): seq<ThreadCommand> {
    if es == [] then []
    else (if es[0].Submit? then [es[0].command] else []) + Submissions(es[1..])
  }

  // ---------------------------------------------------------------- the two server queues

  /** The commands of one class, in order. */
  function Class(cs: seq<ThreadCommand>, isAsync: bool): seq<ThreadCommand> {
    if cs == [] then [] else OneOfClass(cs[0], isAsync) + Class(cs[1..], isAsync)
  }

  function OneOfClass(c: ThreadCommand, isAsync: bool): seq<ThreadCommand> {
    if IsAsync(c) == isAsync then [c] else []
  }

  lemma {:induction false} ClassAppend(a: seq<ThreadCommand>, b: seq<ThreadCommand>, isAsync: bool)
    ensures Class(a + b, isAsync) == Class(a, isAsync) + Class(b, isAsync)
  {
    if a == [] {
      assert a + b == b;
    } else {
      hide OneOfClass;
      ClassAppend(a[1..], b, isAsync);
      assert (a + b)[1..] == a[1..] + b;
      ConcatAssociates(OneOfClass(a[0], isAsync), Class(a[1..], isAsync), Class(b, isAsync));
    }
  }

  lemma {:induction false} ClassIsPure(cs: seq<ThreadCommand>, isAsync: bool)
    ensures forall i :: 0 <= i < |Class(cs, isAsync)| ==> IsAsync(Class(cs, isAsync)[i]) == isAsync
  {
    if cs != [] {
      ClassIsPure(cs[1..], isAsync);
    }
  }

  ghost predicate QueuesInv(s: State) {
    && Class(s.submitted, true) == s.asyncDone + s.asyncBatch + s.asyncQueue
    && Class(s.submitted, false) == s.mainDone + s.mainBatch + s.mainQueue
  }

  // ---------------------------------------------------------------- the relay

  function DataOf(cs: seq<MatchCommand>): seq<Tagged> {
    Map((c: MatchCommand) => Tagged(c.origin, c.data), cs)
  }

  function Tag(c: ThreadCommand): Tagged {
    Tagged(c.user, c.data)
  }

  /** The match commands, in order. */
  function MatchData(cs: seq<ThreadCommand>): seq<Tagged> {
    if cs == [] then [] else OneMatchData(cs[0]) + MatchData(cs[1..])
  }

  function OneMatchData(c: ThreadCommand): seq<Tagged> {
    if c.data.command == MATCH_COMMAND then [Tag(c)] else []
  }

  lemma {:induction false} MatchDataAppend(a: seq<ThreadCommand>, b: seq<ThreadCommand>)
    ensures MatchData(a + b) == MatchData(a) + MatchData(b)
  {
    if a == [] {
      assert a + b == b;
    } else {
      hide OneMatchData;
      MatchDataAppend(a[1..], b);
      assert (a + b)[1..] == a[1..] + b;
      ConcatAssociates(OneMatchData(a[0]), MatchData(a[1..]), MatchData(b));
    }
  }

  ghost predicate RelayInv(s: State) {
    && s.routed == s.matchDone + s.matchBatch + s.matchQueue
    && Subseq(DataOf(s.routed), MatchData(s.asyncDone))
    && Subseq(s.executed, s.matchDone)
  }

  ghost predicate Inv(s: State) {
    QueuesInv(s) && RelayInv(s)
  }

  lemma InitInv(env: Env)
    ensures Inv(Init(env))
  {
  }

  lemma ClassOfOneMore(cs: seq<ThreadCommand>, c: ThreadCommand)
    ensures Class(cs + [c], IsAsync(c)) == Class(cs, IsAsync(c)) + [c]
    ensures Class(cs + [c], !IsAsync(c)) == Class(cs, !IsAsync(c))
  {
    ClassAppend(cs, [c], true);
    ClassAppend(cs, [c], false);
    assert Class([c][1..], true) == [] == Class([c][1..], false);
    assert Class([c], IsAsync(c)) == [c] && Class([c], !IsAsync(c)) == [];
  }

  lemma SubmitKeeps(matchId: string, s: State, c: ThreadCommand, t: State)
    requires Inv(s) && Step(matchId, s, Submit(c)) == Some(t)
    ensures Inv(t)
  {
    hide Class, Subseq, MatchData, DataOf, IsAsync;
    ClassOfOneMore(s.submitted, c);
    ConcatAssociates(s.asyncDone + s.asyncBatch, s.asyncQueue, [c]);
    ConcatAssociates(s.mainDone + s.mainBatch, s.mainQueue, [c]);
  }

  /** Routing c extends what was routed by c's payload, or not at all. */
  lemma RouteExtends(env: Env, matchId: string, routed: seq<MatchCommand>, done: seq<ThreadCommand>, c: ThreadCommand)
    requires Subseq(DataOf(routed), MatchData(done))
    ensures Subseq(DataOf(routed + Route(env, matchId, c)), MatchData(done + [c]))
  {
    var out := Route(env, matchId, c);
    MatchDataAppend(done, [c]);
    assert DataOf(routed + out) == DataOf(routed) + DataOf(out);
    if out == [] {
      assert routed + out == routed;
      SubseqSkip(DataOf(routed), MatchData(done), MatchData([c]));
    } else {
      assert DataOf(out) == [Tag(c)] == MatchData([c]);
      SubseqBoth(DataOf(routed), MatchData(done), DataOf(out));
    }
  }

  lemma TakeHead<T>(done: seq<T>, batch: seq<T>, rest: seq<T>)
    requires batch != []
    ensures done + batch + rest == done + [batch[0]] + batch[1..] + rest
  {
    assert batch == [batch[0]] + batch[1..];
  }

  lemma StepAsyncKeeps(matchId: string, s: State, t: State)
    requires Inv(s) && Step(matchId, s, StepAsync) == Some(t)
    ensures Inv(t)
  {
    hide Route, Class, Subseq, MatchData, DataOf;
    RouteExtends(s.env, matchId, s.routed, s.asyncDone, s.asyncBatch[0]);
    TakeHead(s.asyncDone, s.asyncBatch, s.asyncQueue);
    ConcatAssociates(s.matchDone + s.matchBatch, s.matchQueue, Route(s.env, matchId, s.asyncBatch[0]));
  }

  lemma MainBatchIsMain(s: State)
    requires QueuesInv(s) && s.mainBatch != []
    ensures !IsAsync(s.mainBatch[0])
  {
    ClassIsPure(s.submitted, false);
    assert Class(s.submitted, false)[|s.mainDone|] == s.mainBatch[0];
  }

  lemma StepMainKeeps(matchId: string, s: State, t: State)
    requires Inv(s) && Step(matchId, s, StepMain) == Some(t)
    ensures Inv(t)
  {
    MainBatchIsMain(s);
    var out := Route(s.env, matchId, s.mainBatch[0]);
    assert out == [];
    hide Class, Route, Subseq, MatchData, DataOf, IsAsync;
    TakeHead(s.mainDone, s.mainBatch, s.mainQueue);
    assert s.routed + out == s.routed && s.matchQueue + out == s.matchQueue;
  }

  lemma StepMatchKeeps(matchId: string, s: State, t: State)
    requires Inv(s) && Step(matchId, s, StepMatch) == Some(t)
    ensures Inv(t)
  {
    var c := s.matchBatch[0];
    hide Class, Subseq, MatchData, DataOf;
    SubseqSkip(s.executed, s.matchDone, [c]);
    SubseqBoth(s.executed, s.matchDone, [c]);
    TakeHead(s.matchDone, s.matchBatch, s.matchQueue);
  }

  lemma TakeKeeps(matchId: string, s: State, e: Event, t: State)
    requires Inv(s) && Step(matchId, s, e) == Some(t) && (e.TakeAsync? || e.TakeMain? || e.TakeMatch?)
    ensures Inv(t)
  {
    hide Class, Subseq, MatchData, DataOf;
  }

  lemma StepKeepsInv(matchId: string, s: State, e: Event, t: State)
    requires Inv(s) && Step(matchId, s, e) == Some(t)
    ensures Inv(t)
  {
    match e
    case Submit(c) => SubmitKeeps(matchId, s, c, t);
    case StepAsync => StepAsyncKeeps(matchId, s, t);
    case StepMain => StepMainKeeps(matchId, s, t);
    case StepMatch => StepMatchKeeps(matchId, s, t);
    case Change(env) =>
    case _ => TakeKeeps(matchId, s, e, t);
  }

  lemma StepSubmits(matchId: string, s: State, e: Event, t: State)
    requires Step(matchId, s, e) == Some(t)
    ensures t.submitted == s.submitted + Submissions([e])
  {
  }

  lemma {:induction false} RunSubmits(matchId: string, s: State, es: seq<Event>, t: State)
    requires Run(matchId, s, es) == Some(t)
    ensures t.submitted == s.submitted + Submissions(es)
    decreases |es|
  {
    if es != [] {
      var next := Step(matchId, s, es[0]).value;
      StepSubmits(matchId, s, es[0], next);
      hide Step;
      RunSubmits(matchId, next, es[1..], t);
      assert Submissions(es) == Submissions([es[0]]) + Submissions(es[1..]);
    }
  }

  lemma {:induction false} RunKeepsInv(matchId: string, s: State, es: seq<Event>, t: State)
    requires Inv(s) && Run(matchId, s, es) == Some(t)
    ensures Inv(t) && t.submitted == s.submitted + Submissions(es)
    decreases |es|
  {
    RunSubmits(matchId, s, es, t);
    hide Step, Inv;
    if es != [] {
      var next := Step(matchId, s, es[0]).value;
      StepKeepsInv(matchId, s, es[0], next);
      RunKeepsInv(matchId, next, es[1..], t);
    }
  }

  /**
   At every moment of every run the commands submitted of each class are, in order, those
   processed, those of the current batch and those queued; neither queue holds a command of
   the other class.
   */
  lemma QueuesConserve(matchId: string, env: Env, es: seq<Event>, t: State)
    requires Run(matchId, Init(env), es) == Some(t)
    ensures Class(Submissions(es), true) == t.asyncDone + t.asyncBatch + t.asyncQueue
    ensures Class(Submissions(es), false) == t.mainDone + t.mainBatch + t.mainQueue
    ensures forall i :: 0 <= i < |t.asyncQueue| ==> IsAsync(t.asyncQueue[i])
    ensures forall i :: 0 <= i < |t.mainQueue| ==> !IsAsync(t.mainQueue[i])
  {
    InitInv(env);
    RunKeepsInv(matchId, Init(env), es, t);
    ClassIsPure(Submissions(es), true);
    ClassIsPure(Submissions(es), false);
    var front, mainFront := t.asyncDone + t.asyncBatch, t.mainDone + t.mainBatch;
    assert t.submitted == Submissions(es);
    forall i | 0 <= i < |t.asyncQueue| ensures IsAsync(t.asyncQueue[i]) {
      assert t.asyncQueue[i] == Class(Submissions(es), true)[|front| + i];
    }
    forall i | 0 <= i < |t.mainQueue| ensures !IsAsync(t.mainQueue[i]) {
      assert t.mainQueue[i] == Class(Submissions(es), false)[|mainFront| + i];
    }
  }

  lemma {:induction false} MatchDataOfClass(cs: seq<ThreadCommand>)
    ensures MatchData(Class(cs, true)) == MatchData(cs)
  {
    if cs != [] {
      MatchDataOfClass(cs[1..]);
      var first: seq<ThreadCommand> := if IsAsync(cs[0]) then [cs[0]] else [];
      MatchDataAppend(first, Class(cs[1..], true));
    }
  }

  /**
   In every run the commands a match executes are a subsequence of the match commands
   submitted to Process: none twice, none out of order, none with a changed payload or for
   another session.
   */
  lemma ExecutedIsSubsequence(matchId: string, env: Env, es: seq<Event>, t: State)
    requires Run(matchId, Init(env), es) == Some(t)
    ensures Subseq(DataOf(t.executed), MatchData(Submissions(es)))
  {
    InitInv(env);
    RunKeepsInv(matchId, Init(env), es, t);
    assert t.submitted == Submissions(es);
    hide Run, Inv, Submissions, Subseq, DataOf, MatchData;
    ExecutedWithin(t);
  }

  lemma ExecutedWithin(t: State)
    requires Inv(t)
    ensures Subseq(DataOf(t.executed), MatchData(t.submitted))
  {
    DoneWithin(t);
    hide Class, Subseq, DataOf, MatchData;
    SubseqPrefix(t.matchDone, t.routed);
    SubseqTrans(t.executed, t.matchDone, t.routed);
    SubseqMap(t.executed, t.routed);
    SubseqTrans(DataOf(t.executed), DataOf(t.routed), MatchData(t.asyncDone));
    SubseqTrans(DataOf(t.executed), MatchData(t.asyncDone), MatchData(t.submitted));
  }

  lemma DoneWithin(t: State)
    requires QueuesInv(t)
    ensures Subseq(MatchData(t.asyncDone), MatchData(t.submitted))
  {
    var rest := t.asyncBatch + t.asyncQueue;
    hide Class, Subseq, MatchData;
    ConcatAssociates(t.asyncDone, t.asyncBatch, t.asyncQueue);
    MatchDataOfClass(t.submitted);
    MatchDataAppend(t.asyncDone, rest);
    SubseqPrefix(MatchData(t.asyncDone), MatchData(t.submitted));
  }

  lemma {:induction false} SubseqMap(a: seq<MatchCommand>, b: seq<MatchCommand>)
    requires Subseq(a, b)
    ensures Subseq(DataOf(a), DataOf(b))
    decreases |b|
  {
    if a != [] {
      assert DataOf(a)[1..] == DataOf(a[1..]) && DataOf(b)[1..] == DataOf(b[1..]);
      if a[0] == b[0] && Subseq(a[1..], b[1..]) {
        SubseqMap(a[1..], b[1..]);
      } else {
        SubseqMap(a, b[1..]);
      }
    }
  }

  // ---------------------------------------------------------------- each command for its own player

  /** x is the match command of an authenticated session whose player is its user and in the match. */
  predicate IsPlayersOwn(env: Env, matchId: string, x: MatchCommand) {
    && x.origin in env.sessions && env.sessions[x.origin].authenticated
    && env.sessions[x.origin].player == Some(PlayerLink(x.user, Some(matchId)))
  }

  /** Event n of the run from s routes x, on behalf of the player its session has at that moment. */
  predicate RoutedAt(matchId: string, s: State, es: seq<Event>, n: nat, x: MatchCommand) {
    && n < |es| && es[n].StepAsync?
    && var r := Run(matchId, s, es[..n]);
       && r.Some? && r.value.asyncBatch != []
       && Tag(r.value.asyncBatch[0]) == Tagged(x.origin, x.data)
       && IsPlayersOwn(r.value.env, matchId, x)
  }

  lemma StepRoutes(matchId: string, s: State, e: Event, t: State, x: MatchCommand)
    requires Inv(s) && Step(matchId, s, e) == Some(t) && x in t.routed && x !in s.routed
    ensures e.StepAsync? && s.asyncBatch != []
    ensures Tag(s.asyncBatch[0]) == Tagged(x.origin, x.data) && IsPlayersOwn(s.env, matchId, x)
  {
    if e.StepMain? {
      MainBatchIsMain(s);
    }
  }

  lemma RoutedLater(matchId: string, s: State, es: seq<Event>, n: nat, x: MatchCommand)
    requires es != [] && Step(matchId, s, es[0]).Some?
    requires RoutedAt(matchId, Step(matchId, s, es[0]).value, es[1..], n, x)
    ensures RoutedAt(matchId, s, es, n + 1, x)
  {
    assert es[..n + 1][1..] == es[1..][..n];
    assert es[1..][n] == es[n + 1];
  }

  lemma {:induction false} RoutedHasMoment(matchId: string, s: State, es: seq<Event>, t: State, x: MatchCommand)
    requires Inv(s) && Run(matchId, s, es) == Some(t) && x in t.routed && x !in s.routed
    ensures exists n :: RoutedAt(matchId, s, es, n, x)
    decreases |es|
  {
    if es != [] {
      var next := Step(matchId, s, es[0]).value;
      StepKeepsInv(matchId, s, es[0], next);
      if x in next.routed {
        StepRoutes(matchId, s, es[0], next, x);
        assert Run(matchId, s, es[..0]) == Some(s);
        assert RoutedAt(matchId, s, es, 0, x);
      } else {
        RoutedHasMoment(matchId, next, es[1..], t, x);
        var n :| RoutedAt(matchId, next, es[1..], n, x);
        RoutedLater(matchId, s, es, n, x);
      }
    }
  }

  /**
   Every command a match executes was routed at some moment of the run, with the user id that
   the player of the submitting session had then, that session being authenticated and its
   player being in the match.
   */
  lemma ExecutedForItsPlayer(matchId: string, env: Env, es: seq<Event>, t: State, i: nat)
    requires Run(matchId, Init(env), es) == Some(t) && i < |t.executed|
    ensures exists n :: RoutedAt(matchId, Init(env), es, n, t.executed[i])
  {
    InitInv(env);
    RunKeepsInv(matchId, Init(env), es, t);
    SubseqPrefix(t.matchDone, t.routed);
    SubseqTrans(t.executed, t.matchDone, t.routed);
    SubseqMember(t.executed, t.routed, t.executed[i]);
    RoutedHasMoment(matchId, Init(env), es, t, t.executed[i]);
  }

  // ---------------------------------------------------------------- nothing is lost without a reason

  /**
   The step drops a match command, for one of these reasons and no other: when it is routed its
   session is gone, not authenticated, without its player, or its player is in another match or
   none; or when it is executed its user is not in the roster.
   */
  predicate Drops(matchId: string, s: State, e: Event) {
    || (e.StepAsync? && s.asyncBatch != [] && s.asyncBatch[0].data.command == MATCH_COMMAND
        && !IsForMatch(s.env, matchId, s.asyncBatch[0]))
    || (e.StepMatch? && s.matchBatch != [] && s.matchBatch[0].user !in s.env.roster)
  }

  function DropCount(matchId: string, s: State, es: seq<Event>): nat
    decreases |es|
  {
    if es == [] then 0
    else match Step(matchId, s, es[0])
         case None => 0
         case Some(next) => (if Drops(matchId, s, es[0]) then 1 else 0) + DropCount(matchId, next, es[1..])
  }

  /** Match commands that have not reached the end of the relay. */
  function UnderWay(s: State): nat {
    |MatchData(s.asyncBatch)| + |MatchData(s.asyncQueue)| + |s.matchBatch| + |s.matchQueue|
  }

  /** Submitted match commands that are neither executed nor under way. */
  function Missing(s: State): int {
    |MatchData(s.submitted)| - |s.executed| - UnderWay(s)
  }

  /**
   Every match command of a live, authenticated session whose player is active in the match is
   routed, whatever its protocol and payload, under that player's user id; nothing else is.
   */
  lemma RouteExactly(env: Env, matchId: string, c: ThreadCommand, u: uint32)
    ensures Route(env, matchId, c) == [MatchCommand(c.user, u, c.data)] <==>
            && c.data.command == 2
            && c.user in env.sessions && env.sessions[c.user].authenticated
            && env.sessions[c.user].player == Some(PlayerLink(u, Some(matchId)))
    ensures Route(env, matchId, c) == [] <==> !IsForMatch(env, matchId, c)
    ensures IsForMatch(env, matchId, c) <==>
            && c.data.command == 2
            && c.user in env.sessions && env.sessions[c.user].authenticated
            && exists v: uint32 :: env.sessions[c.user].player == Some(PlayerLink(v, Some(matchId)))
  {
    if IsForMatch(env, matchId, c) {
      var link := env.sessions[c.user].player.value;
      assert link == PlayerLink(link.userId, Some(matchId));
    }
  }

  /** Of the registered opcodes only the match command is processed asynchronously. */
  lemma AsyncExactly(c: ThreadCommand)
    ensures IsAsync(c) <==> c.data.command == MATCH_COMMAND == 2
    ensures c.data.command in REGISTERED <==> c.data.command in {0xff, 1, 2, 3}
  {
  }

  lemma RouteIsAtMostOne(env: Env, matchId: string, c: ThreadCommand)
    ensures |Route(env, matchId, c)| <= 1
    ensures c.data.command != MATCH_COMMAND ==> Route(env, matchId, c) == []
  {
  }

  lemma StepMainCounts(matchId: string, s: State, t: State)
    requires Inv(s) && Step(matchId, s, StepMain) == Some(t)
    ensures Missing(t) == Missing(s)
  {
    MainBatchIsMain(s);
    RouteIsAtMostOne(s.env, matchId, s.mainBatch[0]);
    hide Inv, Route;
    assert t.matchQueue == s.matchQueue;
  }

  lemma StepAsyncCounts(matchId: string, s: State, t: State)
    requires Step(matchId, s, StepAsync) == Some(t)
    ensures Missing(t) == Missing(s) + if Drops(matchId, s, StepAsync) then 1 else 0
  {
    RouteIsAtMostOne(s.env, matchId, s.asyncBatch[0]);
    RouteExactly(s.env, matchId, s.asyncBatch[0], 0);
    hide Route, IsForMatch;
  }

  /** A batch is the whole queue. */
  lemma TakesWholeQueue(matchId: string, s: State, e: Event, t: State)
    requires Step(matchId, s, e) == Some(t)
    ensures e.TakeAsync? ==> t == s.(asyncBatch := s.asyncQueue, asyncQueue := [])
    ensures e.TakeMain? ==> t == s.(mainBatch := s.mainQueue, mainQueue := [])
    ensures e.TakeMatch? ==> t == s.(matchBatch := s.matchQueue, matchQueue := [])
  {
  }

  lemma SubmitCounts(matchId: string, s: State, c: ThreadCommand, t: State)
    requires Step(matchId, s, Submit(c)) == Some(t)
    ensures Missing(t) == Missing(s)
  {
    MatchDataAppend(s.submitted, [c]);
    MatchDataAppend(s.asyncQueue, [c]);
    assert !IsAsync(c) ==> OneMatchData(c) == [] && [c][1..] == [];
    hide OneMatchData, IsAsync;
  }

  lemma StepCounts(matchId: string, s: State, e: Event, t: State)
    requires Inv(s) && Step(matchId, s, e) == Some(t)
    ensures Missing(t) == Missing(s) + if Drops(matchId, s, e) then 1 else 0
  {
    hide Inv;
    match e
    case Submit(c) => SubmitCounts(matchId, s, c, t);
    case StepAsync => StepAsyncCounts(matchId, s, t);
    case StepMain => StepMainCounts(matchId, s, t);
    case _ => hide MatchData;
  }

  lemma {:induction false} RunCounts(matchId: string, s: State, es: seq<Event>, t: State)
    requires Inv(s) && Run(matchId, s, es) == Some(t)
    ensures Missing(t) == Missing(s) + DropCount(matchId, s, es)
    decreases |es|
  {
    if es != [] {
      var next := Step(matchId, s, es[0]).value;
      StepCounts(matchId, s, es[0], next);
      StepKeepsInv(matchId, s, es[0], next);
      RunCounts(matchId, next, es[1..], t);
    }
  }

  /**
   Every match command submitted is executed, still under way, or was dropped at one of the
   drop points; a match that has nothing under way executed exactly what was submitted if and
   only if no step of the run dropped a command.
   */
  lemma NothingLostUnlessDropped(matchId: string, env: Env, es: seq<Event>, t: State)
    requires Run(matchId, Init(env), es) == Some(t)
    ensures |MatchData(Submissions(es))| == |t.executed| + UnderWay(t) + DropCount(matchId, Init(env), es)
    ensures UnderWay(t) == 0 ==>
        (DataOf(t.executed) == MatchData(Submissions(es)) <==> DropCount(matchId, Init(env), es) == 0)
  {
    InitInv(env);
    RunKeepsInv(matchId, Init(env), es, t);
    RunCounts(matchId, Init(env), es, t);
    assert t.submitted == Submissions(es);
    ExecutedIsSubsequence(matchId, env, es, t);
    SubseqLength(DataOf(t.executed), MatchData(Submissions(es)));
  }

  // ---------------------------------------------------------------- progress

  /** Steps still to be taken for what is queued; a main command counts as if it could be routed. */
  function Load(s: State): nat {
    4 * (|s.asyncQueue| + |s.mainQueue|) + 3 * (|s.asyncBatch| + |s.mainBatch|) + 2 * |s.matchQueue| + |s.matchBatch|
  }

  /** The event moves a command on. */
  predicate Moves(s: State, e: Event) {
    match e
    case TakeAsync => s.asyncQueue != []
    case TakeMain => s.mainQueue != []
    case TakeMatch => s.matchQueue != []
    case Submit(_) => false
    case Change(_) => false
    case _ => true
  }

  lemma StepLowersLoad(matchId: string, s: State, e: Event, t: State)
    requires Step(matchId, s, e) == Some(t) && !e.Submit?
    ensures Load(t) + (if Moves(s, e) then 1 else 0) <= Load(s)
  {
    if e.StepAsync? {
      RouteIsAtMostOne(s.env, matchId, s.asyncBatch[0]);
    } else if e.StepMain? {
      RouteIsAtMostOne(s.env, matchId, s.mainBatch[0]);
    }
    hide Route;
  }

  ghost predicate NoSubmit(es: seq<Event>) {
    forall i :: 0 <= i < |es| ==> !es[i].Submit?
  }

  function MoveCount(matchId: string, s: State, es: seq<Event>): nat
    decreases |es|
  {
    if es == [] then 0
    else match Step(matchId, s, es[0])
         case None => 0
         case Some(next) => (if Moves(s, es[0]) then 1 else 0) + MoveCount(matchId, next, es[1..])
  }

  /** Without new submissions, however the threads are scheduled, only so many steps move a command. */
  lemma {:induction false} MovesAreBounded(matchId: string, s: State, es: seq<Event>, t: State)
    requires Run(matchId, s, es) == Some(t) && NoSubmit(es)
    ensures MoveCount(matchId, s, es) + Load(t) <= Load(s)
    decreases |es|
  {
    if es != [] {
      var next := Step(matchId, s, es[0]).value;
      StepLowersLoad(matchId, s, es[0], next);
      MovesAreBounded(matchId, next, es[1..], t);
    }
  }

  predicate CanMove(matchId: string, s: State, e: Event) {
    Step(matchId, s, e).Some? && Moves(s, e)
  }

  /** No step of the async thread or the match thread moves a command. */
  predicate AtRest(matchId: string, s: State) {
    && !CanMove(matchId, s, TakeAsync) && !CanMove(matchId, s, StepAsync)
    && !CanMove(matchId, s, TakeMatch) && !CanMove(matchId, s, StepMatch)
  }

  lemma RestMeansArrived(matchId: string, s: State)
    ensures AtRest(matchId, s) <==> s.asyncBatch + s.asyncQueue == [] && s.matchBatch + s.matchQueue == []
    ensures AtRest(matchId, s) ==> UnderWay(s) == 0
  {
  }

  /** From every state the two threads bring everything under way to its end by their own steps. */
  lemma {:induction false} RelayReachesRest(matchId: string, s: State) returns (es: seq<Event>, t: State)
    ensures NoSubmit(es) && Run(matchId, s, es) == Some(t) && AtRest(matchId, t) && UnderWay(t) == 0
    decreases Load(s)
  {
    RestMeansArrived(matchId, s);
    if AtRest(matchId, s) {
      es, t := [], s;
    } else {
      var e := if CanMove(matchId, s, TakeAsync) then TakeAsync
               else if CanMove(matchId, s, StepAsync) then StepAsync
               else if CanMove(matchId, s, TakeMatch) then TakeMatch
               else StepMatch;
      var next := Step(matchId, s, e).value;
      StepLowersLoad(matchId, s, e, next);
      es, t := RelayReachesRest(matchId, next);
      es := [e] + es;
    }
  }

  lemma {:induction false} RunAppend(matchId: string, s: State, a: seq<Event>, m: State, b: seq<Event>)
    requires Run(matchId, s, a) == Some(m)
    ensures Run(matchId, s, a + b) == Run(matchId, m, b)
    decreases |a|
  {
    if a == [] {
      assert a + b == b;
    } else {
      assert (a + b)[1..] == a[1..] + b;
      RunAppend(matchId, Step(matchId, s, a[0]).value, a[1..], m, b);
    }
  }

  lemma {:induction false} NothingMoreSubmitted(a: seq<Event>, b: seq<Event>)
    requires NoSubmit(b)
    ensures Submissions(a + b) == Submissions(a)
    decreases |a| + |b|
  {
    if a != [] {
      assert (a + b)[1..] == a[1..] + b;
      NothingMoreSubmitted(a[1..], b);
    } else if b != [] {
      assert a + b == b && b[1..] == [] + b[1..];
      NothingMoreSubmitted([], b[1..]);
    }
  }

  /**
   Once submissions stop, every schedule moves commands at most Load times, and when it leaves
   the relay at rest each match command submitted has been executed or dropped; all of them
   were executed, in order and unchanged, if and only if none was dropped.
   */
  lemma RelayDelivers(matchId: string, env: Env, es: seq<Event>, s: State, drain: seq<Event>, t: State)
    requires Run(matchId, Init(env), es) == Some(s)
    requires NoSubmit(drain) && Run(matchId, s, drain) == Some(t)
    ensures MoveCount(matchId, s, drain) <= Load(s)
    ensures var drops := DropCount(matchId, Init(env), es + drain);
            AtRest(matchId, t) ==>
              && |MatchData(Submissions(es))| == |t.executed| + drops
              && (DataOf(t.executed) == MatchData(Submissions(es)) <==> drops == 0)
  {
    MovesAreBounded(matchId, s, drain, t);
    RunAppend(matchId, Init(env), es, s, drain);
    NothingMoreSubmitted(es, drain);
    RestMeansArrived(matchId, t);
    NothingLostUnlessDropped(matchId, env, es + drain, t);
  }

  // ---------------------------------------------------------------- from the wire to the match

  /** ProcessReceiveBuffer for each message of one session: command byte, payload, Process. */
  function TcpCommands(user: string, messages: seq<seq<byte>>): seq<ThreadCommand> {
    if messages == [] then []
    else match DecodeCommand(messages[0])
         case None => TcpCommands(user, messages[1..])
         case Some(c) => [ThreadCommand(user, Data(Tcp, c.code, c.payload))] + TcpCommands(user, messages[1..])
  }

  /** The match commands among a client's commands, as they should arrive. */
  function MatchPayloads(user: string, commands: seq<Command>): seq<Tagged> {
    if commands == [] then []
    else (if commands[0].code == MATCH_COMMAND
          then [Tagged(user, Data(Tcp, MATCH_COMMAND, commands[0].payload))] else [])
         + MatchPayloads(user, commands[1..])
  }

  lemma {:induction false} TcpCommandsDecode(user: string, commands: seq<Command>)
    ensures MatchData(TcpCommands(user, Map(EncodeCommand, commands))) == MatchPayloads(user, commands)
  {
    if commands != [] {
      var messages := Map(EncodeCommand, commands);
      assert messages[1..] == Map(EncodeCommand, commands[1..]);
      DecodeEncode(commands[0], messages[0]);
      TcpCommandsDecode(user, commands[1..]);
    }
  }

  lemma {:induction false} TcpCommandsAppend(user: string, a: seq<seq<byte>>, b: seq<seq<byte>>)
    ensures TcpCommands(user, a + b) == TcpCommands(user, a) + TcpCommands(user, b)
  {
    if a == [] {
      assert a + b == b;
    } else {
      assert (a + b)[1..] == a[1..] + b;
      TcpCommandsAppend(user, a[1..], b);
    }
  }

  predicate IsTcpOf(d: Tagged, user: string) {
    d.origin == user && d.data.protocol == Tcp
  }

  /** What one session submitted over TCP. */
  function TcpFrom(cs: seq<ThreadCommand>, user: string): seq<ThreadCommand> {
    if cs == [] then []
    else (if IsTcpOf(Tag(cs[0]), user) then [cs[0]] else []) + TcpFrom(cs[1..], user)
  }

  /** The data that came from one session over TCP. */
  function TcpOf(ds: seq<Tagged>, user: string): seq<Tagged> {
    if ds == [] then [] else OneTcpOf(ds[0], user) + TcpOf(ds[1..], user)
  }

  function OneTcpOf(d: Tagged, user: string): seq<Tagged> {
    if IsTcpOf(d, user) then [d] else []
  }

  lemma {:induction false} TcpOfAppend(a: seq<Tagged>, b: seq<Tagged>, user: string)
    ensures TcpOf(a + b, user) == TcpOf(a, user) + TcpOf(b, user)
  {
    hide OneTcpOf;
    if a == [] {
      assert a + b == b;
    } else {
      TcpOfAppend(a[1..], b, user);
      assert (a + b)[1..] == a[1..] + b;
      ConcatAssociates(OneTcpOf(a[0], user), TcpOf(a[1..], user), TcpOf(b, user));
    }
  }

  /** Picking out the match commands and picking out one session's commands commute. */
  lemma {:induction false} TcpOfMatchData(cs: seq<ThreadCommand>, user: string)
    ensures TcpOf(MatchData(cs), user) == MatchData(TcpFrom(cs, user))
  {
    if cs != [] {
      var c, rest := cs[0], cs[1..];
      TcpOfMatchData(rest, user);
      OneTcpOfMatchData(c, user);
      var own: seq<ThreadCommand> := if IsTcpOf(Tag(c), user) then [c] else [];
      assert TcpFrom(cs, user) == own + TcpFrom(rest, user);
      hide TcpFrom, MatchData;
      MatchDataCons(cs);
      TcpOfAppend(OneMatchData(c), MatchData(rest), user);
      MatchDataAppend(own, TcpFrom(rest, user));
    }
  }

  lemma MatchDataCons(cs: seq<ThreadCommand>)
    requires cs != []
    ensures MatchData(cs) == OneMatchData(cs[0]) + MatchData(cs[1..])
  {
  }

  lemma OneTcpOfMatchData(c: ThreadCommand, user: string)
    ensures TcpOf(OneMatchData(c), user) == MatchData(if IsTcpOf(Tag(c), user) then [c] else [])
  {
    assert [c][1..] == [] && [Tag(c)][1..] == [];
  }

  lemma {:induction false} SubseqTcpOf(a: seq<Tagged>, b: seq<Tagged>, user: string)
    requires Subseq(a, b)
    ensures Subseq(TcpOf(a, user), TcpOf(b, user))
    decreases |b|
  {
    if a != [] {
      hide OneTcpOf;
      if a[0] == b[0] && Subseq(a[1..], b[1..]) {
        SubseqTcpOf(a[1..], b[1..], user);
        SubseqCons(OneTcpOf(b[0], user), TcpOf(a[1..], user), TcpOf(b[1..], user));
      } else {
        SubseqTcpOf(a, b[1..], user);
        SubseqTail(TcpOf(b[1..], user), OneTcpOf(b[0], user));
        SubseqTrans(TcpOf(a, user), TcpOf(b[1..], user), TcpOf(b, user));
      }
    }
  }

  /**
   For every client of every run: it frames and sends commands over TCP, the server has read
   any prefix of its stream, and what its session submitted over TCP is what was read. What the
   match executes on behalf of that session is a subsequence of its match commands, payload for
   payload, whatever all other clients do.
   */
  lemma WireToMatch(matchId: string, env: Env, es: seq<Event>, t: State,
                    user: string, commands: seq<Command>, read: seq<byte>)
    requires forall i :: 0 <= i < |commands| ==> |commands[i].payload| < 0xFFFF
    requires read <= Frames(Map(EncodeCommand, commands))
    requires Run(matchId, Init(env), es) == Some(t)
    requires TcpFrom(Submissions(es), user) == TcpCommands(user, Deframe(read).messages)
    ensures Subseq(TcpOf(DataOf(t.executed), user), MatchPayloads(user, commands))
  {
    ExecutedIsSubsequence(matchId, env, es, t);
    SubseqTcpOf(DataOf(t.executed), MatchData(Submissions(es)), user);
    TcpOfMatchData(Submissions(es), user);
    ReadIsPrefix(user, commands, read);
    SubseqPrefix(MatchData(TcpFrom(Submissions(es), user)), MatchPayloads(user, commands));
    SubseqTrans(TcpOf(DataOf(t.executed), user), MatchData(TcpFrom(Submissions(es), user)),
                MatchPayloads(user, commands));
  }

  /** The match commands read so far are the first match commands sent. */
  lemma ReadIsPrefix(user: string, commands: seq<Command>, read: seq<byte>)
    requires forall i :: 0 <= i < |commands| ==> |commands[i].payload| < 0xFFFF
    requires read <= Frames(Map(EncodeCommand, commands))
    ensures MatchData(TcpCommands(user, Deframe(read).messages)) <= MatchPayloads(user, commands)
  {
    var messages := Map(EncodeCommand, commands);
    var stream, got := Frames(messages), Deframe(read).messages;
    StreamRoundTrip(messages);
    PrefixDeliversPrefix(read, stream[|read|..]);
    assert stream == read + stream[|read|..];
    assert messages == got + messages[|got|..];
    TcpCommandsAppend(user, got, messages[|got|..]);
    MatchDataAppend(TcpCommands(user, got), TcpCommands(user, messages[|got|..]));
    TcpCommandsDecode(user, commands);
  }
}
