/**
 The outbound send pipeline of tcp_connection and udp_connection as an interleaved step system:
 any number of producers in Send, one sender thread in RunSend and start_send, one completion
 handler, and a shutdown that may come at any time. One step is one access to shared state.
 */
module SendProtocol {
  import opened Bytes
  import opened BufferUtils
  import opened Framing

  const SEND_BUFFER_SIZE: nat := 0xFFFF

  /** The largest message Send can take: its frame then fills the send buffer. */
  const MAX_MESSAGE: nat := SEND_BUFFER_SIZE - 2

  type SendBuffer = b: seq<byte> | |b| == SEND_BUFFER_SIZE witness seq(SEND_BUFFER_SIZE, _ => 0)

  type Extent = n: nat | n <= SEND_BUFFER_SIZE

  /**
   binary_semaphore::release on a full semaphore breaks the precondition of section 32.7.3 of
   ISO/IEC 14882:2020; an implementation may still add one, or keep the counter at one.
   */
  datatype ReleaseMode = AddsOne | SaturatesAtOne

  /** udp: the connection also counts the sends asked for and the sends issued. */
  datatype Config = Config(release: ReleaseMode, udp: bool)

  /** Who is inside m_send_lock and how far it has got. */
  datatype Lock =
    | Free
    | Sending(frame: seq<byte>)   // a producer that has not pushed yet
    | Pushed                      // pushed, m_send_queue_len not yet increased
    | Counted                     // m_send_queue_len increased
    | Tried                       // m_numTrySends increased too (UDP only)
    | BySender

  /** The sender thread's next statement. */
  datatype Phase =
    | LoopTest                    // RunSend tests m_running
    | StartTest                   // start_send tests m_running
    | WaitTwo                     // acquires semaphore_2
    | WantLock
    | Popping
    | EmptyQueue                  // the branch that unlocks and returns without a write
    | Popped(frame: seq<byte>)    // m_send_queue_len not yet decreased
    | Dequeued(frame: seq<byte>)  // about to unlock
    | Copying(frame: seq<byte>)   // about to copy into the send buffer
    | Overrun(frame: seq<byte>)   // the copy would leave the send buffer: undefined from here
    | Issuing(size: Extent)       // about to start the asynchronous write
    | CountingDo                  // about to increase m_numDoSends (UDP only)
    | WaitOne                     // acquires semaphore_1
    | Exited

  /** accepted, completed and lost are history: frames in lock order, bytes written, tokens dropped. */
  datatype State = State(
    running: bool, sem1: nat, sem2: nat, lock: Lock, phase: Phase,
    queue: seq<seq<byte>>, queueLen: int, numTry: int, numDo: int,
    buffer: SendBuffer, inFlight: seq<Extent>, unreleased: nat,
    accepted: seq<seq<byte>>, completed: seq<seq<byte>>, lost: nat)

  datatype Event =
    | BeginSend(data: seq<byte>)  // a producer frames data and takes the lock
    | ProducerStep                // the producer inside the lock moves on
    | ReleaseTwo                  // a producer that has left the lock releases semaphore_2
    | SenderStep
    | Complete                    // the write in front is done: handle_write
    | Shutdown

  function Init(buffer: SendBuffer): State {
    State(true, 0, 0, Free, LoopTest, [], 0, 0, 0, buffer, [], 0, [], [], 0)
  }

  function Release(mode: ReleaseMode, counter: nat): nat {
    if mode.SaturatesAtOne? && counter >= 1 then counter else counter + 1
  }

  function Lost(mode: ReleaseMode, counter: nat): nat {
    if mode.SaturatesAtOne? && counter >= 1 then 1 else 0
  }

  function LeaveLock(s: State): State {
    s.(lock := Free, unreleased := s.unreleased + 1)
  }

  function Producer(c: Config, s: State): Option<State> {
    match s.lock
    case Sending(frame) => Some(s.(queue := s.queue + [frame], lock := Pushed))
    case Pushed => Some(s.(queueLen := s.queueLen + 1, lock := Counted))
    case Counted => Some(if c.udp then s.(numTry := s.numTry + 1, lock := Tried) else LeaveLock(s))
    case Tried => Some(LeaveLock(s))
    case Free => None
    case BySender => None
  }

  function Sender(c: Config, s: State): Option<State> {
    match s.phase
    case LoopTest => Some(s.(phase := if s.running then StartTest else Exited))
    case StartTest => Some(s.(phase := if s.running then WaitTwo else WaitOne))
    case WaitTwo => if s.sem2 > 0 then Some(s.(sem2 := s.sem2 - 1, phase := WantLock)) else None
    case WantLock => if s.lock.Free? then Some(s.(lock := BySender, phase := Popping)) else None
    case Popping =>
      if s.queue != [] then Some(s.(queue := s.queue[1..], phase := Popped(s.queue[0])))
      else Some(s.(phase := EmptyQueue))
    case EmptyQueue => Some(s.(lock := Free, phase := WaitOne))
    case Popped(frame) => Some(s.(queueLen := s.queueLen - 1, phase := Dequeued(frame)))
    case Dequeued(frame) => Some(s.(lock := Free, phase := Copying(frame)))
    case Copying(frame) =>
      if |frame| <= SEND_BUFFER_SIZE
      then Some(s.(buffer := frame + s.buffer[|frame|..], phase := Issuing(|frame|)))
      else Some(s.(phase := Overrun(frame)))
    case Issuing(size) =>
      Some(s.(inFlight := s.inFlight + [size], phase := if c.udp then CountingDo else WaitOne))
    case CountingDo => Some(s.(numDo := s.numDo + 1, phase := WaitOne))
    case WaitOne => if s.sem1 > 0 then Some(s.(sem1 := s.sem1 - 1, phase := LoopTest)) else None
    case Overrun(_) => None
    case Exited => None
  }

  function Step(c: Config, s: State, e: Event): Option<State> {
    match e
    case BeginSend(data) =>
      if s.lock.Free?
      then Some(s.(lock := Sending(AddLength(data)), accepted := s.accepted + [AddLength(data)]))
      else None
    case ProducerStep => Producer(c, s)
    case ReleaseTwo =>
      if s.unreleased > 0
      then Some(s.(unreleased := s.unreleased - 1, sem2 := Release(c.release, s.sem2),
                   lost := s.lost + Lost(c.release, s.sem2)))
      else None
    case SenderStep => Sender(c, s)
    case Complete =>
      if s.inFlight != []
      then Some(s.(completed := s.completed + [s.buffer[..s.inFlight[0]]], inFlight := s.inFlight[1..],
                   sem1 := Release(c.release, s.sem1)))
      else None
    case Shutdown => Some(s.(running := false))
  }

  function Run(c: Config, s: State, es: seq<Event>): Option<State>
    decreases |es|
  {
    if es == [] then Some(s)
    else match Step(c, s, es[0])
         case None => None
         case Some(next) => Run(c, next, es[1..])
  }

  /**
   Where a thread has to wait: a producer for the lock; the sender for semaphore_2, the lock and
   semaphore_1; a completion for a write. Nothing else waits, and a shutdown never does.
   */
  lemma StepIsPossible(c: Config, s: State, e: Event)
    ensures Step(c, s, e).Some? <==>
            match e
            case BeginSend(_) => s.lock == Free
            case ProducerStep => s.lock != Free && s.lock != BySender
            case ReleaseTwo => s.unreleased > 0
            case SenderStep =>
              && (s.phase.WaitTwo? ==> s.sem2 > 0) && (s.phase.WantLock? ==> s.lock == Free)
              && (s.phase.WaitOne? ==> s.sem1 > 0) && !s.phase.Overrun? && !s.phase.Exited?
            case Complete => s.inFlight != []
            case Shutdown => true
    ensures Step(c, s, Shutdown) == Some(s.(running := false))
    ensures Step(c, s, SenderStep).Some? && Step(c, s, SenderStep).value.phase.Exited? ==>
        s.phase.LoopTest? && !s.running
  {
  }

  // ---------------------------------------------------------------- the inductive invariant

  function One(b: bool): nat {
    if b then 1 else 0
  }

  predicate Waiting(p: Phase) {
    p.CountingDo? || p.WaitOne?
  }

  /** The two sides of semaphore_1: a write in flight, its completion token, or the sender's turn. */
  ghost predicate TurnTaking(s: State) {
    && s.sem1 + |s.inFlight| <= 1
    && (!Waiting(s.phase) ==> s.sem1 == 0 && s.inFlight == [])
    && (s.running ==> !s.phase.Exited?)
    && (s.running && Waiting(s.phase) ==> s.sem1 + |s.inFlight| == 1)
  }

  ghost predicate Locking(s: State) {
    s.lock.BySender? <==> s.phase.Popping? || s.phase.EmptyQueue? || s.phase.Popped? || s.phase.Dequeued?
  }

  /** Every queued frame has exactly one token: in semaphore_2, with its producer, with the sender, or lost. */
  ghost predicate Tokens(c: Config, s: State) {
    && s.sem2 + s.unreleased + One(s.lock.Pushed? || s.lock.Counted? || s.lock.Tried?)
       + One(s.phase.WantLock? || s.phase.Popping?) + s.lost == |s.queue|
    && (c.release.AddsOne? ==> s.lost == 0)
    && (c.release.SaturatesAtOne? ==> s.sem2 <= 1)
    && !s.phase.EmptyQueue?
  }

  function Prefixes(buffer: SendBuffer, sizes: seq<Extent>): seq<seq<byte>> {
    if sizes == [] then [] else [buffer[..sizes[0]]] + Prefixes(buffer, sizes[1..])
  }

  lemma PrefixesOfAtMostOne(buffer: SendBuffer, sizes: seq<Extent>)
    requires |sizes| <= 1
    ensures Prefixes(buffer, sizes) == if sizes == [] then [] else [buffer[..sizes[0]]]
  {
  }

  function InFlight(s: State): seq<seq<byte>> {
    Prefixes(s.buffer, s.inFlight)
  }

  function HeldBySender(s: State): seq<seq<byte>> {
    match s.phase
    case Popped(frame) => [frame]
    case Dequeued(frame) => [frame]
    case Copying(frame) => [frame]
    case Overrun(frame) => [frame]
    case Issuing(size) => [s.buffer[..size]]
    case _ => []
  }

  function HeldByProducer(s: State): seq<seq<byte>> {
    if s.lock.Sending? then [s.lock.frame] else []
  }

  function OnTheWay(s: State): seq<seq<byte>> {
    InFlight(s) + HeldBySender(s) + s.queue
  }

  /** Nothing is lost, duplicated or reordered on the way from the lock to the socket. */
  ghost predicate Conserved(s: State) {
    s.accepted == s.completed + OnTheWay(s) + HeldByProducer(s)
  }

  /** UDP frames asked for and not yet counted as done. */
  function Uncounted(s: State): int {
    |s.queue| - One(s.lock.Pushed? || s.lock.Counted?) + |HeldBySender(s)| + One(s.phase.CountingDo?)
  }

  ghost predicate Counters(c: Config, s: State) {
    && s.queueLen == |s.queue| - One(s.lock.Pushed?) + One(s.phase.Popped?)
    && (c.udp ==> s.numTry - s.numDo == Uncounted(s))
    && (s.phase.Overrun? ==> |s.phase.frame| > SEND_BUFFER_SIZE)
  }

  /** Who may act: the part of the invariant that mentions no bytes. */
  ghost predicate Control(c: Config, s: State) {
    TurnTaking(s) && Locking(s) && Tokens(c, s) && Counters(c, s)
  }

  ghost predicate Inv(c: Config, s: State) {
    Control(c, s) && Conserved(s)
  }

  lemma InitInv(c: Config, buffer: SendBuffer)
    ensures Inv(c, Init(buffer))
  {
  }

  lemma SenderKeepsTurns(c: Config, s: State, t: State)
    requires TurnTaking(s) && Locking(s) && Tokens(c, s) && Sender(c, s) == Some(t)
    ensures TurnTaking(t) && Locking(t)
  {
  }

  lemma StepKeepsTurns(c: Config, s: State, e: Event, t: State)
    requires TurnTaking(s) && Locking(s) && Tokens(c, s) && Step(c, s, e) == Some(t)
    ensures TurnTaking(t) && Locking(t)
  {
    if e.SenderStep? {
      SenderKeepsTurns(c, s, t);
    }
    hide Sender, Tokens;
  }

  lemma SenderKeepsTokens(c: Config, s: State, t: State)
    requires Locking(s) && Tokens(c, s) && Sender(c, s) == Some(t)
    ensures Tokens(c, t)
  {
  }

  lemma StepKeepsTokens(c: Config, s: State, e: Event, t: State)
    requires Locking(s) && Tokens(c, s) && Step(c, s, e) == Some(t)
    ensures Tokens(c, t)
  {
    if e.SenderStep? {
      SenderKeepsTokens(c, s, t);
    }
    hide Sender;
  }

  /** A phase in which the sender holds a frame, or counts one. */
  function Held(p: Phase): nat {
    One(p.Popped? || p.Dequeued? || p.Copying? || p.Overrun? || p.Issuing?) + One(p.CountingDo?)
  }

  lemma HeldCounts(s: State)
    ensures |HeldBySender(s)| + One(s.phase.CountingDo?) == Held(s.phase)
  {
  }

  lemma SenderKeepsCounters(c: Config, s: State, t: State)
    requires Counters(c, s) && Locking(s) && Sender(c, s) == Some(t)
    ensures Counters(c, t)
  {
    HeldCounts(s);
    HeldCounts(t);
    hide HeldBySender;
  }

  lemma StepKeepsCounters(c: Config, s: State, e: Event, t: State)
    requires Locking(s) && Counters(c, s) && Step(c, s, e) == Some(t)
    ensures Counters(c, t)
  {
    if e.SenderStep? {
      SenderKeepsCounters(c, s, t);
    } else {
      assert |HeldBySender(t)| == |HeldBySender(s)| && t.phase == s.phase;
    }
  }

  lemma StepKeepsControl(c: Config, s: State, e: Event, t: State)
    requires Control(c, s) && Step(c, s, e) == Some(t)
    ensures Control(c, t)
  {
    StepKeepsTurns(c, s, e, t);
    StepKeepsTokens(c, s, e, t);
    StepKeepsCounters(c, s, e, t);
  }

  /** The bytes in flight change only when a write is issued or completed. */
  lemma InFlightUnchanged(c: Config, s: State, e: Event, t: State)
    requires Control(c, s) && Step(c, s, e) == Some(t)
    requires !e.Complete? && !(e.SenderStep? && s.phase.Issuing?)
    ensures InFlight(t) == InFlight(s)
  {
    if e.SenderStep? && s.phase.Copying? {
      assert s.inFlight == [];
    }
  }

  /** A sender step moves frames forward along the chain in flight, held, queued. */
  lemma SenderMovesFrames(c: Config, s: State, t: State)
    requires Control(c, s) && Sender(c, s) == Some(t)
    ensures OnTheWay(t) == OnTheWay(s)
  {
    if s.phase.Issuing? {
      IssuingMovesFrame(c, s, t);
    } else {
      InFlightUnchanged(c, s, SenderStep, t);
      hide InFlight;
      assert HeldBySender(t) + t.queue == HeldBySender(s) + s.queue;
      ConcatAssociates(InFlight(s), HeldBySender(s), s.queue);
      ConcatAssociates(InFlight(t), HeldBySender(t), t.queue);
      hide HeldBySender;
    }
  }

  lemma IssuingMovesFrame(c: Config, s: State, t: State)
    requires TurnTaking(s) && s.phase.Issuing? && Sender(c, s) == Some(t)
    ensures OnTheWay(t) == OnTheWay(s)
  {
    PrefixesOfAtMostOne(s.buffer, s.inFlight);
    PrefixesOfAtMostOne(t.buffer, t.inFlight);
    var frame := s.buffer[..s.phase.size];
    assert InFlight(t) == [frame] == HeldBySender(s) && InFlight(s) == [] == HeldBySender(t);
    hide InFlight, HeldBySender;
    assert [] + [frame] + s.queue == [frame] + [] + t.queue;
  }

  /** A producer step moves frames from the producer to the end of the queue. */
  lemma ProducerMovesFrames(c: Config, s: State, t: State)
    requires Producer(c, s) == Some(t)
    ensures OnTheWay(t) + HeldByProducer(t) == OnTheWay(s) + HeldByProducer(s)
    ensures t.completed == s.completed && t.accepted == s.accepted
  {
    assert InFlight(t) == InFlight(s) && HeldBySender(t) == HeldBySender(s);
    if s.lock.Sending? {
      assert t.queue == s.queue + [s.lock.frame];
    }
  }

  lemma CompleteMovesFrame(c: Config, s: State, t: State)
    requires TurnTaking(s) && Step(c, s, Complete) == Some(t)
    ensures t.queue == s.queue && t.accepted == s.accepted && HeldByProducer(t) == HeldByProducer(s)
    ensures t.completed + OnTheWay(t) == s.completed + OnTheWay(s)
  {
    PrefixesOfAtMostOne(s.buffer, s.inFlight);
    var frame, held := s.buffer[..s.inFlight[0]], HeldBySender(s);
    assert InFlight(s) == [frame] && InFlight(t) == [] && HeldBySender(t) == held;
    hide InFlight, HeldBySender, Step, TurnTaking;
    ConcatAssociates([frame], held, s.queue);
    ConcatAssociates([], held, s.queue);
    ConcatAssociates(s.completed, [frame], held + s.queue);
  }

  lemma SenderLeavesProducers(c: Config, s: State, t: State)
    requires Sender(c, s) == Some(t) && (s.phase.EmptyQueue? || s.phase.Dequeued? ==> s.lock.BySender?)
    ensures t.completed == s.completed && t.accepted == s.accepted && HeldByProducer(t) == HeldByProducer(s)
  {
  }

  lemma SenderConserves(c: Config, s: State, t: State)
    requires Inv(c, s) && Sender(c, s) == Some(t)
    ensures Conserved(t)
  {
    assert s.phase.EmptyQueue? || s.phase.Dequeued? ==> s.lock.BySender?;
    hide Control, OnTheWay, Sender, HeldByProducer;
    SenderMovesFrames(c, s, t);
    SenderLeavesProducers(c, s, t);
  }

  lemma ProducerConserves(c: Config, s: State, t: State)
    requires Conserved(s) && Producer(c, s) == Some(t)
    ensures Conserved(t)
  {
    ProducerMovesFrames(c, s, t);
    ConcatAssociates(s.completed, OnTheWay(s), HeldByProducer(s));
    ConcatAssociates(t.completed, OnTheWay(t), HeldByProducer(t));
    hide Producer, OnTheWay, HeldByProducer;
  }

  lemma BeginConserves(c: Config, s: State, data: seq<byte>, t: State)
    requires Conserved(s) && Step(c, s, BeginSend(data)) == Some(t)
    ensures Conserved(t)
  {
    assert OnTheWay(t) == OnTheWay(s) && HeldByProducer(s) == [] && HeldByProducer(t) == [AddLength(data)];
    hide AddLength, OnTheWay, HeldByProducer;
    assert s.accepted == s.completed + OnTheWay(s);
  }

  lemma StepConserves(c: Config, s: State, e: Event, t: State)
    requires Inv(c, s) && Step(c, s, e) == Some(t)
    ensures Conserved(t)
  {
    match e
    case SenderStep => SenderConserves(c, s, t);
    case ProducerStep => ProducerConserves(c, s, t);
    case Complete =>
      CompleteMovesFrame(c, s, t);
      hide OnTheWay, Control, Step, HeldByProducer;
    case BeginSend(data) => BeginConserves(c, s, data, t);
    case _ =>
      assert OnTheWay(t) == OnTheWay(s);
      hide OnTheWay, Control;
  }

  lemma {:induction false} RunKeepsInv(c: Config, s: State, es: seq<Event>, t: State)
    requires Inv(c, s) && Run(c, s, es) == Some(t)
    ensures Inv(c, t)
    decreases |es|
  {
    if es != [] {
      var next := Step(c, s, es[0]).value;
      StepKeepsControl(c, s, es[0], next);
      StepConserves(c, s, es[0], next);
      RunKeepsInv(c, next, es[1..], t);
    }
  }

  // ---------------------------------------------------------------- safety over whole runs

  /** The messages handed to Send, in the order in which their producers took the lock. */
  function Sent(es: seq<Event>): seq<seq<byte>> {
    if es == [] then []
    else (if es[0].BeginSend? then [es[0].data] else []) + Sent(es[1..])
  }

  lemma StepAccepts(c: Config, s: State, e: Event, t: State)
    requires Step(c, s, e) == Some(t)
    ensures t.accepted == s.accepted + Map(AddLength, if e.BeginSend? then [e.data] else [])
  {
  }

  lemma {:induction false} AcceptedIsSent(c: Config, s: State, es: seq<Event>, t: State)
    requires Run(c, s, es) == Some(t)
    ensures t.accepted == s.accepted + Map(AddLength, Sent(es))
    decreases |es|
  {
    if es != [] {
      var next := Step(c, s, es[0]).value;
      StepAccepts(c, s, es[0], next);
      hide Step, Map;
      AcceptedIsSent(c, next, es[1..], t);
      var first: seq<seq<byte>> := if es[0].BeginSend? then [es[0].data] else [];
      MapAppend(AddLength, first, Sent(es[1..]));
    }
  }

  /**
   In every reachable state at most one write is in flight and semaphore_1 holds at most one
   token, never both; start_send never finds the queue empty; the frames accepted are, in
   order, those written, the one in flight, the one held by the sender, those queued and the
   one about to be pushed; and both send counters agree with the queue.
   */
  lemma SafeInEveryRun(c: Config, buffer: SendBuffer, es: seq<Event>, t: State)
    requires Run(c, Init(buffer), es) == Some(t)
    ensures |t.inFlight| + t.sem1 <= 1
    ensures !t.phase.EmptyQueue?
    ensures Map(AddLength, Sent(es)) ==
            t.completed + (InFlight(t) + HeldBySender(t) + t.queue) + HeldByProducer(t)
    ensures t.lock.Free? ==> t.queueLen == |t.queue|
    ensures c.udp && t.lock.Free? ==>
            t.numTry - t.numDo == |t.queue| + |HeldBySender(t)| + One(t.phase.CountingDo?)
  {
    InitInv(c, buffer);
    RunKeepsInv(c, Init(buffer), es, t);
    AcceptedIsSent(c, Init(buffer), es, t);
  }

  /**
   No step of any run touches the send buffer or starts a write while a write is in flight,
   and handle_write always finds semaphore_1 empty.
   */
  lemma BufferSafeInEveryRun(c: Config, buffer: SendBuffer, es: seq<Event>, s: State, e: Event, t: State)
    requires Run(c, Init(buffer), es) == Some(s) && Step(c, s, e) == Some(t)
    ensures t.buffer != s.buffer || |t.inFlight| > |s.inFlight| ==> s.inFlight == [] && s.sem1 == 0
    ensures e.Complete? ==> s.sem1 == 0 && t.sem1 == 1
    ensures t.completed != s.completed ==> t.completed == s.completed + InFlight(s)
  {
    InitInv(c, buffer);
    RunKeepsInv(c, Init(buffer), es, s);
    StepRespectsWrites(c, s, e, t);
  }

  lemma StepRespectsWrites(c: Config, s: State, e: Event, t: State)
    requires TurnTaking(s) && Step(c, s, e) == Some(t)
    ensures t.buffer != s.buffer || |t.inFlight| > |s.inFlight| ==> s.inFlight == [] && s.sem1 == 0
    ensures e.Complete? ==> s.sem1 == 0 && t.sem1 == 1
    ensures t.completed != s.completed ==> t.completed == s.completed + InFlight(s)
  {
    if e.Complete? {
      PrefixesOfAtMostOne(s.buffer, s.inFlight);
    }
    hide Prefixes;
  }

  /**
   Token accounting: semaphore_2, the pushes not yet released and the token the sender holds
   never exceed the queue, and equal it when release adds one.
   */
  lemma TokensMatchQueue(c: Config, buffer: SendBuffer, es: seq<Event>, t: State)
    requires Run(c, Init(buffer), es) == Some(t)
    ensures var tokens := t.sem2 + t.unreleased + One(t.lock.Pushed? || t.lock.Counted? || t.lock.Tried?)
                          + One(t.phase.WantLock? || t.phase.Popping?);
            tokens <= |t.queue| && (c.release.AddsOne? ==> tokens == |t.queue|)
  {
    InitInv(c, buffer);
    RunKeepsInv(c, Init(buffer), es, t);
  }

  // ---------------------------------------------------------------- drain progress

  /** Everything but a new Send and a shutdown. */
  predicate IsDrain(e: Event) {
    !e.BeginSend? && !e.Shutdown?
  }

  ghost predicate DrainOnly(es: seq<Event>) {
    forall i :: 0 <= i < |es| ==> IsDrain(es[i])
  }

  ghost predicate Quiescent(c: Config, s: State) {
    && Step(c, s, ProducerStep).None?
    && Step(c, s, ReleaseTwo).None?
    && Step(c, s, SenderStep).None?
    && Step(c, s, Complete).None?
  }

  function PhaseRank(p: Phase): nat {
    match p
    case Popped(_) => 13
    case Dequeued(_) => 12
    case Copying(_) => 11
    case Issuing(_) => 10
    case CountingDo => 7
    case WaitOne => 6
    case LoopTest => 5
    case StartTest => 4
    case WaitTwo => 3
    case WantLock => 2
    case Popping => 1
    case EmptyQueue => 0
    case Overrun(_) => 0
    case Exited => 0
  }

  function LockRank(l: Lock): nat {
    match l
    case Sending(_) => 18
    case Pushed => 4
    case Counted => 3
    case Tried => 2
    case Free => 0
    case BySender => 0
  }

  function Measure(s: State): nat {
    13 * |s.queue| + LockRank(s.lock) + s.unreleased + PhaseRank(s.phase) + |s.inFlight|
  }

  lemma DrainStepDecreases(c: Config, s: State, e: Event, t: State)
    requires Control(c, s) && s.running && IsDrain(e) && Step(c, s, e) == Some(t)
    ensures Measure(t) < Measure(s) && t.running
  {
  }

  /** While the connection runs and no new message comes, every step of anybody brings the end nearer. */
  lemma {:induction false} DrainBounded(c: Config, s: State, es: seq<Event>, t: State)
    requires Inv(c, s) && s.running && DrainOnly(es) && Run(c, s, es) == Some(t)
    ensures |es| + Measure(t) <= Measure(s)
    ensures t.running && t.accepted == s.accepted
    decreases |es|
  {
    if es != [] {
      var next := Step(c, s, es[0]).value;
      DrainStepDecreases(c, s, es[0], next);
      StepKeepsControl(c, s, es[0], next);
      StepConserves(c, s, es[0], next);
      assert next.accepted == s.accepted;
      hide Step, Control, Conserved, Measure;
      DrainBounded(c, next, es[1..], t);
    }
  }

  lemma {:induction false} RunAppend(c: Config, s: State, a: seq<Event>, m: State, b: seq<Event>)
    requires Run(c, s, a) == Some(m)
    ensures Run(c, s, a + b) == Run(c, m, b)
    decreases |a|
  {
    if a == [] {
      assert a + b == b;
    } else {
      assert (a + b)[1..] == a[1..] + b;
      RunAppend(c, Step(c, s, a[0]).value, a[1..], m, b);
    }
  }

  /** From any reachable running state the pipeline comes to rest by its own steps. */
  lemma {:induction false} DrainReachesRest(c: Config, s: State) returns (es: seq<Event>, t: State)
    requires Inv(c, s) && s.running
    ensures DrainOnly(es) && Run(c, s, es) == Some(t) && Quiescent(c, t)
    decreases Measure(s)
  {
    if Quiescent(c, s) {
      es, t := [], s;
    } else {
      var e := if Step(c, s, ProducerStep).Some? then ProducerStep
               else if Step(c, s, ReleaseTwo).Some? then ReleaseTwo
               else if Step(c, s, SenderStep).Some? then SenderStep
               else Complete;
      var next := Step(c, s, e).value;
      DrainStepDecreases(c, s, e, next);
      StepKeepsControl(c, s, e, next);
      StepConserves(c, s, e, next);
      hide Step, Quiescent, Control, Conserved, Measure;
      es, t := DrainReachesRest(c, next);
      RunCons(c, s, e, es);
      es := [e] + es;
    }
  }

  ghost predicate Fit(frames: seq<seq<byte>>) {
    forall i :: 0 <= i < |frames| ==> |frames[i]| <= SEND_BUFFER_SIZE
  }

  lemma {:induction false} RunKeepsWrittenFit(c: Config, s: State, es: seq<Event>, t: State)
    requires Fit(s.completed) && Run(c, s, es) == Some(t)
    ensures Fit(t.completed)
    decreases |es|
  {
    if es != [] {
      RunKeepsWrittenFit(c, Step(c, s, es[0]).value, es[1..], t);
    }
  }

  lemma RestPhase(c: Config, t: State)
    requires Control(c, t) && t.running && Quiescent(c, t)
    ensures t.lock.Free? && t.inFlight == [] && t.unreleased == 0
    ensures t.phase.Overrun? || (t.phase.WaitTwo? && t.sem2 == 0)
  {
  }

  lemma RestAccounting(c: Config, t: State)
    requires Inv(c, t) && t.running && Quiescent(c, t) && Fit(t.completed)
    ensures t.completed == t.accepted <==> t.lost == 0 && Fit(t.accepted)
  {
    RestPhase(c, t);
    assert InFlight(t) == [] && HeldByProducer(t) == [];
    assert t.accepted == t.completed + (HeldBySender(t) + t.queue);
    if t.phase.Overrun? {
      assert t.accepted[|t.completed|] == t.phase.frame;
    } else {
      assert HeldBySender(t) == [] && t.lost == |t.queue|;
    }
  }

  /** No release of semaphore_2 in the run finds it full and drops the token. */
  predicate TokensKept(c: Config, s: State, es: seq<Event>)
    decreases |es|
  {
    es == []
    || match Step(c, s, es[0])
       case None => true
       case Some(next) =>
         (es[0].ReleaseTwo? && c.release.SaturatesAtOne? ==> s.sem2 == 0) && TokensKept(c, next, es[1..])
  }

  lemma StepLoses(c: Config, s: State, e: Event, t: State)
    requires Step(c, s, e) == Some(t)
    ensures t.lost >= s.lost
    ensures t.lost == s.lost <==> (e.ReleaseTwo? && c.release.SaturatesAtOne? ==> s.sem2 == 0)
  {
  }

  lemma {:induction false} RunLoses(c: Config, s: State, es: seq<Event>, t: State)
    requires Run(c, s, es) == Some(t)
    ensures t.lost >= s.lost
    ensures t.lost == s.lost <==> TokensKept(c, s, es)
    decreases |es|
  {
    if es != [] {
      var next := Step(c, s, es[0]).value;
      StepLoses(c, s, es[0], next);
      hide Step;
      RunLoses(c, next, es[1..], t);
    }
  }

  /**
   When a running pipeline is at rest it has written every message, in order, if and only if no
   release of the run lost its token to a full semaphore_2 and every message fits the send
   buffer. The first half always holds when release adds one.
   */
  lemma RestMeansAllWritten(c: Config, buffer: SendBuffer, es: seq<Event>, t: State)
    requires Run(c, Init(buffer), es) == Some(t) && t.running && Quiescent(c, t)
    ensures t.completed == Map(AddLength, Sent(es)) <==>
            TokensKept(c, Init(buffer), es) && forall i :: 0 <= i < |Sent(es)| ==> |Sent(es)[i]| <= MAX_MESSAGE
    ensures c.release.AddsOne? ==> TokensKept(c, Init(buffer), es)
  {
    InitInv(c, buffer);
    RunKeepsInv(c, Init(buffer), es, t);
    AcceptedIsSent(c, Init(buffer), es, t);
    RunKeepsWrittenFit(c, Init(buffer), es, t);
    RunLoses(c, Init(buffer), es, t);
    RestAccounting(c, t);
    hide Quiescent, Conserved, Run, TokensKept;
    assert t.accepted == Map(AddLength, Sent(es));
    assert forall i :: 0 <= i < |Sent(es)| ==> |t.accepted[i]| == |Sent(es)[i]| + 2;
  }

  /** A whole uncontended Send: frame and lock, push, count, unlock, release. */
  function SendSteps(c: Config, data: seq<byte>): seq<Event> {
    [BeginSend(data), ProducerStep, ProducerStep, ProducerStep] +
    (if c.udp then [ProducerStep] else []) + [ReleaseTwo]
  }

  lemma RunCons(c: Config, s: State, e: Event, es: seq<Event>)
    ensures Run(c, s, [e] + es) == match Step(c, s, e) case None => None case Some(next) => Run(c, next, es)
  {
    assert ([e] + es)[1..] == es;
  }

  function AfterSend(c: Config, s: State, data: seq<byte>): State {
    s.(queue := s.queue + [AddLength(data)], queueLen := s.queueLen + 1,
       numTry := s.numTry + One(c.udp), accepted := s.accepted + [AddLength(data)],
       sem2 := Release(c.release, s.sem2), lost := s.lost + Lost(c.release, s.sem2))
  }

  lemma SendStepsRun(c: Config, s: State, data: seq<byte>)
    requires s.lock.Free?
    ensures Run(c, s, SendSteps(c, data)) == Some(AfterSend(c, s, data))
  {
    var frame := AddLength(data);
    var s1 := s.(lock := Sending(frame), accepted := s.accepted + [frame]);
    var s2 := s1.(queue := s.queue + [frame], lock := Pushed);
    var s3 := s2.(queueLen := s.queueLen + 1, lock := Counted);
    var s4 := s3.(numTry := s.numTry + 1, lock := Tried);
    var s5 := LeaveLock(if c.udp then s4 else s3);
    assert Step(c, s, BeginSend(data)) == Some(s1) && Step(c, s1, ProducerStep) == Some(s2);
    assert Step(c, s2, ProducerStep) == Some(s3) && Step(c, s3, ProducerStep) == Some(if c.udp then s4 else s5);
    assert c.udp ==> Step(c, s4, ProducerStep) == Some(s5);
    assert Step(c, s5, ReleaseTwo) == Some(AfterSend(c, s, data));
    hide Step, AddLength, AfterSend, LeaveLock, Run;
    var tail := if c.udp then [ProducerStep, ReleaseTwo] else [ReleaseTwo];
    RunCons(c, s, BeginSend(data), [ProducerStep, ProducerStep, ProducerStep] + tail);
    RunCons(c, s1, ProducerStep, [ProducerStep, ProducerStep] + tail);
    RunCons(c, s2, ProducerStep, [ProducerStep] + tail);
    RunCons(c, s3, ProducerStep, tail);
    RunCons(c, s4, ProducerStep, [ReleaseTwo]);
    RunCons(c, s5, ReleaseTwo, []);
    RunNothing(c, AfterSend(c, s, data));
    assert [ProducerStep] + [ReleaseTwo] == [ProducerStep, ReleaseTwo] && [ReleaseTwo] + [] == [ReleaseTwo];
    var es := [BeginSend(data)] + ([ProducerStep] + ([ProducerStep] + ([ProducerStep] + tail)));
    assert [ProducerStep] + tail + [] == [ProducerStep] + tail;
    assert [ProducerStep, ProducerStep] + tail == [ProducerStep] + ([ProducerStep] + tail);
    assert [ProducerStep, ProducerStep, ProducerStep] + tail ==
           [ProducerStep] + ([ProducerStep] + ([ProducerStep] + tail));
    assert SendSteps(c, data) == es;
  }

  lemma RunNothing(c: Config, s: State)
    ensures Run(c, s, []) == Some(s)
  {
  }

  /**
   With a saturating semaphore the drain property fails: two one-byte messages sent before the
   sender wakes leave it at rest, still running, with a message unwritten.
   */
  lemma SaturationStrandsAMessage(buffer: SendBuffer) returns (es: seq<Event>, t: State)
    ensures var c := Config(SaturatesAtOne, false);
            && SendSteps(c, [1]) + SendSteps(c, [2]) <= es && Sent(es) == [[1], [2]]
            && Run(c, Init(buffer), es) == Some(t) && t.running && Quiescent(c, t)
            && t.completed != Map(AddLength, Sent(es))
  {
    var c, s0 := Config(SaturatesAtOne, false), Init(buffer);
    SendStepsRun(c, s0, [1]);
    var s1 := AfterSend(c, s0, [1]);
    SendStepsRun(c, s1, [2]);
    var s2 := AfterSend(c, s1, [2]);
    var sends := SendSteps(c, [1]) + SendSteps(c, [2]);
    RunAppend(c, s0, SendSteps(c, [1]), s1, SendSteps(c, [2]));
    InitInv(c, buffer);
    RunKeepsInv(c, s0, sends, s2);
    var rest;
    rest, t := DrainReachesRest(c, s2);
    DrainBounded(c, s2, rest, t);
    RunLoses(c, s2, rest, t);
    RunAppend(c, s0, sends, s2, rest);
    es := sends + rest;
    RunLoses(c, s0, es, t);
    RestMeansAllWritten(c, buffer, es, t);
    SentAppend(sends, rest);
    DrainSendsNothing(rest);
    SentOfTwo(c);
  }

  lemma {:induction false} SentAppend(a: seq<Event>, b: seq<Event>)
    ensures Sent(a + b) == Sent(a) + Sent(b)
  {
    if a == [] {
      assert a + b == b;
    } else {
      var first: seq<seq<byte>> := if a[0].BeginSend? then [a[0].data] else [];
      SentAppend(a[1..], b);
      assert (a + b)[1..] == a[1..] + b;
      assert first + (Sent(a[1..]) + Sent(b)) == Sent(a) + Sent(b);
    }
  }

  lemma {:induction false} DrainSendsNothing(es: seq<Event>)
    requires DrainOnly(es)
    ensures Sent(es) == []
  {
    if es != [] {
      assert IsDrain(es[0]);
      DrainSendsNothing(es[1..]);
    }
  }

  lemma SentOfTwo(c: Config)
    ensures Sent(SendSteps(c, [1]) + SendSteps(c, [2])) == [[1], [2]]
  {
    SentAppend(SendSteps(c, [1]), SendSteps(c, [2]));
    SentOfOne(c, [1]);
    SentOfOne(c, [2]);
  }

  lemma SentOfOne(c: Config, data: seq<byte>)
    ensures Sent(SendSteps(c, data)) == [data]
  {
    var rest := SendSteps(c, data)[1..];
    DrainSendsNothing(rest);
  }

  /**
   With a semaphore that adds one, from every reachable running state and for every schedule of
   the steps that are left: there are at most Measure of them, and when none is left every
   message sent so far has been written in order.
   */
  lemma DrainDelivers(c: Config, buffer: SendBuffer, es: seq<Event>, s: State, drain: seq<Event>, t: State)
    requires c.release.AddsOne?
    requires Run(c, Init(buffer), es) == Some(s) && s.running
    requires forall i :: 0 <= i < |Sent(es)| ==> |Sent(es)[i]| <= MAX_MESSAGE
    requires DrainOnly(drain) && Run(c, s, drain) == Some(t)
    ensures |drain| <= Measure(s)
    ensures Quiescent(c, t) ==> t.completed == Map(AddLength, Sent(es))
  {
    InitInv(c, buffer);
    RunKeepsInv(c, Init(buffer), es, s);
    DrainBounded(c, s, drain, t);
    if Quiescent(c, t) {
      RunAppend(c, Init(buffer), es, s, drain);
      SentAppend(es, drain);
      DrainSendsNothing(drain);
      RestMeansAllWritten(c, buffer, es + drain, t);
    }
  }

  // ---------------------------------------------------------------- shutdown

  /** The connection runs until the first shutdown of the run, and never again. */
  lemma {:induction false} RunningExactly(c: Config, s: State, es: seq<Event>, t: State)
    requires Run(c, s, es) == Some(t)
    ensures t.running <==> s.running && Shutdown !in es
    decreases |es|
  {
    if es != [] {
      var next := Step(c, s, es[0]).value;
      assert next.running <==> s.running && !es[0].Shutdown?;
      RunningExactly(c, next, es[1..], t);
      assert Shutdown in es <==> es[0] == Shutdown || Shutdown in es[1..];
    }
  }

  /** Writes begun so far. */
  function Issued(s: State): nat {
    |s.completed| + |s.inFlight|
  }

  /** The sender is past its last test of m_running and has not begun its write. */
  predicate Committed(p: Phase) {
    p.WaitTwo? || p.WantLock? || p.Popping? || p.Popped? || p.Dequeued? || p.Copying? || p.Issuing?
  }

  lemma StoppedStep(c: Config, s: State, e: Event, t: State)
    requires !s.running && Step(c, s, e) == Some(t)
    ensures !t.running && Issued(t) + One(Committed(t.phase)) <= Issued(s) + One(Committed(s.phase))
    ensures s.phase.Exited? ==> t.phase.Exited?
    ensures s.phase.LoopTest? && e.SenderStep? ==> t.phase.Exited?
  {
  }

  lemma {:induction false} StoppedRun(c: Config, s: State, es: seq<Event>, t: State)
    requires !s.running && Run(c, s, es) == Some(t)
    ensures !t.running && Issued(t) + One(Committed(t.phase)) <= Issued(s) + One(Committed(s.phase))
    ensures s.phase.Exited? ==> t.phase.Exited?
    decreases |es|
  {
    if es != [] {
      var next := Step(c, s, es[0]).value;
      StoppedStep(c, s, es[0], next);
      hide Step, Committed;
      StoppedRun(c, next, es[1..], t);
    }
  }

  /**
   After a shutdown, whatever else happens: the write of a sender that is past its last test of
   m_running is the only one that may still begin; a sender that has exited stays so; and when no
   thread can move, the sender has exited, or waits for a token that nobody holds, or has overrun
   the buffer. The writes begun never exceed the frames accepted.
   */
  lemma ShutdownStopsWrites(c: Config, buffer: SendBuffer, es: seq<Event>, s: State, after: seq<Event>, t: State)
    requires Run(c, Init(buffer), es) == Some(s) && Shutdown in es && Run(c, s, after) == Some(t)
    ensures !t.running
    ensures Issued(t) <= Issued(s) + (if Committed(s.phase) then 1 else 0)
    ensures s.phase.Exited? ==> t.phase.Exited?
    ensures t.phase.LoopTest? ==> Step(c, t, SenderStep) == Some(t.(phase := Exited))
    ensures Quiescent(c, t) ==>
        || t.phase.Exited? || t.phase.Overrun?
        || (t.phase.WaitTwo? && t.sem2 == 0) || (t.phase.WaitOne? && t.sem1 == 0 && t.inFlight == [])
    ensures Issued(t) <= |t.accepted|
  {
    RunningExactly(c, Init(buffer), es, s);
    StoppedRun(c, s, after, t);
    InitInv(c, buffer);
    RunKeepsInv(c, Init(buffer), es, s);
    RunKeepsInv(c, s, after, t);
    PrefixesOfAtMostOne(t.buffer, t.inFlight);
    if Quiescent(c, t) {
      StoppedAtRest(c, t);
    }
  }

  lemma StoppedAtRest(c: Config, t: State)
    requires Control(c, t) && Quiescent(c, t)
    ensures t.phase.Exited? || t.phase.Overrun?
            || (t.phase.WaitTwo? && t.sem2 == 0) || (t.phase.WaitOne? && t.sem1 == 0 && t.inFlight == [])
  {
  }

  // ---------------------------------------------------------------- end to end

  /**
   A reader that deframes what a connection has written so far recovers exactly the first
   messages sent, one for each write, whatever the interleaving.
   */
  lemma WrittenBytesDecode(c: Config, buffer: SendBuffer, es: seq<Event>, t: State)
    requires Run(c, Init(buffer), es) == Some(t)
    requires forall i :: 0 <= i < |Sent(es)| ==> 1 <= |Sent(es)[i]| <= MAX_MESSAGE
    ensures |t.completed| <= |Sent(es)|
    ensures Deframe(Flatten(t.completed)) == ReadResult(Sent(es)[..|t.completed|], [], false)
  {
    SafeInEveryRun(c, buffer, es, t);
    var k := |t.completed|;
    var sent := Sent(es)[..k];
    assert t.completed == Map(AddLength, Sent(es))[..k] == Map(AddLength, sent);
    StreamRoundTrip(sent);
  }
}
