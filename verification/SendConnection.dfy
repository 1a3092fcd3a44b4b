/**
 The fields and methods of tcp_connection and udp_connection that make up the send side, each
 method run without contention: it does in place what SendProtocol does in single steps.
 */
module SendConnection {
  import opened Bytes
  import opened BufferUtils
  import opened SendProtocol

  /** How a start_send ends; Blocked: it waits in the acquire of semaphore_2. */
  datatype Outcome = Stopped | Blocked | Overran | Issued

  function AcquireOutcome(tokens: nat, messages: seq<seq<byte>>): Outcome {
    if tokens == 0 then Blocked
    else if messages != [] && |messages[0]| > SEND_BUFFER_SIZE then Overran
    else Issued
  }

  /** A write has the first message in flight and in the buffer; an overrun only takes it from the queue. */
  ghost predicate SendEffect(outcome: Outcome, before: seq<seq<byte>>, after: seq<seq<byte>>,
                             flightBefore: seq<Extent>, flightAfter: seq<Extent>,
                             bufferBefore: seq<byte>, bufferAfter: seq<byte>) {
    && (outcome.Stopped? || outcome.Blocked? ==> after == before)
    && (outcome.Issued? || outcome.Overran? ==> before != [] && after == before[1..])
    && (outcome.Issued? ==> flightAfter == [|before[0]|] && before[0] <= bufferAfter)
    && (!outcome.Issued? ==> bufferAfter == bufferBefore && flightAfter == flightBefore)
  }

  class Connection {
    const udp: bool
    const release: ReleaseMode

    var running: bool
    var sends1: nat             // m_sends_semaphore_1
    var sends2: nat             // m_sends_semaphore_2
    var messages: seq<seq<byte>>
    var queueLen: int
    var numTrySends: int
    var numDoSends: int
    const sendBuffer: array<byte>

    ghost var phase: Phase
    ghost var inFlight: seq<Extent>
    ghost var accepted: seq<seq<byte>>
    ghost var completed: seq<seq<byte>>
    ghost var lost: nat

    ghost function Config(): Config {
      SendProtocol.Config(release, udp)
    }

    /** The protocol state, with nobody inside the lock or between unlocking and releasing. */
    ghost function View(): State
      reads this, sendBuffer
      requires sendBuffer.Length == SEND_BUFFER_SIZE
    {
      State(running, sends1, sends2, Free, phase, messages, queueLen, numTrySends, numDoSends,
            sendBuffer[..], inFlight, 0, accepted, completed, lost)
    }

    ghost predicate Valid()
      reads this, sendBuffer
    {
      sendBuffer.Length == SEND_BUFFER_SIZE && Inv(Config(), View())
    }

    constructor (udp: bool, release: ReleaseMode)
      ensures Valid() && fresh(sendBuffer)
      ensures this.udp == udp && this.release == release && View() == Init(sendBuffer[..])
    {
      this.udp, this.release := udp, release;
      running, sends1, sends2, messages := true, 0, 0, [];
      queueLen, numTrySends, numDoSends := 0, 0, 0;
      sendBuffer := new byte[SEND_BUFFER_SIZE];
      phase, inFlight, accepted, completed, lost := LoopTest, [], [], [], 0;
      new;
      InitInv(Config(), sendBuffer[..]);
    }

    /** Send: the frame is queued and counted under the lock, then semaphore_2 is released. */
    method Send(data: seq<byte>)
      requires Valid()
      modifies this
      ensures Valid()
      ensures Run(Config(), old(View()), SendSteps(Config(), data)) == Some(View())
      ensures messages == old(messages) + [AddLength(data)] && queueLen == old(queueLen) + 1
    {
      ghost var c, before := Config(), View();
      SendStepsRun(c, before, data);
      RunKeepsInv(c, before, SendSteps(c, data), AfterSend(c, before, data));
      var sending := AddLength(data);
      messages := messages + [sending];
      queueLen := queueLen + 1;
      if udp {
        numTrySends := numTrySends + 1;
      }
      accepted := accepted + [sending];
      lost := lost + Lost(release, sends2);
      sends2 := Release(release, sends2);
      assert View() == AfterSend(c, before, data);
    }

    /** start_send: it ends at once after a shutdown. */
    method StartSend() returns (outcome: Outcome)
      requires Valid() && phase.StartTest?
      modifies this, sendBuffer
      ensures Valid() && running == old(running)
      ensures Run(Config(), old(View()), SenderSteps(StartSendLength(Config(), old(View())))) == Some(View())
      ensures outcome == if running then AcquireOutcome(old(sends2), old(messages)) else Stopped
      ensures SendEffect(outcome, old(messages), messages, old(inFlight), inFlight, old(sendBuffer[..]), sendBuffer[..])
    {
      ghost var c, before := Config(), View();
      StartSendKeepsInv(c, before);
      hide Inv, Run, SenderSteps, StartSendLength, SendEffect;
      if !running {
        phase := WaitOne;
        return Stopped;
      }
      phase := WaitTwo;
      outcome := Acquire();
    }

    /** The rest of start_send: it waits for a token, copies past the end of the buffer, or starts a write. */
    method Acquire() returns (outcome: Outcome)
      requires Valid() && phase.WaitTwo?
      modifies this, sendBuffer
      ensures Valid() && View() == AfterStartSend(Config(), old(View()))
      ensures outcome == AcquireOutcome(old(sends2), old(messages))
    {
      StartSendKeepsInv(Config(), View());
      hide Inv, AfterWrite, AfterPop;
      if sends2 == 0 {
        return Blocked;
      }
      outcome := PopAndWrite();
    }

    /** The statements of start_send when a token is there; then the queue holds a message. */
    method PopAndWrite() returns (outcome: Outcome)
      requires sendBuffer.Length == SEND_BUFFER_SIZE && sends2 > 0 && messages != []
      modifies this, sendBuffer
      ensures outcome == if |old(messages)[0]| > SEND_BUFFER_SIZE then Overran else Issued
      ensures View() == AfterWrite(Config(), AfterPop(old(View()).(sem2 := old(sends2) - 1)))
    {
      sends2 := sends2 - 1;
      if messages == [] {
        assert false;
      }
      var msg := messages[0];
      messages := messages[1..];
      queueLen := queueLen - 1;
      if |msg| > SEND_BUFFER_SIZE {
        phase := Overrun(msg);
        return Overran;
      }
      CopyMessage(msg);
      inFlight := inFlight + [|msg|];
      if udp {
        numDoSends := numDoSends + 1;
      }
      phase := WaitOne;
      return Issued;
    }

    method CopyMessage(msg: seq<byte>)
      requires |msg| <= sendBuffer.Length
      modifies sendBuffer
      ensures sendBuffer[..] == msg + old(sendBuffer[..])[|msg|..]
    {
      ghost var buffer := sendBuffer[..];
      MemCopy(sendBuffer, 0, msg);
      assert buffer[..0] + msg == msg;
    }

    /** The test of m_running in RunSend: the thread ends, or goes on to start_send. */
    method TestRunning() returns (goOn: bool)
      requires Valid() && phase.LoopTest?
      modifies this
      ensures Valid() && goOn == running && running == old(running)
      ensures View() == old(View()).(phase := if running then StartTest else Exited)
      ensures Step(Config(), old(View()), SenderStep) == Some(View())
    {
      StepKeepsControl(Config(), View(), SenderStep, Step(Config(), View(), SenderStep).value);
      StepConserves(Config(), View(), SenderStep, Step(Config(), View(), SenderStep).value);
      hide Inv;
      goOn := running;
      phase := if running then StartTest else Exited;
    }

    /** The acquire of semaphore_1 in RunSend; false: it blocks. */
    method AcquireOne() returns (acquired: bool)
      requires Valid() && phase.WaitOne?
      modifies this
      ensures Valid() && acquired == (old(sends1) > 0)
      ensures View() == if acquired then old(View()).(sem1 := old(sends1) - 1, phase := LoopTest) else old(View())
      ensures Step(Config(), old(View()), SenderStep) == if acquired then Some(View()) else None
    {
      if sends1 == 0 {
        return false;
      }
      StepKeepsControl(Config(), View(), SenderStep, Step(Config(), View(), SenderStep).value);
      StepConserves(Config(), View(), SenderStep, Step(Config(), View(), SenderStep).value);
      hide Inv;
      sends1 := sends1 - 1;
      phase := LoopTest;
      return true;
    }

    /** close, without the join. */
    method Close()
      requires Valid()
      modifies this`running
      ensures Valid() && View() == old(View()).(running := false)
      ensures Step(Config(), old(View()), Shutdown) == Some(View())
    {
      StepKeepsControl(Config(), View(), Shutdown, Step(Config(), View(), Shutdown).value);
      StepConserves(Config(), View(), Shutdown, Step(Config(), View(), Shutdown).value);
      hide Inv;
      running := false;
    }

    /** handle_write and handle_send: the bytes of the write in front are out. */
    method HandleWrite()
      requires Valid() && inFlight != []
      modifies this
      ensures Valid()
      ensures Step(Config(), old(View()), Complete) == Some(View())
      ensures completed == old(completed) + [old(sendBuffer[..inFlight[0]])]
    {
      StepKeepsControl(Config(), View(), Complete, Step(Config(), View(), Complete).value);
      StepConserves(Config(), View(), Complete, Step(Config(), View(), Complete).value);
      completed, inFlight := completed + [sendBuffer[..inFlight[0]]], inFlight[1..];
      sends1 := Release(release, sends1);
    }
  }

  /** The number of the sender's steps in one start_send. */
  ghost function StartSendLength(c: Config, s: State): nat {
    if s.phase.StartTest? && !s.running then 1
    else
      One(s.phase.StartTest?) +
      if s.sem2 == 0 then 0
      else if s.queue != [] && |s.queue[0]| > SEND_BUFFER_SIZE then 6
      else 7 + One(c.udp)
  }

  ghost function SenderSteps(n: nat): seq<Event> {
    if n == 0 then [] else [SenderStep] + SenderSteps(n - 1)
  }

  /** Lock, pop, count, unlock. */
  ghost function AfterPop(s: State): State
    requires s.queue != []
  {
    s.(queue := s.queue[1..], queueLen := s.queueLen - 1, lock := Free, phase := Copying(s.queue[0]))
  }

  /** Copy, start the write, and count it; or copy past the end. */
  ghost function AfterWrite(c: Config, s: State): State
    requires s.phase.Copying?
  {
    var frame := s.phase.frame;
    if |frame| > SEND_BUFFER_SIZE then s.(phase := Overrun(frame))
    else s.(buffer := frame + s.buffer[|frame|..], inFlight := s.inFlight + [|frame|],
            numDo := s.numDo + One(c.udp), phase := WaitOne)
  }

  ghost function AfterStartSend(c: Config, s: State): State
    requires s.sem2 > 0 ==> s.queue != []
  {
    if s.phase.StartTest? && !s.running then s.(phase := WaitOne)
    else if s.sem2 == 0 then s.(phase := WaitTwo)
    else AfterWrite(c, AfterPop(s.(sem2 := s.sem2 - 1)))
  }

  /** The outcome of a whole start_send. */
  function StartSendOutcome(s: State): Outcome {
    if s.phase.StartTest? && !s.running then Stopped else AcquireOutcome(s.sem2, s.queue)
  }

  lemma AfterStartSendEffect(c: Config, s: State)
    requires s.phase.StartTest? || s.phase.WaitTwo?
    requires (s.sem2 > 0 ==> s.queue != []) && s.inFlight == []
    ensures var t := AfterStartSend(c, s);
            && t.running == s.running
            && SendEffect(StartSendOutcome(s), s.queue, t.queue, s.inFlight, t.inFlight, s.buffer, t.buffer)
    ensures s.running ==> AfterStartSend(c, s) == AfterStartSend(c, s.(phase := WaitTwo))
  {
  }

  lemma StartSendKeepsInv(c: Config, s: State)
    requires Inv(c, s) && s.lock.Free? && (s.phase.StartTest? || s.phase.WaitTwo?)
    ensures (s.sem2 > 0 ==> s.queue != []) && s.inFlight == []
    ensures var t := AfterStartSend(c, s);
            && Inv(c, t) && t.running == s.running
            && Run(c, s, SenderSteps(StartSendLength(c, s))) == Some(t)
            && SendEffect(StartSendOutcome(s), s.queue, t.queue, s.inFlight, t.inFlight, s.buffer, t.buffer)
    ensures s.running ==>
        Inv(c, s.(phase := WaitTwo)) && AfterStartSend(c, s) == AfterStartSend(c, s.(phase := WaitTwo))
  {
    assert (s.sem2 > 0 ==> s.queue != []) && s.inFlight == [];
    StartSendRun(c, s);
    AfterStartSendEffect(c, s);
    if s.running && s.phase.StartTest? {
      WaitingKeepsInv(c, s);
    }
    hide Inv, Run, SenderSteps, StartSendLength, SendEffect, AfterStartSend;
    RunKeepsInv(c, s, SenderSteps(StartSendLength(c, s)), AfterStartSend(c, s));
  }

  lemma WaitingKeepsInv(c: Config, s: State)
    requires Inv(c, s) && s.running && s.phase.StartTest?
    ensures Inv(c, s.(phase := WaitTwo))
  {
    var t := s.(phase := WaitTwo);
    assert Step(c, s, SenderStep) == Some(t);
    StepKeepsControl(c, s, SenderStep, t);
    StepConserves(c, s, SenderStep, t);
  }

  lemma SenderStepsRun(c: Config, s: State, n: nat)
    requires n > 0
    ensures Run(c, s, SenderSteps(n)) ==
            match Sender(c, s) case None => None case Some(next) => Run(c, next, SenderSteps(n - 1))
  {
    RunCons(c, s, SenderStep, SenderSteps(n - 1));
  }

  lemma PopRun(c: Config, s: State, n: nat)
    requires s.phase.WaitTwo? && s.lock.Free? && s.sem2 > 0 && s.queue != []
    ensures Run(c, s, SenderSteps(5 + n)) == Run(c, AfterPop(s.(sem2 := s.sem2 - 1)), SenderSteps(n))
  {
    var s2 := s.(sem2 := s.sem2 - 1, phase := WantLock);
    var s3 := s2.(lock := BySender, phase := Popping);
    var s4 := s3.(queue := s.queue[1..], phase := Popped(s.queue[0]));
    var s5 := s4.(queueLen := s.queueLen - 1, phase := Dequeued(s.queue[0]));
    assert Sender(c, s) == Some(s2);
    assert Sender(c, s2) == Some(s3);
    assert Sender(c, s3) == Some(s4);
    assert Sender(c, s4) == Some(s5);
    assert Sender(c, s5) == Some(AfterPop(s.(sem2 := s.sem2 - 1)));
    hide Run, SenderSteps, Sender, AfterPop;
    SenderStepsRun(c, s, n + 5);
    SenderStepsRun(c, s2, n + 4);
    SenderStepsRun(c, s3, n + 3);
    SenderStepsRun(c, s4, n + 2);
    SenderStepsRun(c, s5, n + 1);
  }

  lemma WriteRun(c: Config, s: State)
    requires s.phase.Copying?
    ensures Run(c, s, SenderSteps(if |s.phase.frame| > SEND_BUFFER_SIZE then 1 else 2 + One(c.udp))) ==
            Some(AfterWrite(c, s))
  {
    var s1 := Sender(c, s).value;
    if |s.phase.frame| > SEND_BUFFER_SIZE {
      SenderStepsRun(c, s, 1);
    } else {
      var s2 := Sender(c, s1).value;
      SenderStepsRun(c, s, 2 + One(c.udp));
      SenderStepsRun(c, s1, 1 + One(c.udp));
      if c.udp {
        SenderStepsRun(c, s2, 1);
      }
    }
  }

  lemma AcquireRun(c: Config, s: State)
    requires s.phase.WaitTwo? && s.lock.Free? && (s.sem2 > 0 ==> s.queue != [])
    ensures Run(c, s, SenderSteps(StartSendLength(c, s))) == Some(AfterStartSend(c, s))
  {
    if s.sem2 > 0 {
      WriteRun(c, AfterPop(s.(sem2 := s.sem2 - 1)));
      PopRun(c, s, StartSendLength(c, s) - 5);
      hide Run, SenderSteps;
    }
  }

  lemma StartSendRun(c: Config, s: State)
    requires (s.phase.StartTest? || s.phase.WaitTwo?) && s.lock.Free? && (s.sem2 > 0 ==> s.queue != [])
    ensures Run(c, s, SenderSteps(StartSendLength(c, s))) == Some(AfterStartSend(c, s))
  {
    if s.phase.WaitTwo? {
      AcquireRun(c, s);
    } else if !s.running {
      SenderStepsRun(c, s, 1);
    } else {
      var waiting := s.(phase := WaitTwo);
      AcquireRun(c, waiting);
      SenderStepsRun(c, s, StartSendLength(c, s));
    }
  }
}
