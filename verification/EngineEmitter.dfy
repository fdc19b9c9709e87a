/** The emitter: packets are handed to WritePacket in acceptance order, and drained before the close. */
module EngineEmitter {
  import opened Common
  import opened Engine

  /** The packet taken from the queue but not yet handed over. */
  function Unhanded(h: Hand): seq<Pkt> {
    match h
    case AtBarrier(p) => [p]
    case PastBarrier(p) => [p]
    case _ => []
  }

  ghost predicate EmitterInv(s: State) {
    var e := s.em;
    && e.handed + (Unhanded(e.hand) + e.queue) == e.accepted
    && (e.mode != Running ==> e.done)
    && (e.mode == Exited ==> e.hand.Idle? && e.acceptedByDone <= e.handed)
    && (e.done ==> e.acceptedByDone <= e.accepted)
    && (e.done <==> s.closing != Open)
    && (s.closing == Finished ==> e.mode == Exited)
  }

  lemma EmitterStep(s: State, a: EmitterAction)
    requires EmitterInv(s) && EmitterEnabled(s, a)
    ensures EmitterInv(EmitterNext(s, a))
  {
    match a
    case Submit(_) | Take => QueueStep(s, a);
    case BeginWrite => WriteStep(s);
    case FinishDrain => assert s.em.handed + ([] + []) == s.em.handed;
    case _ =>
  }

  lemma QueueStep(s: State, a: EmitterAction)
    requires EmitterInv(s) && EmitterEnabled(s, a) && (a.Submit? || a.Take?)
    ensures EmitterInv(EmitterNext(s, a))
  {
    var e := s.em;
    match a
    case Submit(p) =>
      CatAssoc(Unhanded(e.hand), e.queue, [p]);
      CatAssoc(e.handed, Unhanded(e.hand) + e.queue, [p]);
    case Take => assert [] + e.queue == [e.queue[0]] + e.queue[1..];
  }

  lemma WriteStep(s: State)
    requires EmitterInv(s) && EmitterEnabled(s, BeginWrite)
    ensures EmitterInv(EmitterNext(s, BeginWrite))
  {
    var e := s.em;
    CatAssoc(e.handed, [e.hand.p], e.queue);
    assert [] + e.queue == e.queue;
  }

  lemma StepEmitter(s: State, a: Action)
    requires EmitterInv(s) && Enabled(s, a)
    ensures EmitterInv(Next(s, a))
  {
    match a
    case Emit(e) => EmitterStep(s, e);
    case Upgrade(k, u) => UpgradeKeepsEmitter(s, k, u);
    case _ =>
  }

  lemma UpgradeKeepsEmitter(s: State, k: nat, u: UpgradeAction)
    requires UpgradeEnabled(s, k, u)
    ensures UpgradeNext(s, k, u).em == s.em && UpgradeNext(s, k, u).closing == s.closing
  {
  }

  lemma {:induction false} RunEmitter(s: State, run: seq<Action>)
    requires EmitterInv(s) && IsRun(s, run)
    ensures EmitterInv(After(s, run))
    decreases |run|
  {
    if run != [] {
      StepEmitter(s, run[0]);
      RunEmitter(Next(s, run[0]), run[1..]);
    }
  }

  /** In every run, across any upgrade, packets are handed to WritePacket in the order accepted. */
  lemma HandedInOrder(t: Transport, run: seq<Action>)
    requires IsRun(Init(t), run)
    ensures After(Init(t), run).em.handed <= After(Init(t), run).em.accepted
  {
    RunEmitter(Init(t), run);
  }

  /** Once Socket.Close has closed the connection, all that was accepted before it began was handed over. */
  lemma DrainedBeforeClose(t: Transport, run: seq<Action>)
    requires IsRun(Init(t), run)
    ensures var s := After(Init(t), run);
      s.closing == Finished ==> s.em.acceptedByDone <= s.em.handed && s.em.handed <= s.em.accepted
  {
    RunEmitter(Init(t), run);
  }

  // ---- after done ----

  function Rank(h: Hand): nat {
    match h
    case Idle => 0
    case Selecting(_, _) => 1
    case PastBarrier(_) => 2
    case AtBarrier(_) => 3
  }

  function ModeRank(m: Mode): nat {
    match m
    case Running => 2
    case Draining => 1
    case Exited => 0
  }

  /** Queued packets, the packet in hand, and submitters already past the first check. */
  function Work(e: Emitter): nat {
    5 * e.entering + 4 * |e.queue| + Rank(e.hand) + ModeRank(e.mode)
  }

  /** After done is closed, every step of a submitter or the emitter leaves less to do. */
  lemma DrainDecreases(s: State, a: EmitterAction)
    requires s.em.done && EmitterEnabled(s, a)
    ensures Work(EmitterNext(s, a).em) < Work(s.em)
  {
  }

  /** ... and no other step changes how much there is. */
  lemma OthersLeaveWork(s: State, a: Action)
    requires Enabled(s, a) && !a.Emit?
    ensures Work(Next(s, a).em) == Work(s.em)
  {
    if a.Upgrade? {
      UpgradeKeepsEmitter(s, a.k, a.u);
    }
  }

  // ---- packets accepted too late ----

  lemma ExitedStep(s: State, a: Action)
    requires EmitterInv(s) && s.em.mode == Exited && Enabled(s, a)
    ensures Next(s, a).em.mode == Exited && Next(s, a).em.handed == s.em.handed
    ensures s.em.queue <= Next(s, a).em.queue
  {
    if a.Upgrade? {
      UpgradeKeepsEmitter(s, a.k, a.u);
    }
  }

  /** After the emitter has returned, a packet that is in its queue stays there for good. */
  lemma {:induction false} LateStaysQueued(s: State, run: seq<Action>)
    requires EmitterInv(s) && s.em.mode == Exited && IsRun(s, run)
    ensures After(s, run).em.handed == s.em.handed && s.em.queue <= After(s, run).em.queue
    decreases |run|
  {
    if run != [] {
      ExitedStep(s, run[0]);
      StepEmitter(s, run[0]);
      LateStaysQueued(Next(s, run[0]), run[1..]);
    }
  }

  /**
   * Exactly what is handed over: in every run in which the emitter returns, the packets handed to
   * WritePacket are from then on those that submit had accepted when it returned.
   */
  lemma HandedExactly(t: Transport, before: seq<Action>, after: seq<Action>)
    requires IsRun(Init(t), before) && Enabled(After(Init(t), before), Emit(FinishDrain))
    requires IsRun(Next(After(Init(t), before), Emit(FinishDrain)), after)
    ensures After(Next(After(Init(t), before), Emit(FinishDrain)), after).em.handed
         == After(Init(t), before).em.accepted
  {
    RunEmitter(Init(t), before);
    var s := After(Init(t), before);
    StepEmitter(s, Emit(FinishDrain));
    LateStaysQueued(Next(s, Emit(FinishDrain)), after);
    assert s.em.handed + ([] + []) == s.em.handed;
  }

  /** A run in which submit accepts a packet that is never handed over. */
  const LATE_RUN: seq<Action> :=
    [Emit(EnterSubmit), CloseStart, Emit(StopLoop), Emit(FinishDrain), Emit(Submit(7))]

  lemma LateSubmitIsLost(run: seq<Action>)
    requires IsRun(Init(PollingTransport), LATE_RUN)
    requires IsRun(After(Init(PollingTransport), LATE_RUN), run)
    ensures 7 in After(Init(PollingTransport), LATE_RUN).em.accepted
    ensures 7 !in After(After(Init(PollingTransport), LATE_RUN), run).em.handed
  {
    LateRunIs();
    var s := After(Init(PollingTransport), LATE_RUN);
    RunEmitter(Init(PollingTransport), LATE_RUN);
    LateStaysQueued(s, run);
  }

  lemma LateRunIs()
    ensures IsRun(Init(PollingTransport), LATE_RUN)
    ensures var s := After(Init(PollingTransport), LATE_RUN);
      s.em.accepted == [7] && s.em.handed == [] && s.em.mode == Exited
  {
    var s0 := Init(PollingTransport);
    var s1 := Next(s0, Emit(EnterSubmit));
    var s2 := Next(s1, CloseStart);
    var r2 := [Emit(StopLoop)] + ([Emit(FinishDrain)] + ([Emit(Submit(7))] + []));
    LateSubmit(s2, 7);
    RunCons(s1, CloseStart, r2, s2);
    RunCons(s0, Emit(EnterSubmit), [CloseStart] + r2, s1);
    assert LATE_RUN == [Emit(EnterSubmit)] + ([CloseStart] + r2);
  }

  /** A submitter past the first check can still add to the queue when the emitter has left. */
  lemma LateSubmit(s: State, p: Pkt)
    requires s.em.done && s.em.mode == Running && s.em.hand.Idle? && s.em.queue == [] && s.em.entering > 0
    ensures var run := [Emit(StopLoop)] + ([Emit(FinishDrain)] + ([Emit(Submit(p))] + []));
      && IsRun(s, run)
      && After(s, run).em
         == s.em.(mode := Exited, queue := [p], accepted := s.em.accepted + [p], entering := s.em.entering - 1)
  {
    var s3 := Next(s, Emit(StopLoop));
    var s4 := Next(s3, Emit(FinishDrain));
    RunCons(s4, Emit(Submit(p)), [], Next(s4, Emit(Submit(p))));
    RunCons(s3, Emit(FinishDrain), [Emit(Submit(p))] + [], s4);
    RunCons(s, Emit(StopLoop), [Emit(FinishDrain)] + ([Emit(Submit(p))] + []), s3);
  }
}
