/** What Socket.Close leaves: the connection it closes stays closed and serves nobody any more. */
module EngineClose {
  import opened Common
  import opened Engine
  import opened EngineLocks
  import I = EngineInbound

  /** A connection of the session that has been closed. */
  predicate IsClosed(s: State, c: nat) {
    c < |s.conns| && s.conns[c].closed
  }

  lemma SetConnKeepsClosed(s: State, i: nat, d: Conn, c: nat)
    requires IsClosed(s, c) && i < |s.conns| && (s.conns[i].closed ==> d.closed)
    ensures IsClosed(SetConn(s, i, d), c)
  {
  }

  lemma AbandonKeepsClosed(s: State, k: nat, c: nat)
    requires IsClosed(s, c) && k < |s.attempts| && s.attempts[k].conn < |s.conns|
    ensures IsClosed(Abandon(s, k), c)
  {
    var n := s.attempts[k].conn;
    SetConnKeepsClosed(s, n, Closed(s.conns[n]), c);
  }

  lemma UpgradeKeepsClosed(s: State, k: nat, u: UpgradeAction, c: nat)
    requires IsClosed(s, c) && UpgradeEnabled(s, k, u)
    ensures IsClosed(UpgradeNext(s, k, u), c)
  {
    var t := s.attempts[k];
    match u
    case Probe(false) | ProbeFail | PongFail => AbandonKeepsClosed(s, k, c);
    case PauseConn =>
      var d := s.conns[s.current];
      if d.Websocket? { AbandonKeepsClosed(s, k, c); } else { SetConnKeepsClosed(s, s.current, d.(paused := true), c); }
    case Confirm(false) | ConfirmFail =>
      var d := s.conns[t.pc.prev].(paused := false);
      SetConnKeepsClosed(s, t.pc.prev, d, c);
      AbandonKeepsClosed(SetConn(s, t.pc.prev, d), k, c);
    case CloseOld => SetConnKeepsClosed(s, t.pc.prev, Closed(s.conns[t.pc.prev]), c);
    case FlushOutOne => SetConnKeepsClosed(s, t.pc.prev, Dequeued(s.conns[t.pc.prev]), c);
    case FlushInOne =>
      var d := s.conns[t.pc.prev];
      SetConnKeepsClosed(s, t.pc.prev, d.(inq := d.inq[1..]), c);
    case _ =>
  }

  lemma FrameKeepsClosed(s: State, s': State, c: nat)
    requires IsClosed(s, c) && Frame(s, s')
    ensures IsClosed(s', c)
  {
    assert SameFlags(s.conns[c], s'.conns[c]);
  }

  /** No step of any actor opens a closed connection. */
  lemma StepKeepsClosed(s: State, a: Action, c: nat)
    requires IsClosed(s, c) && Enabled(s, a)
    ensures IsClosed(Next(s, a), c)
  {
    match a
    case Emit(e) =>
      EmitterFrame(s, e);
      FrameKeepsClosed(s, Next(s, a), c);
    case Client(e) =>
      ClientFrame(s, e);
      FrameKeepsClosed(s, Next(s, a), c);
    case Read(e) =>
      ReaderFrame(s, e);
      FrameKeepsClosed(s, Next(s, a), c);
    case Upgrade(k, u) => UpgradeKeepsClosed(s, k, u, c);
    case _ =>
  }

  lemma {:induction false} RunKeepsClosed(s: State, run: seq<Action>, c: nat)
    requires IsClosed(s, c) && IsRun(s, run)
    ensures IsClosed(After(s, run), c)
    decreases |run|
  {
    if run != [] {
      StepKeepsClosed(s, run[0], c);
      RunKeepsClosed(Next(s, run[0]), run[1..], c);
    }
  }

  /** Nobody can begin anything on the session's connection, and what has begun comes to nothing. */
  ghost predicate Refuses(s: State) {
    && s.current < |s.conns|
    && (s.conns[s.current].Polling? ==>
          && !Enabled(s, Client(StartGet)) && !Enabled(s, Client(StartPost)) && !Enabled(s, Read(Load))
          && (forall k :: !Enabled(s, Client(StartStray(k))))
          && (Enabled(s, Emit(BeginWrite)) ==>
                EmitterNext(s, BeginWrite).em.hand == Idle
                && EmitterNext(s, BeginWrite).refused == s.refused + [s.em.hand.p]))
    && (s.conns[s.current].Websocket? ==>
          && (s.em.hand.Selecting? && s.em.hand.c == s.current ==> !Enabled(s, Emit(WriteWebsocket)))
          && (s.reader == Reading(s.current) ==> forall p :: !Enabled(s, Read(ReadWebsocket(p)))))
  }

  lemma ClosedRefuses(s: State)
    requires IsClosed(s, s.current)
    ensures Refuses(s)
  {
  }

  /** How often an upgrade swaps its connection in along a run. */
  function Swaps(run: seq<Action>): nat {
    if run == [] then 0 else (if run[0].Upgrade? && run[0].u.Swap? then 1 else 0) + Swaps(run[1..])
  }

  // ---- without a swap ----

  lemma StepKeepsCurrent(s: State, a: Action)
    requires Enabled(s, a) && !(a.Upgrade? && a.u.Swap?)
    ensures Next(s, a).current == s.current
  {
  }

  lemma {:induction false} RunKeepsCurrent(s: State, run: seq<Action>)
    requires IsRun(s, run) && Swaps(run) == 0
    ensures After(s, run).current == s.current
    decreases |run|
  {
    if run != [] {
      StepKeepsCurrent(s, run[0]);
      RunKeepsCurrent(Next(s, run[0]), run[1..]);
    }
  }

  // ---- after a swap ----

  /** The session has been upgraded and its new connection is open, with Socket.Close behind it. */
  ghost predicate OpenForGood(s: State) {
    LockInv(s) && s.closing == Finished && s.current > 0 && !s.conns[s.current].closed
  }

  lemma SwapLeavesOpen(s: State, k: nat)
    requires LockInv(s) && s.closing == Finished && UpgradeEnabled(s, k, Swap)
    ensures OpenForGood(UpgradeNext(s, k, Swap))
  {
    assert AttemptOk(s, k);
    UpgradeLocks(s, k, Swap);
  }

  lemma UpgradeLeavesOpen(s: State, k: nat, u: UpgradeAction)
    requires OpenForGood(s) && UpgradeEnabled(s, k, u)
    ensures OpenForGood(UpgradeNext(s, k, u))
  {
    HoldsOrFree(s, k, u);
    OpenAfterUpgrade(s, k, u);
    UpgradeLocks(s, k, u);
  }

  lemma OpenAfterUpgrade(s: State, k: nat, u: UpgradeAction)
    requires Alone(s, k) && s.current > 0 && !s.conns[s.current].closed && UpgradeEnabled(s, k, u)
    ensures var s' := UpgradeNext(s, k, u);
      s'.closing == s.closing && s'.current == s.current && s.current < |s'.conns| && !s'.conns[s.current].closed
  {
  }

  lemma StepLeavesOpen(s: State, a: Action)
    requires OpenForGood(s) && Enabled(s, a)
    ensures OpenForGood(Next(s, a))
  {
    StepLocks(s, a);
    match a
    case Emit(e) =>
      EmitterFrame(s, e);
      assert SameFlags(s.conns[s.current], Next(s, a).conns[s.current]);
    case Client(e) =>
      ClientFrame(s, e);
      assert SameFlags(s.conns[s.current], Next(s, a).conns[s.current]);
    case Read(e) =>
      ReaderFrame(s, e);
      assert SameFlags(s.conns[s.current], Next(s, a).conns[s.current]);
    case Upgrade(k, u) => UpgradeLeavesOpen(s, k, u);
    case _ =>
  }

  lemma {:induction false} RunLeavesOpen(s: State, run: seq<Action>)
    requires OpenForGood(s) && IsRun(s, run)
    ensures OpenForGood(After(s, run))
    decreases |run|
  {
    if run != [] {
      StepLeavesOpen(s, run[0]);
      RunLeavesOpen(Next(s, run[0]), run[1..]);
    }
  }

  // ---- after Socket.Close ----

  lemma CloseStepFinished(s: State, a: Action)
    requires s.closing == Finished && Enabled(s, a)
    ensures Next(s, a).closing == Finished
  {
    if a.Upgrade? { assert UpgradeNext(s, a.k, a.u).closing == s.closing; }
  }

  lemma {:induction false} ClosedRun(s: State, run: seq<Action>)
    requires LockInv(s) && s.closing == Finished && IsClosed(s, s.current) && IsRun(s, run)
    ensures var s' := After(s, run);
      s'.current < |s'.conns| && (s'.conns[s'.current].closed <==> Swaps(run) == 0)
    decreases |run|
  {
    if run != [] {
      var s1 := Next(s, run[0]);
      if run[0].Upgrade? && run[0].u.Swap? {
        SwapLeavesOpen(s, run[0].k);
        RunLeavesOpen(s1, run[1..]);
      } else {
        StepLocks(s, run[0]);
        CloseStepFinished(s, run[0]);
        StepKeepsClosed(s, run[0], s.current);
        StepKeepsCurrent(s, run[0]);
        ClosedRun(s1, run[1..]);
      }
    }
  }

  /**
   * After Socket.Close, in every continuation: the connection it closed stays closed; as long as it
   * is the session's, nobody is served on it; and the session's connection is closed exactly until
   * an upgrade swaps another one in, which then nothing closes.
   */
  lemma CloseCloses(t: Transport, before: seq<Action>, after: seq<Action>)
    requires IsRun(Init(t), before) && Enabled(After(Init(t), before), CloseConn)
    requires IsRun(Next(After(Init(t), before), CloseConn), after)
    ensures var c := After(Init(t), before).current;
      var s := After(Next(After(Init(t), before), CloseConn), after);
      && IsClosed(s, c)
      && (s.current == c ==> Refuses(s))
      && s.current < |s.conns| && (s.conns[s.current].closed <==> Swaps(after) == 0)
  {
    var s := After(Init(t), before);
    var s1 := Next(s, CloseConn);
    InitLocks(t);
    RunLocks(Init(t), before);
    StepLocks(s, CloseConn);
    RunKeepsClosed(s1, after, s.current);
    ClosedRun(s1, after);
    if After(s1, after).current == s.current { ClosedRefuses(After(s1, after)); }
  }

  // ---- an upgrade after the close ----

  const CLOSES: seq<Action> := [CloseStart] + ([Emit(StopLoop)] + ([Emit(FinishDrain)] + ([CloseConn] + [])))

  lemma Closes(s: State)
    requires s == Init(PollingTransport)
    ensures IsRun(s, CLOSES)
    ensures After(s, CLOSES) == s.(em := s.em.(done := true, mode := Exited), closing := Finished,
                                   conns := [Closed(s.conns[0])])
  {
    var s1 := Stopping(s, Running);
    var s2 := Stopping(s, Draining);
    var s3 := Stopping(s, Exited);
    var s4 := s3.(closing := Finished, conns := [Closed(s.conns[0])]);
    CloseSteps(s);
    RunCons(s3, CloseConn, [], s4);
    RunCons(s2, Emit(FinishDrain), [CloseConn] + [], s3);
    RunCons(s1, Emit(StopLoop), [Emit(FinishDrain)] + ([CloseConn] + []), s2);
    RunCons(s, CloseStart, [Emit(StopLoop)] + ([Emit(FinishDrain)] + ([CloseConn] + [])), s1);
  }

  /** A session whose close waits for the emitter. */
  function Stopping(s: State, mode: Mode): State {
    s.(em := s.em.(done := true, mode := mode), closing := WaitingForEmitter)
  }

  lemma CloseSteps(s: State)
    requires s == Init(PollingTransport)
    ensures Enabled(s, CloseStart) && Next(s, CloseStart) == Stopping(s, Running)
    ensures Enabled(Stopping(s, Running), Emit(StopLoop))
         && Next(Stopping(s, Running), Emit(StopLoop)) == Stopping(s, Draining)
    ensures Enabled(Stopping(s, Draining), Emit(FinishDrain))
         && Next(Stopping(s, Draining), Emit(FinishDrain)) == Stopping(s, Exited)
    ensures Enabled(Stopping(s, Exited), CloseConn)
         && Next(Stopping(s, Exited), CloseConn)
         == Stopping(s, Exited).(closing := Finished, conns := [Closed(s.conns[0])])
  {
  }

  /** A run in which an upgrade goes through after the close and leaves the session open. */
  lemma UpgradeAfterClose()
    ensures var run := CLOSES + (I.PROBE + (I.CLOSE + I.SWAP));
      && IsRun(Init(PollingTransport), run)
      && After(Init(PollingTransport), run).closing == Finished
      && After(Init(PollingTransport), run).current == 1
      && |After(Init(PollingTransport), run).conns| == 2
      && After(Init(PollingTransport), run).conns[1] == Websocket(false)
  {
    var s0 := Init(PollingTransport);
    Closes(s0);
    var s1 := After(s0, CLOSES);
    I.Probes(s1);
    var s2 := After(s1, I.PROBE);
    I.ClosesOld(s2);
    var s3 := After(s2, I.CLOSE);
    I.Swaps(s3);
    RunJoin(s2, I.CLOSE, I.SWAP);
    RunJoin(s1, I.PROBE, I.CLOSE + I.SWAP);
    RunJoin(s0, CLOSES, I.PROBE + (I.CLOSE + I.SWAP));
  }
}
