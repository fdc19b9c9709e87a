/** Outgoing order across an upgrade, when the handover is quiet. */
module EngineOrder {
  import opened Common
  import opened Engine
  import opened EngineLocks
  import opened EngineEmitter

  /** The holder of the barrier is emptying the old connection. */
  predicate Flushing(s: State) {
    && s.barrier.Some? && s.barrier.value < |s.attempts|
    && (s.attempts[s.barrier.value].pc.FlushingOut? || s.attempts[s.barrier.value].pc.Forwarding?)
  }

  /** The queue of the old connection is empty and its packets are being written to the new one. */
  predicate ForwardPhase(s: State) {
    Flushing(s) && s.attempts[s.barrier.value].pc.Forwarding?
  }

  /**
   * A quiet step: no write fails, no poll takes a packet while earlier packets are on the flush
   * list or already on the new connection, no request of a failed attempt takes one at all, and no
   * packet enters the old queue after it was emptied.
   */
  predicate QuietOut(s: State, a: Action) {
    match a
    case Emit(WriteRefused) => false
    case Emit(WriteFail) => false
    case Emit(BeginWrite) => s.current < |s.conns| && (s.conns[s.current].Polling? ==> !s.conns[s.current].closed)
    case Emit(WriteOut) => !ForwardPhase(s)
    case Upgrade(_, Forward(ok)) => ok
    case Client(GetAnswer(_)) => s.written == [] && FlushList(s) == []
    case Client(StrayTake(_)) => false
    case _ => true
  }

  predicate QuietOutRun(s: State, run: seq<Action>)
    requires IsRun(s, run)
    decreases |run|
  {
    run == [] || (QuietOut(s, run[0]) && QuietOutRun(Next(s, run[0]), run[1..]))
  }

  // ---- the line of packets ----

  function FlushList(s: State): seq<Pkt> {
    if Flushing(s) then s.attempts[s.barrier.value].pc.list else []
  }

  function FirstOut(s: State): seq<Pkt> {
    if PollingAt(s, 0) then s.conns[0].out else []
  }

  function EmitterHand(h: Hand): seq<Pkt> {
    if h.Idle? then [] else [h.p]
  }

  function OutLine(a: seq<Pkt>, b: seq<Pkt>, c: seq<Pkt>, d: seq<Pkt>, e: seq<Pkt>, f: seq<Pkt>): seq<Pkt> {
    a + (b + (c + (d + (e + f))))
  }

  /** Answered, written, flushed, queued on the connection, in hand, queued in the emitter. */
  function LineOf(s: State): seq<Pkt> {
    OutLine(s.answered, s.written, FlushList(s), FirstOut(s), EmitterHand(s.em.hand), s.em.queue)
  }

  lemma LineSubmit(a: seq<Pkt>, b: seq<Pkt>, c: seq<Pkt>, d: seq<Pkt>, e: seq<Pkt>, f: seq<Pkt>, p: Pkt)
    ensures OutLine(a, b, c, d, e, f + [p]) == OutLine(a, b, c, d, e, f) + [p]
  {
  }

  lemma LineTake(a: seq<Pkt>, b: seq<Pkt>, c: seq<Pkt>, d: seq<Pkt>, f: seq<Pkt>)
    requires f != []
    ensures OutLine(a, b, c, d, [f[0]], f[1..]) == OutLine(a, b, c, d, [], f)
  {
    assert [f[0]] + f[1..] == [] + f;
  }

  lemma LineWriteOut(a: seq<Pkt>, b: seq<Pkt>, c: seq<Pkt>, d: seq<Pkt>, p: Pkt, f: seq<Pkt>)
    ensures OutLine(a, b, c, d + [p], [], f) == OutLine(a, b, c, d, [p], f)
  {
    assert (d + [p]) + ([] + f) == d + ([p] + f);
  }

  lemma LineWriteWebsocket(a: seq<Pkt>, b: seq<Pkt>, p: Pkt, f: seq<Pkt>)
    ensures OutLine(a, b + [p], [], [], [], f) == OutLine(a, b, [], [], [p], f)
  {
    assert (b + [p]) + ([] + ([] + ([] + f))) == b + ([] + ([] + ([p] + f)));
  }

  lemma LineAnswer(a: seq<Pkt>, d: seq<Pkt>, e: seq<Pkt>, f: seq<Pkt>)
    requires d != []
    ensures OutLine(a + [d[0]], [], [], d[1..], e, f) == OutLine(a, [], [], d, e, f)
  {
    assert (a + [d[0]]) + ([] + ([] + (d[1..] + (e + f)))) == a + ([] + ([] + (d + (e + f))));
  }

  lemma LineFlush(a: seq<Pkt>, b: seq<Pkt>, c: seq<Pkt>, d: seq<Pkt>, e: seq<Pkt>, f: seq<Pkt>)
    requires d != []
    ensures OutLine(a, b, c + [d[0]], d[1..], e, f) == OutLine(a, b, c, d, e, f)
  {
    assert (c + [d[0]]) + (d[1..] + (e + f)) == c + (d + (e + f));
  }

  lemma LineForward(a: seq<Pkt>, b: seq<Pkt>, c: seq<Pkt>, d: seq<Pkt>, e: seq<Pkt>, f: seq<Pkt>)
    requires c != []
    ensures OutLine(a, b + [c[0]], c[1..], d, e, f) == OutLine(a, b, c, d, e, f)
  {
    assert (b + [c[0]]) + (c[1..] + (d + (e + f))) == b + (c + (d + (e + f)));
  }

  // ---- the invariant of quiet runs ----

  /**
   * Every accepted packet is somewhere on the line, in acceptance order; none was refused or
   * swallowed; and none is left behind on a connection that has been emptied.
   */
  ghost predicate OrderInv(s: State) {
    && LineOf(s) == s.em.accepted
    && s.refused == [] && s.swallowed == []
    && (s.current > 0 || ForwardPhase(s) ==> FirstOut(s) == [])
    && (PollingAt(s, 0) && s.current == 0 && !ForwardPhase(s) ==> s.written == [])
  }

  /** A step that moves no outgoing packet and leaves a flush as far as it was. */
  ghost predicate OrderSame(s: State, s': State) {
    && s'.em.accepted == s.em.accepted && s'.em.queue == s.em.queue
    && EmitterHand(s'.em.hand) == EmitterHand(s.em.hand)
    && s'.answered == s.answered && s'.written == s.written
    && s'.refused == s.refused && s'.swallowed == s.swallowed
    && s'.current == s.current && PollingAt(s', 0) == PollingAt(s, 0)
    && FirstOut(s') == FirstOut(s) && FlushList(s') == FlushList(s) && ForwardPhase(s') == ForwardPhase(s)
  }

  lemma SameOrder(s: State, s': State)
    requires OrderInv(s) && OrderSame(s, s')
    ensures OrderInv(s')
  {
  }

  lemma EmitterSame(s: State, a: EmitterAction)
    requires EmitterEnabled(s, a) && QuietOut(s, Emit(a))
    requires !a.Submit? && !a.Take? && !a.WriteOut? && !a.WriteWebsocket?
    ensures OrderSame(s, EmitterNext(s, a))
  {
  }

  lemma SubmitOrder(s: State, a: EmitterAction)
    requires OrderInv(s) && EmitterEnabled(s, a) && (a.Submit? || a.Take?)
    ensures OrderInv(EmitterNext(s, a))
  {
    var e := s.em;
    match a
    case Submit(p) =>
      LineSubmit(s.answered, s.written, FlushList(s), FirstOut(s), EmitterHand(e.hand), e.queue, p);
    case Take => LineTake(s.answered, s.written, FlushList(s), FirstOut(s), e.queue);
  }

  lemma WriteOrder(s: State, a: EmitterAction)
    requires Shape(s) && UsersOk(s) && (Flushing(s) ==> s.current == 0 && PollingAt(s, 0))
    requires OrderInv(s) && EmitterEnabled(s, a) && QuietOut(s, Emit(a)) && (a.WriteOut? || a.WriteWebsocket?)
    ensures OrderInv(EmitterNext(s, a))
  {
    var e := s.em;
    match a
    case WriteOut => LineWriteOut(s.answered, s.written, FlushList(s), FirstOut(s), e.hand.p, e.queue);
    case WriteWebsocket => LineWriteWebsocket(s.answered, s.written, e.hand.p, e.queue);
  }

  /** While the old connection is emptied it is still the session's. */
  lemma FlushingIsFirst(s: State)
    requires LockInv(s) && Flushing(s)
    ensures s.current == 0 && PollingAt(s, 0)
  {
    assert AttemptOk(s, s.barrier.value);
  }

  lemma EmitterOrder(s: State, a: EmitterAction)
    requires LockInv(s) && OrderInv(s) && EmitterEnabled(s, a) && QuietOut(s, Emit(a))
    ensures OrderInv(EmitterNext(s, a))
  {
    if a.Submit? || a.Take? {
      SubmitOrder(s, a);
    } else if a.WriteOut? || a.WriteWebsocket? {
      if Flushing(s) { FlushingIsFirst(s); }
      WriteOrder(s, a);
    } else {
      EmitterSame(s, a);
      SameOrder(s, EmitterNext(s, a));
    }
  }

  lemma PostSame(s: State, c: nat, p: Pkt)
    requires ClientEnabled(s, PostPacket(c, p))
    ensures FirstOut(ClientNext(s, PostPacket(c, p))) == FirstOut(s)
  {
  }

  lemma ClientSame(s: State, a: ClientAction)
    requires ClientEnabled(s, a) && !a.GetAnswer? && !a.StrayTake?
    ensures OrderSame(s, ClientNext(s, a))
  {
    var s' := ClientNext(s, a);
    ClientFrame(s, a);
    if a.PostPacket? { PostSame(s, a.c, a.p); } else { assert s'.conns == s.conns; }
    if s.conns != [] { assert SameFlags(s.conns[0], s'.conns[0]); }
  }

  lemma AnswerOrder(s: State, c: nat)
    requires OthersUnused(s) && OrderInv(s) && ClientEnabled(s, GetAnswer(c)) && QuietOut(s, Client(GetAnswer(c)))
    ensures OrderInv(ClientNext(s, GetAnswer(c)))
  {
    assert c == 0;
    LineAnswer(s.answered, FirstOut(s), EmitterHand(s.em.hand), s.em.queue);
  }

  lemma ClientOrder(s: State, a: ClientAction)
    requires LockInv(s) && OrderInv(s) && ClientEnabled(s, a) && QuietOut(s, Client(a))
    ensures OrderInv(ClientNext(s, a))
  {
    if a.GetAnswer? {
      AnswerOrder(s, a.c);
    } else {
      ClientSame(s, a);
      SameOrder(s, ClientNext(s, a));
    }
  }

  lemma FlushOrder(s: State, k: nat, u: UpgradeAction)
    requires Alone(s, k) && OrderInv(s) && UpgradeEnabled(s, k, u) && QuietOut(s, Upgrade(k, u))
    requires u.FlushOutOne? || u.Forward?
    ensures OrderInv(UpgradeNext(s, k, u))
  {
    var t := s.attempts[k];
    match u
    case FlushOutOne =>
      LineFlush(s.answered, s.written, t.pc.list, FirstOut(s), EmitterHand(s.em.hand), s.em.queue);
    case Forward(_) =>
      LineForward(s.answered, s.written, t.pc.list, FirstOut(s), EmitterHand(s.em.hand), s.em.queue);
  }

  lemma FlushEndOrder(s: State, k: nat, u: UpgradeAction)
    requires Alone(s, k) && OrderInv(s) && UpgradeEnabled(s, k, u)
    requires u.FlushOutEnd? || u.Swap? || u.CloseOld?
    ensures OrderInv(UpgradeNext(s, k, u))
  {
  }

  lemma ProbeSame(s: State, k: nat, u: UpgradeAction)
    requires Alone(s, k) && UpgradeEnabled(s, k, u)
    requires u.Pause? || u.Probe? || u.ProbeFail? || u.Pong? || u.PongFail?
    ensures OrderSame(s, UpgradeNext(s, k, u))
  {
  }

  lemma PauseSame(s: State, k: nat, u: UpgradeAction)
    requires Alone(s, k) && UpgradeEnabled(s, k, u)
    requires u.PauseConn? || u.Confirm? || u.ConfirmFail?
    ensures OrderSame(s, UpgradeNext(s, k, u))
  {
  }

  lemma LeaveSame(s: State, k: nat, u: UpgradeAction)
    requires Alone(s, k) && UpgradeEnabled(s, k, u)
    requires u.HandleInOne? || u.HandleInEnd? || u.Resume?
    ensures OrderSame(s, UpgradeNext(s, k, u))
  {
  }

  lemma FlushInSame(s: State, k: nat, u: UpgradeAction)
    requires Alone(s, k) && UpgradeEnabled(s, k, u)
    requires u.FlushInOne? || u.FlushInEnd?
    ensures OrderSame(s, UpgradeNext(s, k, u))
  {
  }

  lemma UpgradeOrder(s: State, k: nat, u: UpgradeAction)
    requires LockInv(s) && OrderInv(s) && UpgradeEnabled(s, k, u) && QuietOut(s, Upgrade(k, u))
    ensures OrderInv(UpgradeNext(s, k, u))
  {
    HoldsOrFree(s, k, u);
    match u
    case FlushOutOne | Forward(_) => FlushOrder(s, k, u);
    case FlushOutEnd | Swap | CloseOld => FlushEndOrder(s, k, u);
    case _ =>
      RestSame(s, k, u);
      SameOrder(s, UpgradeNext(s, k, u));
  }

  lemma RestSame(s: State, k: nat, u: UpgradeAction)
    requires Alone(s, k) && UpgradeEnabled(s, k, u)
    requires !u.FlushOutOne? && !u.Forward? && !u.FlushOutEnd? && !u.Swap? && !u.CloseOld?
    ensures OrderSame(s, UpgradeNext(s, k, u))
  {
    match u
    case Pause | Probe(_) | ProbeFail | Pong | PongFail => ProbeSame(s, k, u);
    case PauseConn | Confirm(_) | ConfirmFail => PauseSame(s, k, u);
    case FlushInOne | FlushInEnd => FlushInSame(s, k, u);
    case HandleInOne | HandleInEnd | Resume => LeaveSame(s, k, u);
  }

  lemma ReaderSame(s: State, a: ReaderAction)
    requires ReaderEnabled(s, a)
    ensures OrderSame(s, ReaderNext(s, a))
  {
  }

  lemma SessionSame(s: State, a: Action)
    requires Enabled(s, a) && Shape(s) && (a.BeginUpgrade? || a.CloseStart? || a.CloseConn?)
    ensures OrderSame(s, Next(s, a))
  {
  }

  lemma StepOrder(s: State, a: Action)
    requires LockInv(s) && OrderInv(s) && Enabled(s, a) && QuietOut(s, a)
    ensures OrderInv(Next(s, a))
  {
    match a
    case Emit(e) => EmitterOrder(s, e);
    case Client(c) => ClientOrder(s, c);
    case Read(r) =>
      ReaderSame(s, r);
      SameOrder(s, ReaderNext(s, r));
    case Upgrade(k, u) => UpgradeOrder(s, k, u);
    case _ =>
      SessionSame(s, a);
      SameOrder(s, Next(s, a));
  }

  lemma {:induction false} RunOrder(s: State, run: seq<Action>)
    requires LockInv(s) && OrderInv(s) && IsRun(s, run) && QuietOutRun(s, run)
    ensures OrderInv(After(s, run))
    decreases |run|
  {
    if run != [] {
      StepLocks(s, run[0]);
      StepOrder(s, run[0]);
      RunOrder(Next(s, run[0]), run[1..]);
    }
  }

  /**
   * Under a quiet handover, in every run: packets answered on the old transport followed by
   * packets written to the new one are a prefix of the order accepted by submit; none is lost.
   */
  lemma OutboundOrder(t: Transport, run: seq<Action>)
    requires IsRun(Init(t), run) && QuietOutRun(Init(t), run)
    ensures var s := After(Init(t), run);
      && s.answered + s.written <= s.em.accepted
      && LineOf(s) == s.em.accepted
      && s.refused == [] && s.swallowed == []
  {
    InitLocks(t);
    RunOrder(Init(t), run);
    var s := After(Init(t), run);
    var rest := FlushList(s) + (FirstOut(s) + (EmitterHand(s.em.hand) + s.em.queue));
    CatAssoc(s.answered, s.written, rest);
  }

  // ---- quiet is exactly what order needs ----

  predicate NoRepeats(s: seq<Pkt>) {
    forall i, j | 0 <= i < j < |s| :: s[i] != s[j]
  }

  /**
   * What the handover is for: packets answered and then packets written are in acceptance order,
   * none is lost, and none is left on the old connection after the swap.
   */
  ghost predicate GoodOut(s: State) {
    && s.answered + s.written <= s.em.accepted
    && s.refused == [] && s.swallowed == []
    && (s.current > 0 ==> FirstOut(s) == [])
  }

  lemma OrderGood(s: State)
    requires OrderInv(s)
    ensures GoodOut(s)
  {
    var rest := FlushList(s) + (FirstOut(s) + (EmitterHand(s.em.hand) + s.em.queue));
    CatAssoc(s.answered, s.written, rest);
  }

  /** No quiet continuation goes wrong. */
  ghost predicate SafeOut(s: State) {
    forall run | IsRun(s, run) && QuietOutRun(s, run) :: GoodOut(After(s, run))
  }

  lemma UnsafeNow(s: State)
    requires !GoodOut(s)
    ensures !SafeOut(s)
  {
    assert IsRun(s, []) && QuietOutRun(s, []) && After(s, []) == s;
  }

  lemma UnsafeStep(s: State, a: Action, s1: State)
    requires Enabled(s, a) && QuietOut(s, a) && s1 == Next(s, a) && !SafeOut(s1)
    ensures !SafeOut(s)
  {
    var run :| IsRun(s1, run) && QuietOutRun(s1, run) && !GoodOut(After(s1, run));
    var all := [a] + run;
    assert all[1..] == run;
    assert IsRun(s, all) && QuietOutRun(s, all) && After(s, all) == After(s1, run);
  }

  /** A packet answered out of turn. */
  lemma JumpedQueue(a: seq<Pkt>, b: seq<Pkt>, c: seq<Pkt>, d: seq<Pkt>, e: seq<Pkt>, f: seq<Pkt>)
    requires (b != [] || c != []) && d != [] && NoRepeats(OutLine(a, b, c, d, e, f))
    ensures !(a + [d[0]] + b <= OutLine(a, b, c, d, e, f))
  {
    var line := OutLine(a, b, c, d, e, f);
    assert line[|a|] == if b != [] then b[0] else c[0];
    assert line[|a| + |b| + |c|] == d[0];
    assert (a + [d[0]] + b)[|a|] == d[0];
  }

  lemma AnswerOutOfTurn(s: State, c: nat)
    requires OthersUnused(s) && OrderInv(s) && NoRepeats(s.em.accepted)
    requires ClientEnabled(s, GetAnswer(c)) && !QuietOut(s, Client(GetAnswer(c)))
    ensures !GoodOut(ClientNext(s, GetAnswer(c)))
  {
    assert c == 0;
    JumpedQueue(s.answered, s.written, FlushList(s), FirstOut(s), EmitterHand(s.em.hand), s.em.queue);
  }

  /** A packet on the old connection while the packets taken from it are being forwarded. */
  ghost predicate LeftBehind(s: State, k: nat) {
    && k < |s.attempts| && s.attempts[k].pc.Forwarding? && 0 < s.attempts[k].conn < |s.conns|
    && s.current < |s.conns| && !s.em.hand.Selecting? && FirstOut(s) != []
  }

  /** It is still there after the swap. */
  lemma {:induction false} LeftBehindUnsafe(s: State, k: nat)
    requires LeftBehind(s, k)
    ensures !SafeOut(s)
    decreases |s.attempts[k].pc.list|
  {
    if s.attempts[k].pc.list == [] {
      var s1 := Next(s, Upgrade(k, Swap));
      assert s1.current > 0 && FirstOut(s1) == FirstOut(s);
      UnsafeNow(s1);
      UnsafeStep(s, Upgrade(k, Swap), s1);
    } else {
      var s1 := Next(s, Upgrade(k, Forward(true)));
      assert FirstOut(s1) == FirstOut(s);
      LeftBehindUnsafe(s1, k);
      UnsafeStep(s, Upgrade(k, Forward(true)), s1);
    }
  }

  lemma LateWrite(s: State)
    requires LockInv(s) && EmitterEnabled(s, WriteOut) && ForwardPhase(s)
    ensures LeftBehind(EmitterNext(s, WriteOut), s.barrier.value)
  {
    assert AttemptOk(s, s.barrier.value);
  }

  lemma UnquietEmitter(s: State, a: EmitterAction)
    requires LockInv(s) && OrderInv(s) && EmitterEnabled(s, a) && !QuietOut(s, Emit(a))
    ensures !SafeOut(EmitterNext(s, a))
  {
    if a.WriteOut? {
      LateWrite(s);
      LeftBehindUnsafe(EmitterNext(s, a), s.barrier.value);
    } else {
      UnsafeNow(EmitterNext(s, a));
    }
  }

  lemma UnquietClient(s: State, a: ClientAction)
    requires LockInv(s) && OrderInv(s) && NoRepeats(s.em.accepted)
    requires ClientEnabled(s, a) && !QuietOut(s, Client(a))
    ensures !SafeOut(ClientNext(s, a))
  {
    if a.GetAnswer? { AnswerOutOfTurn(s, a.c); }
    UnsafeNow(ClientNext(s, a));
  }

  /**
   * From a state as every quiet run reaches it, a step can lead to a packet being lost, overtaken or
   * left behind if and only if it is not quiet.
   */
  lemma QuietIsExact(s: State, a: Action)
    requires LockInv(s) && OrderInv(s) && NoRepeats(s.em.accepted) && Enabled(s, a)
    ensures SafeOut(Next(s, a)) <==> QuietOut(s, a)
  {
    if QuietOut(s, a) {
      StepOrder(s, a);
      StepLocks(s, a);
      forall run | IsRun(Next(s, a), run) && QuietOutRun(Next(s, a), run)
        ensures GoodOut(After(Next(s, a), run))
      {
        RunOrder(Next(s, a), run);
        OrderGood(After(Next(s, a), run));
      }
    } else {
      match a
      case Emit(e) => UnquietEmitter(s, e);
      case Client(c) => UnquietClient(s, c);
      case Upgrade(k, u) => UnsafeNow(Next(s, a));
    }
  }

  lemma Overtaken(a: seq<Pkt>, b: seq<Pkt>, d: seq<Pkt>, p: Pkt, f: seq<Pkt>)
    requires d != [] && NoRepeats(OutLine(a, b, [], d, [p], f))
    ensures OutLine(a, b + [p], [], d, [], f) != OutLine(a, b, [], d, [p], f)
  {
    var before, after := OutLine(a, b, [], d, [p], f), OutLine(a, b + [p], [], d, [], f);
    var n := |a| + |b|;
    assert before[n] == d[0] && before[n + |d|] == p;
    assert after[n] == p;
  }

  /** Why nothing may be left behind: the next packet written to the new connection overtakes it. */
  lemma LeftBehindOvertaken(s: State)
    requires LockInv(s) && LineOf(s) == s.em.accepted && NoRepeats(s.em.accepted)
    requires s.current > 0 && FirstOut(s) != [] && EmitterEnabled(s, WriteWebsocket)
    ensures LineOf(EmitterNext(s, WriteWebsocket)) != s.em.accepted
  {
    assert s.barrier.Some? ==> AttemptOk(s, s.barrier.value);
    Overtaken(s.answered, s.written, FirstOut(s), s.em.hand.p, s.em.queue);
  }

  /** After the swap no request waits on the old connection. */
  ghost predicate Deserted(s: State) {
    s.current > 0 && PollingAt(s, 0) && 0 !in s.gets && 0 !in s.strays
  }

  lemma DesertedClient(s: State, a: ClientAction)
    requires Shape(s) && Deserted(s) && ClientEnabled(s, a)
    ensures Deserted(ClientNext(s, a)) && FirstOut(ClientNext(s, a)) == FirstOut(s)
  {
  }

  lemma DesertedEmitter(s: State, a: EmitterAction)
    requires UsersOk(s) && Deserted(s) && EmitterEnabled(s, a)
    ensures Deserted(EmitterNext(s, a)) && FirstOut(EmitterNext(s, a)) == FirstOut(s)
  {
  }

  lemma DesertedReader(s: State, a: ReaderAction)
    requires Deserted(s) && ReaderEnabled(s, a)
    ensures Deserted(ReaderNext(s, a)) && FirstOut(ReaderNext(s, a)) == FirstOut(s)
  {
  }

  lemma DesertedSession(s: State, a: Action)
    requires Deserted(s) && Enabled(s, a) && (a.BeginUpgrade? || a.CloseStart? || a.CloseConn?)
    ensures Deserted(Next(s, a)) && FirstOut(Next(s, a)) == FirstOut(s)
  {
  }

  lemma DesertedUpgrade(s: State, k: nat, u: UpgradeAction)
    requires Deserted(s) && UpgradeEnabled(s, k, u) && !HasPaused(s.attempts[k].pc)
    requires s.attempts[k].conn > 0
    ensures Deserted(UpgradeNext(s, k, u)) && FirstOut(UpgradeNext(s, k, u)) == FirstOut(s)
  {
  }

  lemma DesertedStep(s: State, a: Action)
    requires LockInv(s) && Deserted(s) && Enabled(s, a)
    ensures Deserted(Next(s, a)) && FirstOut(Next(s, a)) == FirstOut(s)
  {
    match a
    case Client(c) => DesertedClient(s, c);
    case Emit(e) => DesertedEmitter(s, e);
    case Read(r) => DesertedReader(s, r);
    case Upgrade(k, u) =>
      assert AttemptOk(s, k);
      DesertedUpgrade(s, k, u);
    case _ => DesertedSession(s, a);
  }

  /** ... and unless a request still waits there, nothing ever takes what was left behind. */
  lemma {:induction false} LeftBehindStays(s: State, run: seq<Action>)
    requires LockInv(s) && Deserted(s) && IsRun(s, run)
    ensures FirstOut(After(s, run)) == FirstOut(s)
    decreases |run|
  {
    if run != [] {
      DesertedStep(s, run[0]);
      StepLocks(s, run[0]);
      LeftBehindStays(Next(s, run[0]), run[1..]);
    }
  }

  // ---- the handover the protocol describes ----

  /**
   * The discipline of the protocol: the barrier is taken when no write is in flight, the client
   * has no poll answered once the old connection is closed by the upgrade, no request of a failed
   * attempt takes a packet, no deadline strikes a write, and writes to the new connection succeed.
   */
  predicate Handover(s: State, a: Action) {
    match a
    case Upgrade(_, Pause) => s.em.hand.Idle? || s.em.hand.AtBarrier?
    case Client(GetAnswer(_)) => s.current == 0 && !Flushing(s)
    case Client(StrayTake(_)) => false
    case Emit(WriteFail) => false
    case Upgrade(_, Forward(ok)) => ok
    case _ => true
  }

  /** While an upgrade holds the barrier, the emitter is not past it. */
  ghost predicate HandsOff(s: State) {
    s.barrier.Some? ==> s.em.hand.Idle? || s.em.hand.AtBarrier?
  }

  /** The session's polling connection is closed only by an upgrade that is emptying it, or at the end. */
  ghost predicate ClosedLate(s: State) {
    PollingAt(s, 0) && s.current == 0 && s.conns[0].closed ==> Flushing(s) || s.closing == Finished
  }

  ghost predicate HandoverInv(s: State) {
    LockInv(s) && OrderInv(s) && EmitterInv(s) && HandsOff(s) && ClosedLate(s)
  }

  predicate HandoverRun(s: State, run: seq<Action>)
    requires IsRun(s, run)
    decreases |run|
  {
    run == [] || (Handover(s, run[0]) && HandoverRun(Next(s, run[0]), run[1..]))
  }

  /** Then no write can be refused, because none is in flight while the connection is paused or closed. */
  lemma NoneRefused(s: State, a: EmitterAction)
    requires HandoverInv(s) && EmitterEnabled(s, a) && Handover(s, Emit(a))
    ensures QuietOut(s, Emit(a))
  {
  }

  lemma HandoverQuiet(s: State, a: Action)
    requires HandoverInv(s) && Enabled(s, a) && Handover(s, a)
    ensures QuietOut(s, a)
  {
    if a.Emit? { NoneRefused(s, a.e); }
  }

  lemma HandsOffStep(s: State, a: Action)
    requires HandoverInv(s) && Enabled(s, a) && Handover(s, a)
    ensures HandsOff(Next(s, a))
  {
    if a.Upgrade? {
      assert AttemptOk(s, a.k);
      UpgradeKeepsEmitter(s, a.k, a.u);
    }
  }

  lemma ClosedLateFrame(s: State, s': State)
    requires ClosedLate(s) && Frame(s, s')
    ensures ClosedLate(s')
  {
    if PollingAt(s', 0) { assert SameFlags(s.conns[0], s'.conns[0]); }
  }

  lemma ClosedLateSession(s: State, a: Action)
    requires LockInv(s) && ClosedLate(s) && Enabled(s, a)
    requires a.BeginUpgrade? || a.CloseStart? || a.CloseConn?
    ensures ClosedLate(Next(s, a))
  {
  }

  lemma ClosedLateEarly(s: State, k: nat, u: UpgradeAction)
    requires LockInv(s) && ClosedLate(s) && UpgradeEnabled(s, k, u)
    requires u.Pause? || u.Probe? || u.ProbeFail? || u.Pong? || u.PongFail?
    ensures ClosedLate(UpgradeNext(s, k, u))
  {
    assert AttemptOk(s, k);
    assert s.barrier.Some? ==> AttemptOk(s, s.barrier.value);
  }

  lemma ClosedLateMiddle(s: State, k: nat, u: UpgradeAction)
    requires LockInv(s) && ClosedLate(s) && UpgradeEnabled(s, k, u)
    requires u.PauseConn? || u.Confirm? || u.ConfirmFail? || u.CloseOld?
    ensures ClosedLate(UpgradeNext(s, k, u))
  {
    assert AttemptOk(s, k);
  }

  lemma ClosedLateEnd(s: State, k: nat, u: UpgradeAction)
    requires LockInv(s) && ClosedLate(s) && UpgradeEnabled(s, k, u)
    requires !u.Pause? && !u.Probe? && !u.ProbeFail? && !u.Pong? && !u.PongFail?
    requires !u.PauseConn? && !u.Confirm? && !u.ConfirmFail? && !u.CloseOld?
    ensures ClosedLate(UpgradeNext(s, k, u))
  {
    assert AttemptOk(s, k);
  }

  lemma HandoverStep(s: State, a: Action)
    requires HandoverInv(s) && Enabled(s, a) && Handover(s, a)
    ensures QuietOut(s, a) && HandoverInv(Next(s, a))
  {
    HandoverQuiet(s, a);
    HandsOffStep(s, a);
    StepLocks(s, a);
    StepOrder(s, a);
    StepEmitter(s, a);
    ClosedLateStep(s, a);
  }

  lemma ClosedLateStep(s: State, a: Action)
    requires LockInv(s) && ClosedLate(s) && Enabled(s, a)
    ensures ClosedLate(Next(s, a))
  {
    match a
    case Upgrade(k, u) => ClosedLateUpgrade(s, k, u);
    case Emit(e) =>
      EmitterFrame(s, e);
      ClosedLateFrame(s, EmitterNext(s, e));
    case Client(c) =>
      ClientFrame(s, c);
      ClosedLateFrame(s, ClientNext(s, c));
    case Read(r) =>
      ReaderFrame(s, r);
      ClosedLateFrame(s, ReaderNext(s, r));
    case _ => ClosedLateSession(s, a);
  }

  lemma ClosedLateUpgrade(s: State, k: nat, u: UpgradeAction)
    requires LockInv(s) && ClosedLate(s) && UpgradeEnabled(s, k, u)
    ensures ClosedLate(UpgradeNext(s, k, u))
  {
    match u
    case Pause | Probe(_) | ProbeFail | Pong | PongFail => ClosedLateEarly(s, k, u);
    case PauseConn | Confirm(_) | ConfirmFail | CloseOld => ClosedLateMiddle(s, k, u);
    case _ => ClosedLateEnd(s, k, u);
  }

  /** A run that keeps to the protocol's handover is quiet throughout. */
  lemma {:induction false} HandoverIsQuiet(s: State, run: seq<Action>)
    requires HandoverInv(s) && IsRun(s, run) && HandoverRun(s, run)
    ensures QuietOutRun(s, run)
    decreases |run|
  {
    if run != [] {
      HandoverStep(s, run[0]);
      HandoverIsQuiet(Next(s, run[0]), run[1..]);
    }
  }

  /** So under the protocol's handover nothing is lost, repeated or reordered. */
  lemma HandoverOrder(t: Transport, run: seq<Action>)
    requires IsRun(Init(t), run) && HandoverRun(Init(t), run)
    ensures var s := After(Init(t), run);
      && s.answered + s.written <= s.em.accepted
      && LineOf(s) == s.em.accepted && s.refused == [] && s.swallowed == []
  {
    InitLocks(t);
    HandoverIsQuiet(Init(t), run);
    OutboundOrder(t, run);
  }

  // ---- why quiet matters ----

  /** A packet is on its way into the connection ... */
  const WRITE_BEGINS: seq<Action> :=
    [Emit(EnterSubmit), Emit(Submit(1)), Emit(Take), Emit(PassBarrier), Emit(BeginWrite)]

  /** ... when an upgrade pauses it. */
  const UPGRADE_PAUSES: seq<Action> :=
    [BeginUpgrade(WebsocketTransport), Upgrade(0, Pause), Upgrade(0, Probe(true)), Upgrade(0, Pong),
     Upgrade(0, PauseConn), Emit(WriteRefused)]

  const WRITING: State :=
    State(Emitter(0, [], Selecting(1, 0), Running, false, [1], [], [1]),
          [NewConn(PollingTransport)], 0, PollingTransport, None, [], Looking, Open,
          multiset{}, multiset{}, multiset{}, {}, false, [], [], [], [], [], [])

  lemma WriteBegins()
    ensures IsRun(Init(PollingTransport), WRITE_BEGINS)
    ensures After(Init(PollingTransport), WRITE_BEGINS) == WRITING
  {
    var s0 := Init(PollingTransport);
    var s1 := Next(s0, Emit(EnterSubmit));
    var s2 := Next(s1, Emit(Submit(1)));
    var rest := [Emit(Take)] + ([Emit(PassBarrier)] + ([Emit(BeginWrite)] + []));
    TakesAndBegins(s2);
    RunCons(s1, Emit(Submit(1)), rest, s2);
    RunCons(s0, Emit(EnterSubmit), [Emit(Submit(1))] + rest, s1);
    assert WRITE_BEGINS == [Emit(EnterSubmit)] + ([Emit(Submit(1))] + rest);
  }

  /** The emitter takes the packet from its queue into WritePacket of the open connection. */
  lemma TakesAndBegins(s: State)
    requires s.em.hand.Idle? && s.em.mode == Running && |s.em.queue| == 1 && s.barrier == None && PollingOpen(s)
    ensures var run := [Emit(Take)] + ([Emit(PassBarrier)] + ([Emit(BeginWrite)] + []));
      && IsRun(s, run)
      && After(s, run) == s.(em := s.em.(queue := [], hand := Selecting(s.em.queue[0], s.current),
                                         handed := s.em.handed + s.em.queue))
  {
    var s1 := Next(s, Emit(Take));
    var s2 := Next(s1, Emit(PassBarrier));
    var s3 := Next(s2, Emit(BeginWrite));
    assert s.em.queue == [s.em.queue[0]];
    RunCons(s2, Emit(BeginWrite), [], s3);
    RunCons(s1, Emit(PassBarrier), [Emit(BeginWrite)] + [], s2);
    RunCons(s, Emit(Take), [Emit(PassBarrier)] + ([Emit(BeginWrite)] + []), s1);
  }

  lemma UpgradePauses()
    ensures IsRun(WRITING, UPGRADE_PAUSES)
    ensures After(WRITING, UPGRADE_PAUSES).refused == [1]
  {
    var r2 := [Upgrade(0, Probe(true))] + ([Upgrade(0, Pong)] + [Upgrade(0, PauseConn), Emit(WriteRefused)]);
    var s1 := Next(WRITING, BeginUpgrade(WebsocketTransport));
    var s2 := Next(s1, Upgrade(0, Pause));
    ProbeFirst(s2);
    RunCons(s1, Upgrade(0, Pause), r2, s2);
    RunCons(WRITING, BeginUpgrade(WebsocketTransport), [Upgrade(0, Pause)] + r2, s1);
    assert UPGRADE_PAUSES == [BeginUpgrade(WebsocketTransport)] + ([Upgrade(0, Pause)] + r2);
  }

  lemma ProbeFirst(s: State)
    requires s.attempts == [Attempt(WebsocketTransport, 1, Probing)]
    requires |s.conns| == 2 && s.current == 0 && s.conns[1] == Websocket(false)
    requires s.conns[0].Polling? && !s.conns[0].paused && s.em.hand.Selecting? && s.em.hand.c == 0
    ensures var run := [Upgrade(0, Probe(true))] + ([Upgrade(0, Pong)] + [Upgrade(0, PauseConn), Emit(WriteRefused)]);
      IsRun(s, run) && After(s, run).refused == s.refused + [s.em.hand.p]
  {
    var last := [Upgrade(0, PauseConn), Emit(WriteRefused)];
    var s3 := SetPc(s, 0, Ponging);
    var s4 := SetPc(s3, 0, Pausing);
    ProbeRest(s4);
    RunCons(s3, Upgrade(0, Pong), last, s4);
    RunCons(s, Upgrade(0, Probe(true)), [Upgrade(0, Pong)] + last, s3);
  }

  /** A write in flight when its connection is paused can be refused by the pause, and its packet is then lost. */
  lemma ProbeRest(s: State)
    requires |s.attempts| == 1 && s.attempts[0].pc == Pausing && s.attempts[0].conn == 1
    requires |s.conns| == 2 && s.current == 0 && s.conns[0].Polling? && !s.conns[0].paused
    requires s.em.hand.Selecting? && s.em.hand.c == 0
    ensures IsRun(s, [Upgrade(0, PauseConn), Emit(WriteRefused)])
    ensures After(s, [Upgrade(0, PauseConn), Emit(WriteRefused)]).refused == s.refused + [s.em.hand.p]
  {
    var run := [Upgrade(0, PauseConn), Emit(WriteRefused)];
    var s1 := Next(s, run[0]);
    assert run[1..] == [Emit(WriteRefused)];
    assert IsRun(s1, run[1..]);
  }

  /** Without a quiet handover an accepted packet can be lost. */
  lemma LosesWithoutQuiet()
    ensures IsRun(Init(PollingTransport), WRITE_BEGINS + UPGRADE_PAUSES)
    ensures After(Init(PollingTransport), WRITE_BEGINS + UPGRADE_PAUSES).refused == [1]
  {
    WriteBegins();
    UpgradePauses();
    RunJoin(Init(PollingTransport), WRITE_BEGINS, UPGRADE_PAUSES);
  }

  /** The request of a failed attempt goes on to wait on the polling connection and takes a packet. */
  lemma StraySwallows(s: State, k: nat)
    requires k < |s.attempts| && s.attempts[k].pc.Returned? && k !in s.served && PollingOpen(s)
    requires s.conns[s.current].out != []
    ensures var run := [Client(StartStray(k))] + ([Client(StrayTake(s.current))] + []);
      && IsRun(s, run) && After(s, run).swallowed == s.swallowed + [s.conns[s.current].out[0]]
      && !QuietOut(Next(s, Client(StartStray(k))), Client(StrayTake(s.current)))
  {
    var s1 := Next(s, Client(StartStray(k)));
    var s2 := Next(s1, Client(StrayTake(s.current)));
    RunCons(s1, Client(StrayTake(s.current)), [], s2);
    RunCons(s, Client(StartStray(k)), [Client(StrayTake(s.current))] + [], s1);
  }

  /** The packet reaches the queue, and a probe fails. */
  const PROBE_FAILS: seq<Action> :=
    [Emit(WriteOut), BeginUpgrade(WebsocketTransport), Upgrade(0, Pause), Upgrade(0, ProbeFail), Upgrade(0, Resume)]

  lemma ProbeFails()
    ensures IsRun(WRITING, PROBE_FAILS)
    ensures var s := After(WRITING, PROBE_FAILS);
      && |s.attempts| == 1 && s.attempts[0].pc.Returned? && s.served == {} && PollingOpen(s)
      && s.current == 0 && s.conns[0].out == [1] && s.swallowed == []
  {
    var s1 := Next(WRITING, Emit(WriteOut));
    var s2 := Next(s1, BeginUpgrade(WebsocketTransport));
    var rest := [Upgrade(0, Pause)] + ([Upgrade(0, ProbeFail)] + ([Upgrade(0, Resume)] + []));
    FailedAttempt(s2);
    RunCons(s1, BeginUpgrade(WebsocketTransport), rest, s2);
    RunCons(WRITING, Emit(WriteOut), [BeginUpgrade(WebsocketTransport)] + rest, s1);
    assert PROBE_FAILS == [Emit(WriteOut)] + ([BeginUpgrade(WebsocketTransport)] + rest);
  }

  lemma FailedAttempt(s: State)
    requires s.attempts == [Attempt(WebsocketTransport, 1, Pc.Waiting)] && s.barrier == None
    requires |s.conns| == 2 && s.current == 0
    ensures var run := [Upgrade(0, Pause)] + ([Upgrade(0, ProbeFail)] + ([Upgrade(0, Resume)] + []));
      && IsRun(s, run)
      && After(s, run) == s.(conns := [s.conns[0], Closed(s.conns[1])],
                             attempts := [Attempt(WebsocketTransport, 1, Returned(false))])
  {
    var closed := s.(conns := [s.conns[0], Closed(s.conns[1])]);
    var s1 := At(s.(barrier := Some(0)), Probing);
    var s2 := At(closed.(barrier := Some(0)), Leaving(false));
    var s3 := At(closed, Returned(false));
    FailSteps(s);
    RunCons(s2, Upgrade(0, Resume), [], s3);
    RunCons(s1, Upgrade(0, ProbeFail), [Upgrade(0, Resume)] + [], s2);
    RunCons(s, Upgrade(0, Pause), [Upgrade(0, ProbeFail)] + ([Upgrade(0, Resume)] + []), s1);
  }

  /** A session whose only upgrade attempt is at `pc`. */
  function At(s: State, pc: Pc): State {
    s.(attempts := [Attempt(WebsocketTransport, 1, pc)])
  }

  lemma FailSteps(s: State)
    requires s == At(s, Pc.Waiting) && s.barrier == None && |s.conns| == 2 && s.current == 0
    ensures Enabled(s, Upgrade(0, Pause)) && Next(s, Upgrade(0, Pause)) == At(s.(barrier := Some(0)), Probing)
    ensures var held, closed := s.(barrier := Some(0)), s.(conns := [s.conns[0], Closed(s.conns[1])]);
      && Enabled(At(held, Probing), Upgrade(0, ProbeFail))
      && Next(At(held, Probing), Upgrade(0, ProbeFail)) == At(closed.(barrier := Some(0)), Leaving(false))
      && Enabled(At(closed.(barrier := Some(0)), Leaving(false)), Upgrade(0, Resume))
      && Next(At(closed.(barrier := Some(0)), Leaving(false)), Upgrade(0, Resume)) == At(closed, Returned(false))
  {
  }

  /** A run in which a failed attempt costs the session a packet. */
  lemma FailedAttemptLoses()
    ensures var run := WRITE_BEGINS + (PROBE_FAILS + [Client(StartStray(0)), Client(StrayTake(0))]);
      IsRun(Init(PollingTransport), run) && After(Init(PollingTransport), run).swallowed == [1]
  {
    WriteBegins();
    ProbeFails();
    StraySwallows(After(WRITING, PROBE_FAILS), 0);
    var last := [Client(StartStray(0)), Client(StrayTake(0))];
    assert last == [Client(StartStray(0))] + ([Client(StrayTake(0))] + []);
    RunJoin(WRITING, PROBE_FAILS, last);
    RunJoin(Init(PollingTransport), WRITE_BEGINS, PROBE_FAILS + last);
  }
}
