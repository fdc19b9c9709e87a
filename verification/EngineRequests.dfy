/** Bookkeeping over whole runs: requests, submissions, the steps of an upgrade, the read loop, queue sizes. */
module EngineRequests {
  import opened Common
  import opened Engine
  import opened EngineLocks

  function Count(run: seq<Action>, f: Action -> bool): nat {
    if run == [] then 0 else (if f(run[0]) then 1 else 0) + Count(run[1..], f)
  }

  // ---- requests ----

  predicate BeginsGet(a: Action) {
    a == Client(StartGet)
  }

  predicate EndsGet(a: Action) {
    a.Client? && (a.c.GetAnswer? || a.c.GetNoop? || a.c.GetEnd?)
  }

  predicate BeginsPost(a: Action) {
    a == Client(StartPost)
  }

  predicate EndsPost(a: Action) {
    a.Client? && a.c.PostEnd?
  }

  predicate BeginsStray(a: Action) {
    a.Client? && a.c.StartStray?
  }

  predicate EndsStray(a: Action) {
    a.Client? && (a.c.StrayTake? || a.c.StrayEnd?)
  }

  function One(b: bool): nat {
    if b then 1 else 0
  }

  lemma UpgradeKeepsRequests(s: State, k: nat, u: UpgradeAction)
    requires UpgradeEnabled(s, k, u)
    ensures var s' := UpgradeNext(s, k, u);
      s'.gets == s.gets && s'.posts == s.posts && s'.strays == s.strays && s'.served == s.served && s'.em == s.em
  {
  }

  /** Only the steps of requests change which requests wait. */
  lemma OthersKeepRequests(s: State, a: Action)
    requires Enabled(s, a) && !a.Client?
    ensures var s' := Next(s, a);
      s'.gets == s.gets && s'.posts == s.posts && s'.strays == s.strays && s'.served == s.served
  {
    if a.Upgrade? { UpgradeKeepsRequests(s, a.k, a.u); }
  }

  lemma ClientGets(s: State, a: ClientAction)
    requires ClientEnabled(s, a)
    ensures |ClientNext(s, a).gets| + One(EndsGet(Client(a))) == |s.gets| + One(BeginsGet(Client(a)))
  {
  }

  lemma ClientPosts(s: State, a: ClientAction)
    requires ClientEnabled(s, a)
    ensures |ClientNext(s, a).posts| + One(EndsPost(Client(a))) == |s.posts| + One(BeginsPost(Client(a)))
  {
  }

  lemma ClientStrays(s: State, a: ClientAction)
    requires ClientEnabled(s, a)
    ensures |ClientNext(s, a).strays| + One(EndsStray(Client(a))) == |s.strays| + One(BeginsStray(Client(a)))
  {
  }

  lemma StepRequests(s: State, a: Action)
    requires Enabled(s, a)
    ensures |Next(s, a).gets| + One(EndsGet(a)) == |s.gets| + One(BeginsGet(a))
    ensures |Next(s, a).posts| + One(EndsPost(a)) == |s.posts| + One(BeginsPost(a))
    ensures |Next(s, a).strays| + One(EndsStray(a)) == |s.strays| + One(BeginsStray(a))
  {
    if a.Client? {
      ClientGets(s, a.c);
      ClientPosts(s, a.c);
      ClientStrays(s, a.c);
    } else {
      OthersKeepRequests(s, a);
    }
  }

  /** Every request that has begun is waiting or has been answered once; nothing answers it twice. */
  lemma {:induction false} RequestsAccounted(s: State, run: seq<Action>)
    requires IsRun(s, run)
    ensures |After(s, run).gets| + Count(run, EndsGet) == |s.gets| + Count(run, BeginsGet)
    ensures |After(s, run).posts| + Count(run, EndsPost) == |s.posts| + Count(run, BeginsPost)
    ensures |After(s, run).strays| + Count(run, EndsStray) == |s.strays| + Count(run, BeginsStray)
    decreases |run|
  {
    if run != [] {
      StepRequests(s, run[0]);
      RequestsAccounted(Next(s, run[0]), run[1..]);
    }
  }

  lemma ServedGrows(s: State, a: Action, k: nat)
    requires Enabled(s, a)
    ensures k in Next(s, a).served <==> k in s.served || a == Client(StartStray(k))
    ensures a == Client(StartStray(k)) ==> k !in s.served
  {
    if !a.Client? { OthersKeepRequests(s, a); }
  }

  /** The request of an attempt goes on to the session's connection at most once. */
  lemma {:induction false} StrayOnce(s: State, run: seq<Action>, k: nat)
    requires IsRun(s, run)
    ensures Count(run, a => a == Client(StartStray(k))) == One(k in After(s, run).served && k !in s.served)
    ensures k in s.served ==> k in After(s, run).served
    decreases |run|
  {
    if run != [] {
      ServedGrows(s, run[0], k);
      StrayOnce(Next(s, run[0]), run[1..], k);
    }
  }

  /** A poll that waits can be answered: with the first packet there is, or with a noop when paused. */
  lemma PollIsServed(s: State, c: nat)
    requires c in s.gets && c < |s.conns| && s.conns[c].Polling?
    ensures s.conns[c].out != [] ==>
      Enabled(s, Client(GetAnswer(c))) && Next(s, Client(GetAnswer(c))).answered == s.answered + [s.conns[c].out[0]]
    ensures s.conns[c].paused ==> Enabled(s, Client(GetNoop(c))) && Next(s, Client(GetNoop(c))).answered == s.answered
    ensures Enabled(s, Client(GetEnd(c))) && Next(s, Client(GetEnd(c))).answered == s.answered
  {
  }

  /** Any request that waits can be cancelled. */
  lemma RequestsCanEnd(s: State, c: nat)
    ensures c in s.posts ==> Enabled(s, Client(PostEnd(c))) && Next(s, Client(PostEnd(c))).posted == s.posted
    ensures c in s.strays ==> Enabled(s, Client(StrayEnd(c))) && Next(s, Client(StrayEnd(c))).swallowed == s.swallowed
  {
  }

  // ---- submissions ----

  predicate Enters(a: Action) {
    a == Emit(EnterSubmit)
  }

  predicate GivesUp(a: Action) {
    a == Emit(GiveUp)
  }

  lemma StepSubmissions(s: State, a: Action)
    requires Enabled(s, a)
    ensures Next(s, a).em.entering + |Next(s, a).em.accepted| + One(GivesUp(a))
         == s.em.entering + |s.em.accepted| + One(Enters(a))
    ensures GivesUp(a) || Enters(a) ==> s.em.done == GivesUp(a)
    ensures s.em.done ==> Next(s, a).em.done
  {
    if a.Upgrade? { UpgradeKeepsRequests(s, a.k, a.u); }
  }

  /** Every call of submit is accepted, refused, or still waits; none is refused before done is closed. */
  lemma {:induction false} SubmissionsAccounted(s: State, run: seq<Action>)
    requires IsRun(s, run)
    ensures After(s, run).em.entering + |After(s, run).em.accepted| + Count(run, GivesUp)
         == s.em.entering + |s.em.accepted| + Count(run, Enters)
    ensures !After(s, run).em.done ==> Count(run, GivesUp) == 0
    ensures s.em.done ==> After(s, run).em.done && Count(run, Enters) == 0
    decreases |run|
  {
    if run != [] {
      StepSubmissions(s, run[0]);
      SubmissionsAccounted(Next(s, run[0]), run[1..]);
    }
  }

  // ---- the emitter can always finish ----

  lemma RunOne(s: State, a: Action, s1: State, rest: seq<Action>)
    requires Enabled(s, a) && Next(s, a) == s1 && IsRun(s1, rest)
    ensures IsRun(s, [a] + rest) && After(s, [a] + rest) == After(s1, rest)
  {
    RunCons(s, a, rest, s1);
  }

  /** The emitter is draining, with nothing in hand and the barrier free. */
  predicate Drains(s: State) {
    s.em.mode == Draining && s.em.hand.Idle? && s.barrier == None && s.current < |s.conns|
  }

  /** One packet from the queue to WritePacket, whatever becomes of it there. */
  lemma DrainOne(s: State) returns (run: seq<Action>)
    requires Drains(s) && s.em.queue != []
    ensures IsRun(s, run) && Drains(After(s, run))
    ensures After(s, run).em.queue == s.em.queue[1..] && After(s, run).em.handed == s.em.handed + [s.em.queue[0]]
  {
    var p, rest := s.em.queue[0], s.em.queue[1..];
    var s1 := s.(em := s.em.(queue := rest, hand := AtBarrier(p)));
    var s2 := s.(em := s.em.(queue := rest, hand := PastBarrier(p)));
    run := WriteOne(s2, p);
    RunOne(s1, Emit(PassBarrier), s2, run);
    RunOne(s, Emit(Take), s1, [Emit(PassBarrier)] + run);
    run := [Emit(Take)] + ([Emit(PassBarrier)] + run);
  }

  lemma WriteOne(s: State, p: Pkt) returns (run: seq<Action>)
    requires s.em.hand == PastBarrier(p) && s.current < |s.conns|
    ensures IsRun(s, run)
    ensures After(s, run) == s.(em := s.em.(hand := Idle, handed := s.em.handed + [p]), refused := s.refused + [p])
  {
    var s1 := Next(s, Emit(BeginWrite));
    if s1.em.hand.Idle? {
      run := [];
    } else {
      run := [Emit(WriteFail)] + [];
      RunOne(s1, Emit(WriteFail), Next(s1, Emit(WriteFail)), []);
    }
    RunOne(s, Emit(BeginWrite), s1, run);
    run := [Emit(BeginWrite)] + run;
  }

  /** However many packets are left, the emitter can hand over all of them and return. */
  lemma {:induction false} CanFinish(s: State) returns (run: seq<Action>)
    requires Drains(s)
    ensures IsRun(s, run) && After(s, run).em.mode == Exited && After(s, run).em.queue == []
    ensures After(s, run).em.handed == s.em.handed + s.em.queue
    decreases |s.em.queue|
  {
    if s.em.queue == [] {
      var s1 := Next(s, Emit(FinishDrain));
      run := [Emit(FinishDrain)] + [];
      RunOne(s, Emit(FinishDrain), s1, []);
    } else {
      var first := DrainOne(s);
      var mid := After(s, first);
      var more := CanFinish(mid);
      RunJoin(s, first, more);
      run := first + more;
      SameLine(s.em.handed, s.em.queue);
    }
  }

  lemma SameLine(handed: seq<Pkt>, queue: seq<Pkt>)
    requires queue != []
    ensures handed + [queue[0]] + queue[1..] == handed + queue
  {
    CatAssoc(handed, [queue[0]], queue[1..]);
    assert [queue[0]] + queue[1..] == queue;
  }

  // ---- queue sizes ----

  /** No queue of the connection holds more than eight packets. */
  predicate BoundedConn(c: Conn) {
    c.Polling? ==> |c.out| <= 8 && |c.inq| <= 8
  }

  ghost predicate AllBounded(conns: seq<Conn>) {
    forall i | 0 <= i < |conns| :: BoundedConn(conns[i])
  }

  ghost predicate Bounded(s: State) {
    |s.em.queue| <= 8 && AllBounded(s.conns)
  }

  lemma SetBounded(conns: seq<Conn>, i: nat, c: Conn)
    requires AllBounded(conns) && i < |conns| && BoundedConn(c)
    ensures AllBounded(conns[i := c])
  {
  }

  lemma AbandonBounded(s: State, k: nat)
    requires Bounded(s) && k < |s.attempts| && s.attempts[k].conn < |s.conns|
    ensures Bounded(Abandon(s, k))
  {
    var n := s.attempts[k].conn;
    SetBounded(s.conns, n, Closed(s.conns[n]));
  }

  lemma UpgradeBounded(s: State, k: nat, u: UpgradeAction)
    requires Bounded(s) && UpgradeEnabled(s, k, u)
    ensures Bounded(UpgradeNext(s, k, u))
  {
    var t := s.attempts[k];
    match u
    case Probe(false) | ProbeFail | PongFail => AbandonBounded(s, k);
    case PauseConn =>
      var c := s.conns[s.current];
      if c.Websocket? { AbandonBounded(s, k); } else { SetBounded(s.conns, s.current, c.(paused := true)); }
    case Confirm(false) | ConfirmFail =>
      var c := s.conns[t.pc.prev];
      SetBounded(s.conns, t.pc.prev, c.(paused := false));
      AbandonBounded(SetConn(s, t.pc.prev, c.(paused := false)), k);
    case CloseOld => SetBounded(s.conns, t.pc.prev, Closed(s.conns[t.pc.prev]));
    case FlushOutOne => SetBounded(s.conns, t.pc.prev, Dequeued(s.conns[t.pc.prev]));
    case FlushInOne =>
      var c := s.conns[t.pc.prev];
      SetBounded(s.conns, t.pc.prev, c.(inq := c.inq[1..]));
    case _ =>
  }

  lemma EmitterBounded(s: State, a: EmitterAction)
    requires Bounded(s) && EmitterEnabled(s, a)
    ensures Bounded(EmitterNext(s, a))
  {
    if a.WriteOut? { SetBounded(s.conns, s.em.hand.c, EmitterNext(s, a).conns[s.em.hand.c]); }
  }

  lemma ClientBounded(s: State, a: ClientAction)
    requires Bounded(s) && ClientEnabled(s, a)
    ensures Bounded(ClientNext(s, a))
  {
    match a
    case GetAnswer(c) => SetBounded(s.conns, c, Dequeued(s.conns[c]));
    case StrayTake(c) => SetBounded(s.conns, c, Dequeued(s.conns[c]));
    case PostPacket(c, p) => SetBounded(s.conns, c, s.conns[c].(inq := s.conns[c].inq + [p]));
    case _ =>
  }

  lemma ReaderBounded(s: State, a: ReaderAction)
    requires Bounded(s) && ReaderEnabled(s, a)
    ensures Bounded(ReaderNext(s, a))
  {
    if a.ReadPolling? {
      var c := s.conns[s.reader.c];
      SetBounded(s.conns, s.reader.c, c.(inq := c.inq[1..]));
    }
  }

  lemma SessionBounded(s: State, a: Action)
    requires Bounded(s) && Enabled(s, a) && (a.BeginUpgrade? || a.CloseStart? || a.CloseConn?)
    ensures Bounded(Next(s, a))
  {
    if a.CloseConn? { SetBounded(s.conns, s.current, Closed(s.conns[s.current])); }
  }

  lemma StepBounded(s: State, a: Action)
    requires Bounded(s) && Enabled(s, a)
    ensures Bounded(Next(s, a))
  {
    match a
    case Emit(e) => EmitterBounded(s, e);
    case Client(c) => ClientBounded(s, c);
    case Read(r) => ReaderBounded(s, r);
    case Upgrade(k, u) => UpgradeBounded(s, k, u);
    case _ => SessionBounded(s, a);
  }

  lemma {:induction false} RunBounded(s: State, run: seq<Action>)
    requires Bounded(s) && IsRun(s, run)
    ensures Bounded(After(s, run))
    decreases |run|
  {
    if run != [] {
      StepBounded(s, run[0]);
      RunBounded(Next(s, run[0]), run[1..]);
    }
  }

  /** The emitter's queue takes packets until it holds eight, and then no more. */
  lemma {:induction false} QueueTakesEight(s: State) returns (run: seq<Action>)
    requires !s.em.done && |s.em.queue| <= 8
    ensures IsRun(s, run) && |After(s, run).em.queue| == 8 && !Enabled(After(s, run), Emit(Submit(0)))
    decreases 8 - |s.em.queue|
  {
    if |s.em.queue| == 8 {
      run := [];
    } else {
      var s1 := Next(s, Emit(EnterSubmit));
      var s2 := Next(s1, Emit(Submit(0)));
      var more := QueueTakesEight(s2);
      RunOne(s1, Emit(Submit(0)), s2, more);
      RunOne(s, Emit(EnterSubmit), s1, [Emit(Submit(0))] + more);
      run := [Emit(EnterSubmit)] + ([Emit(Submit(0))] + more);
    }
  }

  /** So does the in queue of a connection that a request posts to. */
  lemma {:induction false} InTakesEight(s: State, c: nat) returns (run: seq<Action>)
    requires c in s.posts && c < |s.conns| && s.conns[c].Polling? && |s.conns[c].inq| <= 8
    ensures IsRun(s, run) && c < |After(s, run).conns| && After(s, run).conns[c].Polling?
    ensures |After(s, run).conns[c].inq| == 8 && !Enabled(After(s, run), Client(PostPacket(c, 0)))
    decreases 8 - |s.conns[c].inq|
  {
    if |s.conns[c].inq| == 8 {
      run := [];
    } else {
      var s1 := Next(s, Client(PostPacket(c, 0)));
      var more := InTakesEight(s1, c);
      RunOne(s, Client(PostPacket(c, 0)), s1, more);
      run := [Client(PostPacket(c, 0))] + more;
    }
  }

  /** And the out queue, for the packet in the emitter's hand. */
  lemma OutTakesEight(s: State)
    requires s.em.hand.Selecting? && s.em.hand.c < |s.conns| && s.conns[s.em.hand.c].Polling?
    ensures Enabled(s, Emit(WriteOut)) <==> |s.conns[s.em.hand.c].out| < 8
  {
  }

  // ---- the steps of an upgrade ----

  /** Steps inside the flush loops. */
  predicate InLoop(u: UpgradeAction) {
    u.FlushOutOne? || u.Forward? || u.FlushInOne? || u.HandleInOne?
  }

  /** What one attempt has done, but for the loops. */
  function Steps(run: seq<Action>, k: nat): seq<UpgradeAction> {
    if run == [] then []
    else Own(run[0], k) + Steps(run[1..], k)
  }

  /** Barrier, ping, pong, pause, upgrade packet, close, flush, swap, flush, handle, barrier: in this order. */
  const PROTOCOL: seq<UpgradeAction> :=
    [Pause, Probe(true), Pong, PauseConn, Confirm(true), CloseOld, FlushOutEnd, Swap, FlushInEnd, HandleInEnd, Resume]

  /** How far along the protocol a point of upgrade is. */
  function Progress(pc: Pc): nat {
    match pc
    case Waiting => 0
    case Probing => 1
    case Ponging => 2
    case Pausing => 3
    case Confirming(_) => 4
    case ClosingOld(_) => 5
    case FlushingOut(_, _) => 6
    case Forwarding(_, _) => 7
    case FlushingIn(_, _) => 8
    case HandlingIn(_, _) => 9
    case Leaving(_) => 10
    case Returned(_) => 11
  }

  /** An attempt that gives up does so with the step that fails, right after the steps before it. */
  predicate Failed(past: seq<UpgradeAction>) {
    || past == PROTOCOL[..1] + [Probe(false)] || past == PROTOCOL[..1] + [ProbeFail]
    || past == PROTOCOL[..2] + [PongFail]
    || past == PROTOCOL[..3] + [PauseConn]
    || past == PROTOCOL[..4] + [Confirm(false)] || past == PROTOCOL[..4] + [ConfirmFail]
  }

  predicate Follows(pc: Pc, past: seq<UpgradeAction>) {
    match pc
    case Leaving(false) => Failed(past)
    case Returned(false) => past != [] && past[|past| - 1] == Resume && Failed(past[..|past| - 1])
    case _ => past == PROTOCOL[..Progress(pc)]
  }

  lemma Advance(i: nat, u: UpgradeAction)
    requires i < |PROTOCOL| && PROTOCOL[i] == u
    ensures PROTOCOL[..i] + [u] == PROTOCOL[..i + 1]
  {
  }

  function PcAt(s: State, k: nat): Pc {
    if k < |s.attempts| then s.attempts[k].pc else Waiting
  }

  lemma EarlySteps(s: State, k: nat, u: UpgradeAction, past: seq<UpgradeAction>)
    requires UpgradeEnabled(s, k, u) && Follows(s.attempts[k].pc, past)
    requires u.Pause? || u.Probe? || u.ProbeFail? || u.Pong? || u.PongFail?
    ensures Follows(UpgradeNext(s, k, u).attempts[k].pc, past + [u])
  {
    match u
    case Pause => Advance(0, u);
    case Probe(true) => Advance(1, u);
    case Pong => Advance(2, u);
    case _ =>
  }

  lemma MiddleSteps(s: State, k: nat, u: UpgradeAction, past: seq<UpgradeAction>)
    requires UpgradeEnabled(s, k, u) && Follows(s.attempts[k].pc, past) && !UpgradeNext(s, k, u).panicked
    requires u.PauseConn? || u.Confirm? || u.ConfirmFail? || u.CloseOld?
    ensures Follows(UpgradeNext(s, k, u).attempts[k].pc, past + [u])
  {
    match u
    case PauseConn => Advance(3, u);
    case Confirm(true) => Advance(4, u);
    case CloseOld => Advance(5, u);
    case _ =>
  }

  lemma LateSteps(s: State, k: nat, u: UpgradeAction, past: seq<UpgradeAction>)
    requires UpgradeEnabled(s, k, u) && Follows(s.attempts[k].pc, past)
    requires u.FlushOutEnd? || u.Swap? || u.FlushInEnd? || u.HandleInEnd? || u.Resume?
    ensures Follows(UpgradeNext(s, k, u).attempts[k].pc, past + [u])
  {
    match u
    case FlushOutEnd => Advance(6, u);
    case Swap => Advance(7, u);
    case FlushInEnd => Advance(8, u);
    case HandleInEnd => Advance(9, u);
    case Resume =>
      if s.attempts[k].pc.swapped { Advance(10, u); } else { assert (past + [u])[..|past|] == past; }
  }

  lemma LoopSteps(s: State, k: nat, u: UpgradeAction, past: seq<UpgradeAction>)
    requires UpgradeEnabled(s, k, u) && Follows(s.attempts[k].pc, past) && InLoop(u)
    ensures Follows(UpgradeNext(s, k, u).attempts[k].pc, past)
  {
  }

  lemma OwnStep(s: State, k: nat, u: UpgradeAction, past: seq<UpgradeAction>)
    requires UpgradeEnabled(s, k, u) && Follows(s.attempts[k].pc, past) && !UpgradeNext(s, k, u).panicked
    ensures |UpgradeNext(s, k, u).attempts| == |s.attempts|
    ensures Follows(UpgradeNext(s, k, u).attempts[k].pc, past + if InLoop(u) then [] else [u])
  {
    if InLoop(u) {
      LoopSteps(s, k, u, past);
      assert past + [] == past;
    } else if u.Pause? || u.Probe? || u.ProbeFail? || u.Pong? || u.PongFail? {
      EarlySteps(s, k, u, past);
    } else if u.PauseConn? || u.Confirm? || u.ConfirmFail? || u.CloseOld? {
      MiddleSteps(s, k, u, past);
    } else {
      LateSteps(s, k, u, past);
    }
  }

  lemma OtherUpgrade(s: State, j: nat, u: UpgradeAction, k: nat)
    requires UpgradeEnabled(s, j, u) && j != k
    ensures PcAt(UpgradeNext(s, j, u), k) == PcAt(s, k)
  {
    UpgradeSetsPc(s, j, u);
  }

  lemma OtherStep(s: State, a: Action, k: nat)
    requires Enabled(s, a) && !(a.Upgrade? && a.k == k)
    ensures PcAt(Next(s, a), k) == PcAt(s, k)
  {
    if a.Upgrade? { OtherUpgrade(s, a.k, a.u, k); }
  }

  /** What an action adds to the steps of an attempt. */
  function Own(a: Action, k: nat): seq<UpgradeAction> {
    if a.Upgrade? && a.k == k && !InLoop(a.u) then [a.u] else []
  }

  lemma StepFollows(s: State, a: Action, k: nat, past: seq<UpgradeAction>)
    requires Enabled(s, a) && Follows(PcAt(s, k), past) && !Next(s, a).panicked
    ensures Follows(PcAt(Next(s, a), k), past + Own(a, k))
  {
    if a.Upgrade? && a.k == k {
      OwnStep(s, k, a.u, past);
    } else {
      OtherStep(s, a, k);
      assert past + [] == past;
    }
  }

  lemma PanicStays(s: State, a: Action)
    requires Enabled(s, a) && s.panicked
    ensures Next(s, a).panicked
  {
    if a.Upgrade? { assert UpgradeNext(s, a.k, a.u).panicked; }
  }

  lemma {:induction false} RunPanicStays(s: State, run: seq<Action>)
    requires IsRun(s, run) && s.panicked
    ensures After(s, run).panicked
    decreases |run|
  {
    if run != [] {
      PanicStays(s, run[0]);
      RunPanicStays(Next(s, run[0]), run[1..]);
    }
  }

  lemma {:induction false} RunFollows(s: State, run: seq<Action>, k: nat, past: seq<UpgradeAction>)
    requires IsRun(s, run) && Follows(PcAt(s, k), past) && !After(s, run).panicked
    ensures Follows(PcAt(After(s, run), k), past + Steps(run, k))
    decreases |run|
  {
    if run == [] {
      assert past + [] == past;
    } else {
      var s1 := Next(s, run[0]);
      if s1.panicked { RunPanicStays(s1, run[1..]); }
      StepFollows(s, run[0], k, past);
      RunFollows(s1, run[1..], k, past + Own(run[0], k));
      CatAssoc(past, Own(run[0], k), Steps(run[1..], k));
    }
  }

  /**
   * In every run, every attempt goes through the protocol in its order, up to where it is; or gave up
   * at a step that failed, and then only let go of the barrier.
   */
  lemma ProtocolFollowed(t: Transport, run: seq<Action>, k: nat)
    requires IsRun(Init(t), run) && k < |After(Init(t), run).attempts|
    ensures Follows(After(Init(t), run).attempts[k].pc, Steps(run, k))
  {
    InitLocks(t);
    RunLocks(Init(t), run);
    RunFollows(Init(t), run, k, []);
    assert [] + Steps(run, k) == Steps(run, k);
  }

  /** A connection is never paused while it is paused, so its pause channel is never closed twice. */
  lemma PausedOnce(t: Transport, run: seq<Action>, k: nat)
    requires IsRun(Init(t), run) && Enabled(After(Init(t), run), Upgrade(k, PauseConn))
    ensures var s := After(Init(t), run); s.conns[s.current].Polling? ==> !s.conns[s.current].paused
  {
    InitLocks(t);
    RunLocks(Init(t), run);
    assert AttemptOk(After(Init(t), run), k);
  }

  /** Wherever upgrade waits for the new connection it can give up: that is closed, the old one unpaused. */
  lemma CanGiveUp(s: State, k: nat)
    requires LockInv(s) && k < |s.attempts|
    requires s.attempts[k].pc.Probing? || s.attempts[k].pc.Ponging? || s.attempts[k].pc.Confirming?
    ensures exists u :: UpgradeEnabled(s, k, u) && GaveUpAt(UpgradeNext(s, k, u), k)
  {
    assert AttemptOk(s, k);
    var pc := s.attempts[k].pc;
    var u := if pc.Probing? then ProbeFail else if pc.Ponging? then PongFail else ConfirmFail;
    assert UpgradeEnabled(s, k, u);
    assert GaveUpAt(UpgradeNext(s, k, u), k);
  }

  predicate GaveUpAt(s: State, k: nat) {
    && k < |s.attempts| && s.attempts[k].pc == Leaving(false)
    && s.attempts[k].conn < |s.conns| && s.conns[s.attempts[k].conn].closed
    && (PollingAt(s, 0) && s.current == 0 ==> !s.conns[0].paused)
  }

  // ---- the end of an upgrade ----

  /** Attempt `k` is at `pc`, and its connection and the old one are there. */
  predicate Stands(s: State, k: nat, pc: Pc) {
    && k < |s.attempts| && s.attempts[k].pc == pc && s.attempts[k].conn < |s.conns|
    && s.current < |s.conns| && PollingAt(s, 0)
  }

  /** The attempt and the old connection after a part of the upgrade. */
  function Moved(s: State, k: nat, pc: Pc, c: Conn): State
    requires k < |s.attempts| && s.conns != []
  {
    SetPc(SetConn(s, 0, c), k, pc)
  }

  function WithoutOut(c: Conn): Conn
    requires c.Polling?
  {
    c.(out := [], left := c.left + c.out)
  }

  lemma MovedTwice(s: State, k: nat, pc: Pc, c: Conn, pc': Pc, c': Conn)
    requires k < |s.attempts| && s.conns != []
    ensures Moved(Moved(s, k, pc, c), k, pc', c') == Moved(s, k, pc', c')
  {
  }

  lemma {:induction false} FlushOutAll(s: State, k: nat, list: seq<Pkt>) returns (run: seq<Action>)
    requires Stands(s, k, FlushingOut(0, list))
    ensures IsRun(s, run)
    ensures After(s, run) == Moved(s, k, Forwarding(0, list + s.conns[0].out), WithoutOut(s.conns[0]))
    decreases |s.conns[0].out|
  {
    var c := s.conns[0];
    if c.out == [] {
      var s1 := Next(s, Upgrade(k, FlushOutEnd));
      run := [Upgrade(k, FlushOutEnd)] + [];
      RunOne(s, Upgrade(k, FlushOutEnd), s1, []);
      assert list + [] == list && c.left + [] == c.left && s.conns[0 := c] == s.conns;
    } else {
      var more, d := list + [c.out[0]], Dequeued(c);
      var s1 := Next(s, Upgrade(k, FlushOutOne));
      assert s1 == Moved(s, k, FlushingOut(0, more), d);
      run := FlushOutAll(s1, k, more);
      MovedTwice(s, k, FlushingOut(0, more), d, Forwarding(0, more + d.out), WithoutOut(d));
      FirstMoved(c.left, list, c.out);
      RunOne(s, Upgrade(k, FlushOutOne), s1, run);
      run := [Upgrade(k, FlushOutOne)] + run;
    }
  }

  lemma FirstMoved(left: seq<Pkt>, list: seq<Pkt>, out: seq<Pkt>)
    requires out != []
    ensures list + [out[0]] + out[1..] == list + out && left + [out[0]] + out[1..] == left + out
  {
    assert [out[0]] + out[1..] == out;
    CatAssoc(list, [out[0]], out[1..]);
    CatAssoc(left, [out[0]], out[1..]);
  }

  /** Forwarding, whether the new connection takes the packets or not. */
  lemma {:induction false} ForwardAll(s: State, k: nat, list: seq<Pkt>, ok: bool) returns (run: seq<Action>)
    requires Stands(s, k, Forwarding(0, list))
    ensures IsRun(s, run)
    ensures After(s, run) == SetPc(s, k, Forwarding(0, [])).(
      written := s.written + (if ok then list else []), refused := s.refused + (if ok then [] else list))
    decreases |list|
  {
    if list == [] {
      run := [];
      assert s.written + [] == s.written && s.refused + [] == s.refused;
      assert s.attempts[k := s.attempts[k].(pc := Forwarding(0, []))] == s.attempts;
    } else {
      var s1 := Next(s, Upgrade(k, Forward(ok)));
      run := ForwardAll(s1, k, list[1..], ok);
      RunOne(s, Upgrade(k, Forward(ok)), s1, run);
      run := [Upgrade(k, Forward(ok))] + run;
      FirstLogged(s.written, list);
      FirstLogged(s.refused, list);
      assert SetPc(s1, k, Forwarding(0, [])).attempts == SetPc(s, k, Forwarding(0, [])).attempts;
      assert s.written + [] == s.written && s.refused + [] == s.refused;
    }
  }

  lemma FirstLogged(log: seq<Pkt>, list: seq<Pkt>)
    requires list != []
    ensures log + [list[0]] + list[1..] == log + list
  {
    assert [list[0]] + list[1..] == list;
    CatAssoc(log, [list[0]], list[1..]);
  }

  lemma {:induction false} FlushInAll(s: State, k: nat, list: seq<Pkt>) returns (run: seq<Action>)
    requires Stands(s, k, FlushingIn(0, list))
    ensures IsRun(s, run)
    ensures After(s, run) == Moved(s, k, HandlingIn(0, list + s.conns[0].inq), s.conns[0].(inq := []))
    decreases |s.conns[0].inq|
  {
    var c := s.conns[0];
    if c.inq == [] {
      var s1 := Next(s, Upgrade(k, FlushInEnd));
      run := [Upgrade(k, FlushInEnd)] + [];
      RunOne(s, Upgrade(k, FlushInEnd), s1, []);
      assert list + [] == list && s.conns[0 := c] == s.conns;
    } else {
      var more, d := list + [c.inq[0]], c.(inq := c.inq[1..]);
      var s1 := Next(s, Upgrade(k, FlushInOne));
      assert s1 == Moved(s, k, FlushingIn(0, more), d);
      run := FlushInAll(s1, k, more);
      MovedTwice(s, k, FlushingIn(0, more), d, HandlingIn(0, more + d.inq), d.(inq := []));
      FirstLogged(list, c.inq);
      RunOne(s, Upgrade(k, FlushInOne), s1, run);
      run := [Upgrade(k, FlushInOne)] + run;
    }
  }

  /** The packets of the old connection as they are handled. */
  function FromOld(list: seq<Pkt>): seq<Source> {
    if list == [] then [] else [FromPolling(list[0])] + FromOld(list[1..])
  }

  lemma {:induction false} HandleAll(s: State, k: nat, list: seq<Pkt>) returns (run: seq<Action>)
    requires Stands(s, k, HandlingIn(0, list))
    ensures IsRun(s, run)
    ensures After(s, run) == SetPc(s, k, Leaving(true)).(handled := s.handled + FromOld(list))
    decreases |list|
  {
    if list == [] {
      var s1 := Next(s, Upgrade(k, HandleInEnd));
      run := [Upgrade(k, HandleInEnd)] + [];
      RunOne(s, Upgrade(k, HandleInEnd), s1, []);
      assert s.handled + [] == s.handled;
    } else {
      var s1 := Next(s, Upgrade(k, HandleInOne));
      run := HandleAll(s1, k, list[1..]);
      RunOne(s, Upgrade(k, HandleInOne), s1, run);
      run := [Upgrade(k, HandleInOne)] + run;
      CatAssoc(s.handled, [FromPolling(list[0])], FromOld(list[1..]));
      assert SetPc(s1, k, Leaving(true)).attempts == SetPc(s, k, Leaving(true)).attempts;
    }
  }

  /** What is to be delivered of the old connection: its out queue, and its in queue. */
  ghost predicate Delivered(s: State, s': State, k: nat, ok: bool) {
    && k < |s.attempts| && k < |s'.attempts| && PollingAt(s, 0)
    && s'.attempts[k].pc == Returned(true) && s'.current == s.attempts[k].conn && s'.barrier == None
    && s'.written == s.written + (if ok then s.conns[0].out else [])
    && s'.refused == s.refused + (if ok then [] else s.conns[0].out)
    && s'.handled == s.handled + FromOld(s.conns[0].inq)
  }

  /**
   * Once the upgrade packet has come, an upgrade can go through to its end whatever is queued: all
   * that is queued to the client is forwarded, and all that it has posted is handled.
   */
  lemma CanComplete(s: State, k: nat, ok: bool) returns (run: seq<Action>)
    requires Stands(s, k, ClosingOld(0)) && !s.em.hand.Selecting? && s.attempts[k].conn > 0
    ensures IsRun(s, run) && Delivered(s, After(s, run), k, ok)
  {
    var s1 := Next(s, Upgrade(k, CloseOld));
    var out := FlushOutAll(s1, k, []);
    var s2 := After(s1, out);
    assert [] + s.conns[0].out == s.conns[0].out;
    var forward := ForwardAll(s2, k, s.conns[0].out, ok);
    var s3 := After(s2, forward);
    var s4 := Next(s3, Upgrade(k, Swap));
    var rest := CanLeave(s4, k);
    RunOne(s3, Upgrade(k, Swap), s4, rest);
    RunJoin(s2, forward, [Upgrade(k, Swap)] + rest);
    RunJoin(s1, out, forward + ([Upgrade(k, Swap)] + rest));
    RunOne(s, Upgrade(k, CloseOld), s1, out + (forward + ([Upgrade(k, Swap)] + rest)));
    run := [Upgrade(k, CloseOld)] + (out + (forward + ([Upgrade(k, Swap)] + rest)));
  }

  lemma CanLeave(s: State, k: nat) returns (run: seq<Action>)
    requires Stands(s, k, FlushingIn(0, []))
    ensures IsRun(s, run)
    ensures var s' := After(s, run);
      && k < |s'.attempts| && s'.attempts[k].pc == Returned(true) && s'.current == s.current && s'.barrier == None
      && s'.written == s.written && s'.refused == s.refused
      && s'.handled == s.handled + FromOld(s.conns[0].inq)
  {
    var taken := FlushInAll(s, k, []);
    var s1 := After(s, taken);
    assert [] + s.conns[0].inq == s.conns[0].inq;
    var handled := HandleAll(s1, k, s.conns[0].inq);
    var s2 := After(s1, handled);
    RunOne(s2, Upgrade(k, Resume), Next(s2, Upgrade(k, Resume)), []);
    RunJoin(s1, handled, [Upgrade(k, Resume)] + []);
    RunJoin(s, taken, handled + ([Upgrade(k, Resume)] + []));
    run := taken + (handled + ([Upgrade(k, Resume)] + []));
  }

  // ---- targets ----

  /** Nobody upgrades to the transport the session has. */
  ghost predicate OtherTargets(s: State, t: Transport) {
    s.transport == t ==> forall j | 0 <= j < |s.attempts| :: s.attempts[j].target != t
  }

  lemma PcKeepsTargets(s: State, k: nat, pc: Pc)
    requires k < |s.attempts|
    ensures |SetPc(s, k, pc).attempts| == |s.attempts|
    ensures forall j | 0 <= j < |s.attempts| :: SetPc(s, k, pc).attempts[j].target == s.attempts[j].target
  {
  }

  lemma UpgradeSetsPc(s: State, k: nat, u: UpgradeAction)
    requires UpgradeEnabled(s, k, u)
    ensures SetsPc(s, UpgradeNext(s, k, u), k) && (UpgradeNext(s, k, u).transport == s.transport || u.Swap?)
  {
    if u.Pause? || u.Probe? || u.ProbeFail? || u.Pong? || u.PongFail? {
      EarlySets(s, k, u);
    } else if u.PauseConn? || u.Confirm? || u.ConfirmFail? || u.CloseOld? {
      MiddleSets(s, k, u);
    } else {
      LateSets(s, k, u);
    }
  }

  /** Of the attempts, only the place of one changes. */
  ghost predicate SetsPc(s: State, s': State, k: nat) {
    k < |s.attempts| && |s'.attempts| == |s.attempts| && s'.attempts == SetPc(s, k, s'.attempts[k].pc).attempts
  }

  lemma EarlySets(s: State, k: nat, u: UpgradeAction)
    requires UpgradeEnabled(s, k, u)
    requires u.Pause? || u.Probe? || u.ProbeFail? || u.Pong? || u.PongFail?
    ensures SetsPc(s, UpgradeNext(s, k, u), k) && (UpgradeNext(s, k, u).transport == s.transport || u.Swap?)
  {
  }

  lemma MiddleSets(s: State, k: nat, u: UpgradeAction)
    requires UpgradeEnabled(s, k, u)
    requires u.PauseConn? || u.Confirm? || u.ConfirmFail? || u.CloseOld?
    ensures SetsPc(s, UpgradeNext(s, k, u), k) && (UpgradeNext(s, k, u).transport == s.transport || u.Swap?)
  {
  }

  lemma LateSets(s: State, k: nat, u: UpgradeAction)
    requires UpgradeEnabled(s, k, u)
    requires !u.Pause? && !u.Probe? && !u.ProbeFail? && !u.Pong? && !u.PongFail?
    requires !u.PauseConn? && !u.Confirm? && !u.ConfirmFail? && !u.CloseOld?
    ensures SetsPc(s, UpgradeNext(s, k, u), k) && (UpgradeNext(s, k, u).transport == s.transport || u.Swap?)
  {
  }

  lemma UpgradeKeepsTargets(s: State, k: nat, u: UpgradeAction)
    requires UpgradeEnabled(s, k, u)
    ensures |UpgradeNext(s, k, u).attempts| == |s.attempts|
    ensures forall j | 0 <= j < |s.attempts| :: UpgradeNext(s, k, u).attempts[j].target == s.attempts[j].target
    ensures UpgradeNext(s, k, u).transport == s.transport || u.Swap?
  {
    UpgradeSetsPc(s, k, u);
    PcKeepsTargets(s, k, UpgradeNext(s, k, u).attempts[k].pc);
  }

  /** ... and a session that has not its first transport has been upgraded. */
  ghost predicate TargetsOk(s: State, t: Transport) {
    OtherTargets(s, t) && (s.transport != t ==> s.transport == WebsocketTransport)
  }

  lemma BeginTargets(s: State, target: Transport, t: Transport)
    requires Enabled(s, BeginUpgrade(target)) && TargetsOk(s, t)
    ensures TargetsOk(Next(s, BeginUpgrade(target)), t)
  {
  }

  lemma UpgradeTargets(s: State, k: nat, u: UpgradeAction, t: Transport)
    requires LockInv(s) && UpgradeEnabled(s, k, u) && TargetsOk(s, t)
    ensures TargetsOk(UpgradeNext(s, k, u), t)
  {
    StepTransport(s, Upgrade(k, u));
    UpgradeKeepsTargets(s, k, u);
  }

  lemma StepTargets(s: State, a: Action, t: Transport)
    requires LockInv(s) && Enabled(s, a) && TargetsOk(s, t)
    ensures TargetsOk(Next(s, a), t)
  {
    if a.Upgrade? { UpgradeTargets(s, a.k, a.u, t); } else if a.BeginUpgrade? { BeginTargets(s, a.target, t); }
  }

  lemma {:induction false} RunTargets(s: State, run: seq<Action>, t: Transport)
    requires LockInv(s) && IsRun(s, run) && TargetsOk(s, t)
    ensures TargetsOk(After(s, run), t)
    decreases |run|
  {
    if run != [] {
      StepTargets(s, run[0], t);
      StepLocks(s, run[0]);
      RunTargets(Next(s, run[0]), run[1..], t);
    }
  }

  /** As long as a session has the transport it began with, all its upgrade attempts are to the other one. */
  lemma AttemptsAreUpgrades(t: Transport, run: seq<Action>, j: nat)
    requires IsRun(Init(t), run) && After(Init(t), run).transport == t && j < |After(Init(t), run).attempts|
    ensures After(Init(t), run).attempts[j].target != t
  {
    InitLocks(t);
    RunTargets(Init(t), run, t);
  }

  // ---- the read loop ----

  /** Errors that end the read loop. */
  predicate StopsReader(a: Action) {
    a == Read(ReadStop) || a == Read(LoadClosed)
  }

  lemma StepStops(s: State, a: Action)
    requires Enabled(s, a)
    ensures StopsReader(a) ==> Next(s, a).reader.Stopped?
    ensures Next(s, a).reader.Stopped? ==> s.reader.Stopped? || StopsReader(a)
    ensures s.reader.Stopped? ==> Next(s, a).reader.Stopped? && !a.Read?
  {
    if a.Upgrade? { assert UpgradeNext(s, a.k, a.u).reader == s.reader; }
  }

  /** The read loop ends with the first error of a read that is not a pause, and only so. */
  lemma {:induction false} ReaderStopsOnce(s: State, run: seq<Action>)
    requires IsRun(s, run)
    ensures Count(run, StopsReader) == One(After(s, run).reader.Stopped? && !s.reader.Stopped?)
    ensures s.reader.Stopped? ==> After(s, run).reader.Stopped?
    decreases |run|
  {
    if run != [] {
      StepStops(s, run[0]);
      ReaderStopsOnce(Next(s, run[0]), run[1..]);
    }
  }

  /** What a reader does with the session's connection: by its flags, and always something. */
  lemma LoadDecides(s: State)
    requires s.reader.Looking? && s.current < |s.conns|
    ensures var c := s.conns[s.current];
      && (Enabled(s, Read(LoadClosed)) <==> c.closed)
      && (Enabled(s, Read(LoadPaused)) <==> c.Polling? && c.paused)
      && (Enabled(s, Read(Load)) <==> c.Websocket? || (!c.closed && !c.paused))
      && (Enabled(s, Read(Load)) || Enabled(s, Read(LoadPaused)) || Enabled(s, Read(LoadClosed)))
  {
  }

  /** A read that waits can always fail, and then the read loop ends. */
  lemma ReadCanFail(s: State)
    requires s.reader.Reading?
    ensures Enabled(s, Read(ReadStop)) && Next(s, Read(ReadStop)) == s.(reader := Stopped)
  {
  }

  /** A pause parks the reader, and a free barrier lets it go on with the session's connection. */
  lemma PausedReaderParks(s: State)
    requires s.current < |s.conns| && s.conns[s.current].Polling? && s.conns[s.current].paused
    ensures s.reader.Looking? ==> Enabled(s, Read(LoadPaused)) && Next(s, Read(LoadPaused)).reader.Parked?
    ensures s.reader == Reading(s.current) ==> Enabled(s, Read(ReadPaused)) && Next(s, Read(ReadPaused)).reader.Parked?
  {
  }

  lemma ParkedReaderResumes(s: State)
    requires s.reader.Parked? && s.barrier == None && s.current < |s.conns| && !s.conns[s.current].closed
    requires s.conns[s.current].Polling? ==> !s.conns[s.current].paused
    ensures var run := [Read(Unpark)] + ([Read(Load)] + []);
      IsRun(s, run) && After(s, run) == s.(reader := Reading(s.current))
  {
    var s1 := s.(reader := Looking);
    RunOne(s1, Read(Load), s.(reader := Reading(s.current)), []);
    RunOne(s, Read(Unpark), s1, [Read(Load)] + []);
  }
}
