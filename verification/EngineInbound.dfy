/** Incoming order across an upgrade, when the handover is quiet. */
module EngineInbound {
  import opened Common
  import opened Engine
  import opened EngineLocks

  /** The upgrade that has just swapped is taking over the old connection's incoming packets. */
  predicate TakingOver(s: State) {
    && s.barrier.Some? && s.barrier.value < |s.attempts|
    && (s.attempts[s.barrier.value].pc.FlushingIn? || s.attempts[s.barrier.value].pc.HandlingIn?)
  }

  predicate Collecting(s: State) {
    TakingOver(s) && s.attempts[s.barrier.value].pc.FlushingIn?
  }

  /**
   * A quiet step. At the swap the reader is parked at the barrier or has stopped, or it cannot do
   * harm: no request is posting, and no packet waits except one that the reader may just take. And no
   * packet is posted to the old connection after its in queue was taken over.
   */
  predicate QuietIn(s: State, a: Action) {
    match a
    case Upgrade(_, Swap) =>
      || s.reader.Parked? || s.reader.Stopped?
      || (0 !in s.posts && |FirstIn(s)| <= if s.reader.Reading? then 1 else 0)
    case Client(PostPacket(_, _)) => s.current == 0 || Collecting(s)
    case _ => true
  }

  predicate QuietInRun(s: State, run: seq<Action>)
    requires IsRun(s, run)
    decreases |run|
  {
    run == [] || (QuietIn(s, run[0]) && QuietInRun(Next(s, run[0]), run[1..]))
  }

  // ---- the line of incoming packets ----

  /** The packets from the polling connection among those handled, in order. */
  function Polls(h: seq<Source>): seq<Pkt> {
    if h == [] then []
    else Polls(h[..|h| - 1]) + if h[|h| - 1].FromPolling? then [h[|h| - 1].p] else []
  }

  predicate HasWebsocket(h: seq<Source>) {
    h != [] && (h[|h| - 1].FromWebsocket? || HasWebsocket(h[..|h| - 1]))
  }

  /** No packet of the old connection is handled after one of the new. */
  predicate OldFirst(h: seq<Source>) {
    h == [] || (OldFirst(h[..|h| - 1]) && (HasWebsocket(h[..|h| - 1]) ==> h[|h| - 1].FromWebsocket?))
  }

  lemma {:induction false} WebsocketHandledAt(h: seq<Source>)
    ensures HasWebsocket(h) <==> exists i | 0 <= i < |h| :: h[i].FromWebsocket?
  {
    if h != [] {
      var before := h[..|h| - 1];
      WebsocketHandledAt(before);
      if HasWebsocket(before) {
        var i :| 0 <= i < |before| && before[i].FromWebsocket?;
        assert h[i].FromWebsocket?;
      } else if h[|h| - 1].FromPolling? {
        assert forall i | 0 <= i < |before| :: before[i] == h[i];
      }
    }
  }

  /** The meaning of OldFirst, position by position. */
  lemma {:induction false} OldFirstAt(h: seq<Source>, i: nat, j: nat)
    requires OldFirst(h) && i < j < |h| && h[i].FromWebsocket?
    ensures h[j].FromWebsocket?
  {
    var before := h[..|h| - 1];
    if j < |before| {
      OldFirstAt(before, i, j);
    } else {
      assert before[i].FromWebsocket?;
      WebsocketHandledAt(before);
    }
  }

  function ReaderHand(r: Reader): seq<Pkt> {
    if r.Holding? && r.x.FromPolling? then [r.x.p] else []
  }

  function TakenOver(s: State): seq<Pkt> {
    if TakingOver(s) then s.attempts[s.barrier.value].pc.list else []
  }

  function FirstIn(s: State): seq<Pkt> {
    if s.conns != [] && s.conns[0].Polling? then s.conns[0].inq else []
  }

  function InLine(a: seq<Pkt>, b: seq<Pkt>, c: seq<Pkt>, d: seq<Pkt>): seq<Pkt> {
    a + (b + (c + d))
  }

  /** Handled, in the reader's hand, taken over by the upgrade, still queued. */
  function LineIn(s: State): seq<Pkt> {
    InLine(Polls(s.handled), ReaderHand(s.reader), TakenOver(s), FirstIn(s))
  }

  lemma PollsSnoc(h: seq<Source>, x: Source)
    ensures Polls(h + [x]) == Polls(h) + if x.FromPolling? then [x.p] else []
    ensures HasWebsocket(h + [x]) <==> HasWebsocket(h) || x.FromWebsocket?
    ensures OldFirst(h) && (HasWebsocket(h) ==> x.FromWebsocket?) ==> OldFirst(h + [x])
  {
    var all := h + [x];
    assert all[..|all| - 1] == h && all[|h|] == x;
  }

  lemma LineRead(a: seq<Pkt>, d: seq<Pkt>)
    requires d != []
    ensures InLine(a, [d[0]], [], d[1..]) == InLine(a, [], [], d)
  {
    assert [d[0]] + ([] + d[1..]) == [] + ([] + d);
  }

  lemma LineHandle(a: seq<Pkt>, x: Pkt, c: seq<Pkt>, d: seq<Pkt>)
    ensures InLine(a + [x], [], c, d) == InLine(a, [x], c, d)
  {
    assert (a + [x]) + ([] + (c + d)) == a + ([x] + (c + d));
  }

  lemma LineTakeOver(a: seq<Pkt>, b: seq<Pkt>, c: seq<Pkt>, d: seq<Pkt>)
    requires d != []
    ensures InLine(a, b, c + [d[0]], d[1..]) == InLine(a, b, c, d)
  {
    assert (c + [d[0]]) + d[1..] == c + d;
  }

  lemma LineHandleTaken(a: seq<Pkt>, c: seq<Pkt>, d: seq<Pkt>)
    requires c != []
    ensures InLine(a + [c[0]], [], c[1..], d) == InLine(a, [], c, d)
  {
    assert (a + [c[0]]) + ([] + (c[1..] + d)) == a + ([] + (c + d));
  }

  lemma LinePost(a: seq<Pkt>, b: seq<Pkt>, c: seq<Pkt>, d: seq<Pkt>, p: Pkt)
    ensures InLine(a, b, c, d + [p]) == InLine(a, b, c, d) + [p]
  {
  }

  // ---- the invariant of quiet runs ----

  /** A reader that still waits on the old connection after the swap. */
  predicate OnOld(s: State) {
    s.current > 0 && s.reader == Reading(0)
  }

  /** Nothing of the old connection is left anywhere, and nothing more will be posted to it. */
  ghost predicate Settled(s: State) {
    && (PollingAt(s, 0) ==> s.current > 0)
    && ReaderHand(s.reader) == [] && TakenOver(s) == [] && FirstIn(s) == []
    && (Collecting(s) ==> 0 !in s.posts)
  }

  /** A packet of a websocket has been handled, is in the reader's hand, or is being waited for. */
  ghost predicate WebsocketInUse(s: State) {
    || HasWebsocket(s.handled)
    || (s.reader.Holding? && s.reader.x.FromWebsocket?)
    || (s.reader.Reading? && s.reader.c < |s.conns| && s.conns[s.reader.c].Websocket?)
  }

  /** After the swap, a reader at large finds nothing that it could overtake. */
  ghost predicate Covered(s: State) {
    s.current > 0 && !s.reader.Parked? && !s.reader.Stopped? ==>
      && (Collecting(s) || OnOld(s) ==> 0 !in s.posts)
      && |TakenOver(s)| + |FirstIn(s)| <= if OnOld(s) then 1 else 0
  }

  ghost predicate InboundInv(s: State) {
    && LineIn(s) == s.posted
    && OldFirst(s.handled)
    && (WebsocketInUse(s) ==> Settled(s))
    && Covered(s)
    && (s.current > 0 && !Collecting(s) ==> FirstIn(s) == [])
  }

  /** What the steps of reader and client need of the locks. */
  ghost predicate Housed(s: State) {
    Shape(s) && UsersOk(s) && OthersUnused(s) && (TakingOver(s) ==> s.current > 0)
  }

  lemma LocksHouse(s: State)
    requires LockInv(s)
    ensures Housed(s)
  {
    assert s.barrier.Some? ==> AttemptOk(s, s.barrier.value);
  }

  lemma ReadPollingInbound(s: State)
    requires Housed(s) && InboundInv(s) && ReaderEnabled(s, ReadPolling)
    ensures InboundInv(ReaderNext(s, ReadPolling))
  {
    LineRead(Polls(s.handled), FirstIn(s));
  }

  /** The reader has handled what it held, and nothing else has changed. */
  ghost predicate ReaderHandled(s: State, s': State) {
    && s.reader.Holding? && s'.reader.Looking? && s'.handled == s.handled + [s.reader.x]
    && s'.posted == s.posted && s'.posts == s.posts && s'.current == s.current && s'.conns == s.conns
    && FirstIn(s') == FirstIn(s) && TakenOver(s') == TakenOver(s) && Collecting(s') == Collecting(s)
  }

  lemma PollingHandled(s: State, s': State)
    requires InboundInv(s) && ReaderHandled(s, s') && s.reader.x.FromPolling?
    ensures InboundInv(s')
  {
    PollsSnoc(s.handled, s.reader.x);
    LineHandle(Polls(s.handled), s.reader.x.p, TakenOver(s), FirstIn(s));
    assert !HasWebsocket(s.handled);
  }

  lemma WebsocketHandled(s: State, s': State)
    requires InboundInv(s) && ReaderHandled(s, s') && s.reader.x.FromWebsocket?
    ensures InboundInv(s')
  {
    PollsSnoc(s.handled, s.reader.x);
  }

  lemma HandleReadInbound(s: State)
    requires InboundInv(s) && ReaderEnabled(s, HandleRead)
    ensures InboundInv(ReaderNext(s, HandleRead))
  {
    var s' := ReaderNext(s, HandleRead);
    assert ReaderHandled(s, s');
    if s.reader.x.FromPolling? { PollingHandled(s, s'); } else { WebsocketHandled(s, s'); }
  }

  lemma LoadInbound(s: State, a: ReaderAction)
    requires Housed(s) && InboundInv(s) && ReaderEnabled(s, a)
    requires a.Load? || a.LoadPaused? || a.LoadClosed? || a.Unpark?
    ensures InboundInv(ReaderNext(s, a))
  {
  }

  lemma ReadInbound(s: State, a: ReaderAction)
    requires Housed(s) && InboundInv(s) && ReaderEnabled(s, a)
    requires a.ReadWebsocket? || a.ReadPaused? || a.ReadStop?
    ensures InboundInv(ReaderNext(s, a))
  {
  }

  lemma ReaderInbound(s: State, a: ReaderAction)
    requires LockInv(s) && InboundInv(s) && ReaderEnabled(s, a)
    ensures InboundInv(ReaderNext(s, a))
  {
    LocksHouse(s);
    match a
    case ReadPolling => ReadPollingInbound(s);
    case HandleRead => HandleReadInbound(s);
    case ReadWebsocket(_) | ReadPaused | ReadStop => ReadInbound(s, a);
    case _ => LoadInbound(s, a);
  }

  lemma PostInbound(s: State, c: nat, p: Pkt)
    requires Housed(s) && InboundInv(s) && ClientEnabled(s, PostPacket(c, p)) && QuietIn(s, Client(PostPacket(c, p)))
    ensures InboundInv(ClientNext(s, PostPacket(c, p)))
  {
    LinePost(Polls(s.handled), ReaderHand(s.reader), TakenOver(s), FirstIn(s), p);
  }

  lemma PostingInbound(s: State, a: ClientAction)
    requires Housed(s) && InboundInv(s) && ClientEnabled(s, a) && (a.StartPost? || a.PostEnd?)
    ensures InboundInv(ClientNext(s, a))
  {
    var s' := ClientNext(s, a);
    assert s' == s.(posts := s'.posts) && (s.current > 0 ==> 0 in s'.posts ==> 0 in s.posts);
  }

  lemma TakeSame(s: State, a: ClientAction)
    requires ClientEnabled(s, a) && (a.GetAnswer? || a.StrayTake?)
    ensures FirstIn(ClientNext(s, a)) == FirstIn(s)
  {
  }

  lemma PollSame(s: State, a: ClientAction)
    requires ClientEnabled(s, a) && !a.PostPacket? && !a.StartPost? && !a.PostEnd?
    ensures InboundSame(s, ClientNext(s, a))
  {
    var s' := ClientNext(s, a);
    ClientFrame(s, a);
    if a.GetAnswer? || a.StrayTake? { TakeSame(s, a); } else { assert s'.conns == s.conns; }
    forall i | 0 <= i < |s.conns| ensures s'.conns[i].Polling? == s.conns[i].Polling? {
      assert SameFlags(s.conns[i], s'.conns[i]);
    }
  }

  lemma ClientInbound(s: State, a: ClientAction)
    requires LockInv(s) && InboundInv(s) && ClientEnabled(s, a) && QuietIn(s, Client(a))
    ensures InboundInv(ClientNext(s, a))
  {
    LocksHouse(s);
    match a
    case PostPacket(c, p) => PostInbound(s, c, p);
    case StartPost | PostEnd(_) => PostingInbound(s, a);
    case _ =>
      PollSame(s, a);
      SameInbound(s, ClientNext(s, a));
  }

  lemma SwapInbound(s: State, k: nat)
    requires LockInv(s) && InboundInv(s) && UpgradeEnabled(s, k, Swap) && QuietIn(s, Upgrade(k, Swap))
    ensures InboundInv(UpgradeNext(s, k, Swap))
  {
    assert AttemptOk(s, k);
  }

  lemma FlushInbound(s: State, k: nat, u: UpgradeAction)
    requires LockInv(s) && InboundInv(s) && UpgradeEnabled(s, k, u)
    requires u.FlushInOne? || u.FlushInEnd?
    ensures InboundInv(UpgradeNext(s, k, u))
  {
    assert AttemptOk(s, k);
    if u.FlushInOne? {
      LineTakeOver(Polls(s.handled), ReaderHand(s.reader), s.attempts[k].pc.list, FirstIn(s));
    }
  }

  lemma HandleOneFacts(s: State, k: nat)
    requires s.barrier == Some(k) && UpgradeEnabled(s, k, HandleInOne)
    ensures var s', list := UpgradeNext(s, k, HandleInOne), s.attempts[k].pc.list;
      && TakenOver(s) == list && TakenOver(s') == list[1..] && !Collecting(s) && !Collecting(s')
      && s'.handled == s.handled + [FromPolling(list[0])]
      && s' == s.(handled := s'.handled, attempts := s'.attempts)
  {
  }

  /** Handling the first packet that was taken over. */
  lemma HandledTaken(s: State, s': State)
    requires InboundInv(s) && s.current > 0 && TakenOver(s) != [] && !Collecting(s) && !Collecting(s')
    requires TakenOver(s') == TakenOver(s)[1..] && s' == s.(handled := s'.handled, attempts := s'.attempts)
    requires s'.handled == s.handled + [FromPolling(TakenOver(s)[0])]
    ensures InboundInv(s')
  {
    PollsSnoc(s.handled, FromPolling(TakenOver(s)[0]));
    LineHandleTaken(Polls(s.handled), TakenOver(s), FirstIn(s));
    assert FirstIn(s') == FirstIn(s) == [];
  }

  lemma HandleOneInbound(s: State, k: nat)
    requires InboundInv(s) && s.barrier == Some(k) && s.current > 0 && UpgradeEnabled(s, k, HandleInOne)
    ensures InboundInv(UpgradeNext(s, k, HandleInOne))
  {
    HandleOneFacts(s, k);
    HandledTaken(s, UpgradeNext(s, k, HandleInOne));
  }

  lemma LeaveInbound(s: State, k: nat, u: UpgradeAction)
    requires InboundInv(s) && s.barrier == Some(k) && UpgradeEnabled(s, k, u) && (u.HandleInEnd? || u.Resume?)
    ensures InboundInv(UpgradeNext(s, k, u))
  {
  }

  lemma HandleInbound(s: State, k: nat, u: UpgradeAction)
    requires LockInv(s) && InboundInv(s) && UpgradeEnabled(s, k, u)
    requires u.HandleInOne? || u.HandleInEnd? || u.Resume?
    ensures InboundInv(UpgradeNext(s, k, u))
  {
    assert AttemptOk(s, k);
    if u.HandleInOne? { HandleOneInbound(s, k); } else { LeaveInbound(s, k, u); }
  }

  /** A step that touches no incoming packet and leaves a take-over as far as it was. */
  ghost predicate InboundSame(s: State, s': State) {
    && IncomingSame(s, s')
    && |s'.conns| == |s.conns| && (forall i | 0 <= i < |s.conns| :: s'.conns[i].Polling? == s.conns[i].Polling?)
  }

  lemma SameInbound(s: State, s': State)
    requires InboundInv(s) && InboundSame(s, s')
    ensures InboundInv(s')
  {
  }

  /** The same, but for the connections' kinds. */
  ghost predicate IncomingSame(s: State, s': State) {
    && s'.handled == s.handled && s'.posted == s.posted && s'.posts == s.posts
    && s'.reader == s.reader && s'.current == s.current
    && FirstIn(s') == FirstIn(s) && TakenOver(s') == TakenOver(s)
    && TakingOver(s') == TakingOver(s) && Collecting(s') == Collecting(s)
  }

  lemma ProbeSame(s: State, k: nat, u: UpgradeAction)
    requires Alone(s, k) && UpgradeEnabled(s, k, u)
    requires u.Pause? || u.Probe? || u.ProbeFail? || u.Pong? || u.PongFail?
    ensures IncomingSame(s, UpgradeNext(s, k, u))
  {
  }

  lemma PauseSame(s: State, k: nat, u: UpgradeAction)
    requires Alone(s, k) && UpgradeEnabled(s, k, u)
    requires u.PauseConn? || u.Confirm? || u.ConfirmFail?
    ensures IncomingSame(s, UpgradeNext(s, k, u))
  {
  }

  lemma FlushSame(s: State, k: nat, u: UpgradeAction)
    requires Alone(s, k) && UpgradeEnabled(s, k, u)
    requires u.CloseOld? || u.FlushOutOne? || u.FlushOutEnd? || u.Forward?
    ensures IncomingSame(s, UpgradeNext(s, k, u))
  {
  }

  lemma RestSame(s: State, k: nat, u: UpgradeAction)
    requires Alone(s, k) && UpgradeEnabled(s, k, u)
    requires !u.Swap? && !u.FlushInOne? && !u.FlushInEnd? && !u.HandleInOne? && !u.HandleInEnd? && !u.Resume?
    ensures InboundSame(s, UpgradeNext(s, k, u))
  {
    UpgradeAlone(s, k, u);
    match u
    case PauseConn | Confirm(_) | ConfirmFail => PauseSame(s, k, u);
    case CloseOld | FlushOutOne | FlushOutEnd | Forward(_) => FlushSame(s, k, u);
    case Pause | Probe(_) | ProbeFail | Pong | PongFail => ProbeSame(s, k, u);
  }

  lemma UpgradeInbound(s: State, k: nat, u: UpgradeAction)
    requires LockInv(s) && InboundInv(s) && UpgradeEnabled(s, k, u) && QuietIn(s, Upgrade(k, u))
    ensures InboundInv(UpgradeNext(s, k, u))
  {
    if u.Swap? {
      SwapInbound(s, k);
    } else if u.FlushInOne? || u.FlushInEnd? {
      FlushInbound(s, k, u);
    } else if u.HandleInOne? || u.HandleInEnd? || u.Resume? {
      HandleInbound(s, k, u);
    } else {
      HoldsOrFree(s, k, u);
      RestSame(s, k, u);
      SameInbound(s, UpgradeNext(s, k, u));
    }
  }

  lemma EmitterInbound(s: State, a: EmitterAction)
    requires LockInv(s) && InboundInv(s) && EmitterEnabled(s, a)
    ensures InboundInv(EmitterNext(s, a))
  {
    EmitterSame(s, a);
    SameInbound(s, EmitterNext(s, a));
  }

  lemma EmitterSame(s: State, a: EmitterAction)
    requires EmitterEnabled(s, a)
    ensures InboundSame(s, EmitterNext(s, a))
  {
    var s' := EmitterNext(s, a);
    assert s'.attempts == s.attempts && s'.barrier == s.barrier;
    if a.WriteOut? {
      assert forall i | 0 <= i < |s.conns| && i != s.em.hand.c :: s'.conns[i] == s.conns[i];
    } else {
      assert s'.conns == s.conns;
    }
  }

  lemma CloseSame(s: State, a: Action)
    requires Enabled(s, a) && (a.CloseStart? || a.CloseConn?)
    ensures InboundSame(s, Next(s, a))
  {
  }

  lemma BeginInbound(s: State, target: Transport)
    requires Housed(s) && InboundInv(s) && Enabled(s, BeginUpgrade(target))
    ensures InboundInv(Next(s, BeginUpgrade(target)))
  {
    var s' := Next(s, BeginUpgrade(target));
    assert FirstIn(s') == FirstIn(s) && TakenOver(s') == TakenOver(s) && Collecting(s') == Collecting(s);
  }

  lemma SessionInbound(s: State, a: Action)
    requires LockInv(s) && InboundInv(s) && Enabled(s, a)
    requires a.BeginUpgrade? || a.CloseStart? || a.CloseConn?
    ensures InboundInv(Next(s, a))
  {
    if a.BeginUpgrade? {
      LocksHouse(s);
      BeginInbound(s, a.target);
    } else {
      CloseSame(s, a);
      SameInbound(s, Next(s, a));
    }
  }

  lemma StepInbound(s: State, a: Action)
    requires LockInv(s) && InboundInv(s) && Enabled(s, a) && QuietIn(s, a)
    ensures InboundInv(Next(s, a))
  {
    match a
    case Emit(e) => EmitterInbound(s, e);
    case Client(c) => ClientInbound(s, c);
    case Read(r) => ReaderInbound(s, r);
    case Upgrade(k, u) => UpgradeInbound(s, k, u);
    case _ => SessionInbound(s, a);
  }

  lemma {:induction false} RunInbound(s: State, run: seq<Action>)
    requires LockInv(s) && InboundInv(s) && IsRun(s, run) && QuietInRun(s, run)
    ensures InboundInv(After(s, run))
    decreases |run|
  {
    if run != [] {
      StepLocks(s, run[0]);
      StepInbound(s, run[0]);
      RunInbound(Next(s, run[0]), run[1..]);
    }
  }

  /**
   * Under a quiet handover, in every run: packets posted on the old transport are handled in
   * posting order, each at most once, never after a packet of the new transport; and once a
   * packet of the new transport has been handled, every posted packet has been.
   */
  lemma InboundOrder(t: Transport, run: seq<Action>)
    requires IsRun(Init(t), run) && QuietInRun(Init(t), run)
    ensures var s := After(Init(t), run);
      && Polls(s.handled) <= s.posted
      && LineIn(s) == s.posted
      && (forall i, j | 0 <= i < j < |s.handled| && s.handled[i].FromWebsocket? :: s.handled[j].FromWebsocket?)
      && ((exists i | 0 <= i < |s.handled| :: s.handled[i].FromWebsocket?) ==> Polls(s.handled) == s.posted)
  {
    InitLocks(t);
    RunInbound(Init(t), run);
    var s := After(Init(t), run);
    InboundGood(s);
    WebsocketHandledAt(s.handled);
    forall i, j | 0 <= i < j < |s.handled| && s.handled[i].FromWebsocket? ensures s.handled[j].FromWebsocket? {
      OldFirstAt(s.handled, i, j);
    }
  }

  // ---- quiet is exactly what order needs ----

  /**
   * What the handover is for: posted packets are handled in order, none of them after a packet of
   * the new connection, and none is left on the old connection once it has been taken over.
   */
  ghost predicate Good(s: State) {
    && Polls(s.handled) <= s.posted && OldFirst(s.handled)
    && (HasWebsocket(s.handled) ==> Polls(s.handled) == s.posted)
    && (s.current > 0 && !Collecting(s) ==> FirstIn(s) == [])
  }

  lemma InboundGood(s: State)
    requires InboundInv(s)
    ensures Good(s)
  {
    if HasWebsocket(s.handled) {
      assert LineIn(s) == Polls(s.handled) + ([] + ([] + []));
    }
  }

  /** No quiet continuation goes wrong. */
  ghost predicate Safe(s: State) {
    forall run | IsRun(s, run) && QuietInRun(s, run) :: Good(After(s, run))
  }

  lemma UnsafeNow(s: State)
    requires !Good(s)
    ensures !Safe(s)
  {
    assert IsRun(s, []) && QuietInRun(s, []) && After(s, []) == s;
  }

  lemma UnsafeStep(s: State, a: Action, s1: State)
    requires Enabled(s, a) && QuietIn(s, a) && s1 == Next(s, a) && !Safe(s1)
    ensures !Safe(s)
  {
    var run :| IsRun(s1, run) && QuietInRun(s1, run) && !Good(After(s1, run));
    var all := [a] + run;
    assert all[1..] == run;
    assert IsRun(s, all) && QuietInRun(s, all) && After(s, all) == After(s1, run);
  }

  /** Just after a swap, before the upgrade has taken anything over. */
  ghost predicate JustSwapped(s: State) {
    && LockInv(s) && Collecting(s) && TakenOver(s) == [] && LineIn(s) == s.posted
    && s.current < |s.conns| && s.conns[s.current] == Websocket(false)
  }

  lemma SwapKeepsLine(s: State, k: nat)
    requires LockInv(s) && LineIn(s) == s.posted && UpgradeEnabled(s, k, Swap)
    ensures var s1 := UpgradeNext(s, k, Swap);
      && s1.reader == s.reader && s1.posts == s.posts && FirstIn(s1) == FirstIn(s)
      && Collecting(s1) && TakenOver(s1) == [] && LineIn(s1) == s1.posted
  {
    assert AttemptOk(s, k);
  }

  lemma SwapOpens(s: State, k: nat)
    requires LockInv(s) && InboundInv(s) && UpgradeEnabled(s, k, Swap)
    ensures var s1 := UpgradeNext(s, k, Swap);
      JustSwapped(s1) && s1.reader == s.reader && s1.posts == s.posts && FirstIn(s1) == FirstIn(s)
  {
    SwapKeepsLine(s, k);
    UpgradeLocks(s, k, Swap);
    assert AttemptOk(s, k);
  }

  lemma PostWhileCollecting(s: State, p: Pkt)
    requires JustSwapped(s) && 0 in s.posts && FirstIn(s) == []
    ensures Enabled(s, Client(PostPacket(0, p))) && QuietIn(s, Client(PostPacket(0, p)))
    ensures var s1 := Next(s, Client(PostPacket(0, p)));
      JustSwapped(s1) && s1.reader == s.reader && s1.posts == s.posts && FirstIn(s1) == [p]
  {
    assert AttemptOk(s, s.barrier.value);
    StepLocks(s, Client(PostPacket(0, p)));
    LinePost(Polls(s.handled), ReaderHand(s.reader), TakenOver(s), FirstIn(s), p);
  }

  /** A reader that handles a packet of the new connection while one of the old waits. */
  lemma HandlesTooEarly(s: State, p: Pkt)
    requires JustSwapped(s) && s.reader.Holding? && s.reader.x == FromWebsocket(p) && FirstIn(s) != []
    ensures !Safe(s)
  {
    var s1 := Next(s, Read(HandleRead));
    PollsSnoc(s.handled, FromWebsocket(p));
    assert |LineIn(s)| > |Polls(s.handled)|;
    UnsafeNow(s1);
    UnsafeStep(s, Read(HandleRead), s1);
  }

  lemma LookingWithWaiting(s: State)
    requires JustSwapped(s) && s.reader.Looking? && FirstIn(s) != []
    ensures !Safe(s)
  {
    var s1 := Next(s, Read(Load));
    StepLocks(s, Read(Load));
    var s2 := Next(s1, Read(ReadWebsocket(0)));
    StepLocks(s1, Read(ReadWebsocket(0)));
    HandlesTooEarly(s2, 0);
    UnsafeStep(s1, Read(ReadWebsocket(0)), s2);
    UnsafeStep(s, Read(Load), s1);
  }

  /** A reader about to load the connection at the swap. */
  lemma LookingUnsafe(s: State)
    requires JustSwapped(s) && s.reader.Looking? && (FirstIn(s) != [] || 0 in s.posts)
    ensures !Safe(s)
  {
    if FirstIn(s) != [] {
      LookingWithWaiting(s);
    } else {
      PostWhileCollecting(s, 0);
      LookingWithWaiting(Next(s, Client(PostPacket(0, 0))));
      UnsafeStep(s, Client(PostPacket(0, 0)), Next(s, Client(PostPacket(0, 0))));
    }
  }

  /** A reader about to handle a packet of the old connection at the swap. */
  lemma HoldingUnsafe(s: State)
    requires JustSwapped(s) && s.reader.Holding? && s.reader.x.FromPolling? && (FirstIn(s) != [] || 0 in s.posts)
    ensures !Safe(s)
  {
    var s1 := Next(s, Read(HandleRead));
    StepLocks(s, Read(HandleRead));
    PollsSnoc(s.handled, s.reader.x);
    LineHandle(Polls(s.handled), s.reader.x.p, TakenOver(s), FirstIn(s));
    LookingUnsafe(s1);
    UnsafeStep(s, Read(HandleRead), s1);
  }

  lemma ReadsThenUnsafe(s: State)
    requires JustSwapped(s) && OnOld(s) && FirstIn(s) != [] && (|FirstIn(s)| > 1 || 0 in s.posts)
    ensures !Safe(s)
  {
    var s1 := Next(s, Read(ReadPolling));
    StepLocks(s, Read(ReadPolling));
    LineRead(Polls(s.handled), FirstIn(s));
    HoldingUnsafe(s1);
    UnsafeStep(s, Read(ReadPolling), s1);
  }

  /** A reader waiting on the old connection at the swap. */
  lemma ReadingUnsafe(s: State)
    requires JustSwapped(s) && OnOld(s) && (|FirstIn(s)| > 1 || 0 in s.posts)
    ensures !Safe(s)
  {
    if FirstIn(s) != [] {
      ReadsThenUnsafe(s);
    } else {
      PostWhileCollecting(s, 0);
      ReadsThenUnsafe(Next(s, Client(PostPacket(0, 0))));
      UnsafeStep(s, Client(PostPacket(0, 0)), Next(s, Client(PostPacket(0, 0))));
    }
  }

  lemma UnquietSwap(s: State, k: nat)
    requires LockInv(s) && InboundInv(s) && UpgradeEnabled(s, k, Swap) && !QuietIn(s, Upgrade(k, Swap))
    ensures !Safe(UpgradeNext(s, k, Swap))
  {
    assert AttemptOk(s, k);
    SwapOpens(s, k);
    var s1 := UpgradeNext(s, k, Swap);
    match s.reader
    case Looking => LookingUnsafe(s1);
    case Holding(_) => HoldingUnsafe(s1);
    case Reading(_) => ReadingUnsafe(s1);
  }

  lemma UnquietPost(s: State, a: ClientAction)
    requires LockInv(s) && ClientEnabled(s, a) && !QuietIn(s, Client(a))
    ensures !Good(ClientNext(s, a))
  {
    assert FirstIn(ClientNext(s, a)) != [];
  }

  /**
   * From a state as every quiet run reaches it, a step can lead to a packet being overtaken or left
   * behind if and only if it is not quiet.
   */
  lemma QuietInIsExact(s: State, a: Action)
    requires LockInv(s) && InboundInv(s) && Enabled(s, a)
    ensures Safe(Next(s, a)) <==> QuietIn(s, a)
  {
    if QuietIn(s, a) {
      StepInbound(s, a);
      StepLocks(s, a);
      forall run | IsRun(Next(s, a), run) && QuietInRun(Next(s, a), run)
        ensures Good(After(Next(s, a), run))
      {
        RunInbound(Next(s, a), run);
        InboundGood(After(Next(s, a), run));
      }
    } else {
      match a
      case Upgrade(k, _) => UnquietSwap(s, k);
      case Client(c) =>
        UnquietPost(s, c);
        UnsafeNow(Next(s, a));
    }
  }

  // ---- a packet posted too late ----

  /** A packet on the old connection that nobody will take. */
  ghost predicate Forgotten(s: State) {
    s.current > 0 && !Collecting(s) && !OnOld(s) && FirstIn(s) != []
  }

  ghost predicate Stranded(s: State) {
    LockInv(s) && Forgotten(s)
  }

  lemma StrandedEarly(s: State, k: nat, u: UpgradeAction)
    requires Stranded(s) && UpgradeEnabled(s, k, u)
    requires u.Pause? || u.Probe? || u.ProbeFail? || u.Pong? || u.PongFail? || u.PauseConn?
    ensures UpgradeNext(s, k, u).current > 0 && !Collecting(UpgradeNext(s, k, u))
    ensures FirstIn(UpgradeNext(s, k, u)) == FirstIn(s)
  {
    assert AttemptOk(s, k);
  }

  /** No attempt is past its pause once the session has been upgraded. */
  lemma NonePaused(s: State, k: nat, u: UpgradeAction)
    requires Stranded(s) && UpgradeEnabled(s, k, u)
    ensures !HasPaused(s.attempts[k].pc) && !s.attempts[k].pc.FlushingIn?
  {
    assert AttemptOk(s, k);
  }

  lemma StrandedUpgrade(s: State, k: nat, u: UpgradeAction)
    requires Stranded(s) && UpgradeEnabled(s, k, u)
    ensures UpgradeNext(s, k, u).current > 0 && !Collecting(UpgradeNext(s, k, u))
    ensures FirstIn(UpgradeNext(s, k, u)) == FirstIn(s)
  {
    NonePaused(s, k, u);
    match u
    case Pause | Probe(_) | ProbeFail | Pong | PongFail | PauseConn => StrandedEarly(s, k, u);
    case _ =>
  }

  lemma ForgottenClient(s: State, a: ClientAction)
    requires Forgotten(s) && ClientEnabled(s, a)
    ensures Forgotten(ClientNext(s, a)) && FirstIn(s) <= FirstIn(ClientNext(s, a))
  {
  }

  lemma ForgottenReader(s: State, a: ReaderAction)
    requires Forgotten(s) && ReaderEnabled(s, a)
    ensures Forgotten(ReaderNext(s, a)) && FirstIn(s) <= FirstIn(ReaderNext(s, a))
  {
  }

  lemma ForgottenEmitter(s: State, a: EmitterAction)
    requires Forgotten(s) && EmitterEnabled(s, a)
    ensures Forgotten(EmitterNext(s, a)) && FirstIn(s) <= FirstIn(EmitterNext(s, a))
  {
  }

  lemma ForgottenSession(s: State, a: Action)
    requires Forgotten(s) && Enabled(s, a) && (a.BeginUpgrade? || a.CloseStart? || a.CloseConn?)
    ensures Forgotten(Next(s, a)) && FirstIn(s) <= FirstIn(Next(s, a))
  {
  }

  lemma StrandedStep(s: State, a: Action)
    requires Stranded(s) && Enabled(s, a)
    ensures Stranded(Next(s, a)) && FirstIn(s) <= FirstIn(Next(s, a))
  {
    StepLocks(s, a);
    match a
    case Upgrade(k, u) => StrandedUpgrade(s, k, u);
    case Client(c) => ForgottenClient(s, c);
    case Read(r) => ForgottenReader(s, r);
    case Emit(e) => ForgottenEmitter(s, e);
    case _ => ForgottenSession(s, a);
  }

  /** In no continuation at all, quiet or not, is it ever handled. */
  lemma {:induction false} NeverTaken(s: State, run: seq<Action>)
    requires Stranded(s) && IsRun(s, run)
    ensures FirstIn(s) <= FirstIn(After(s, run))
    decreases |run|
  {
    if run != [] {
      StrandedStep(s, run[0]);
      NeverTaken(Next(s, run[0]), run[1..]);
    }
  }

  /** A packet posted after the take-over stays on the old connection for good. */
  lemma LatePostIsLost(s: State, p: Pkt, run: seq<Action>)
    requires LockInv(s) && InboundInv(s)
    requires Enabled(s, Client(PostPacket(0, p))) && !QuietIn(s, Client(PostPacket(0, p)))
    requires IsRun(Next(s, Client(PostPacket(0, p))), run)
    ensures p in FirstIn(After(Next(s, Client(PostPacket(0, p))), run))
  {
    var s1 := Next(s, Client(PostPacket(0, p)));
    StepLocks(s, Client(PostPacket(0, p)));
    NeverTaken(s1, run);
    assert FirstIn(s1)[|FirstIn(s)|] == p;
  }

  // ---- a run that overtakes ----

  /** A reader that is about to load an open websocket can read and handle a packet of it. */
  lemma ReadsWebsocket(s: State, p: Pkt)
    requires s.reader.Looking? && s.current < |s.conns| && s.conns[s.current] == Websocket(false)
    ensures var run := [Read(Load), Read(ReadWebsocket(p)), Read(HandleRead)];
      IsRun(s, run) && After(s, run) == s.(handled := s.handled + [FromWebsocket(p)])
  {
    var run := [Read(Load), Read(ReadWebsocket(p)), Read(HandleRead)];
    var s1 := s.(reader := Reading(s.current));
    var s2 := s.(reader := Holding(FromWebsocket(p)));
    var s3 := s.(handled := s.handled + [FromWebsocket(p)]);
    RunCons(s2, Read(HandleRead), [], s3);
    RunCons(s1, Read(ReadWebsocket(p)), [Read(HandleRead)] + [], s2);
    RunCons(s, Read(Load), [Read(ReadWebsocket(p))] + ([Read(HandleRead)] + []), s1);
    assert run == [Read(Load)] + ([Read(ReadWebsocket(p))] + ([Read(HandleRead)] + []));
  }

  const PROBE: seq<Action> :=
    [BeginUpgrade(WebsocketTransport)] + ([Upgrade(0, Pause)] + ([Upgrade(0, Probe(true))] + ([Upgrade(0, Pong)] + [])))

  const CLOSE: seq<Action> :=
    [Upgrade(0, PauseConn)] + ([Upgrade(0, Confirm(true))] + ([Upgrade(0, CloseOld)] + []))

  const SWAP: seq<Action> := [Upgrade(0, FlushOutEnd)] + ([Upgrade(0, Swap)] + [])

  lemma Probes(s: State)
    requires s.attempts == [] && |s.conns| == 1 && s.current == 0 && s.barrier == None
    requires s.transport == PollingTransport
    ensures IsRun(s, PROBE)
    ensures After(s, PROBE) == s.(conns := s.conns + [Websocket(false)], barrier := Some(0),
                                  attempts := [Attempt(WebsocketTransport, 1, Pausing)])
  {
    var c := s.conns[0];
    var s1 := Upgrading(s, c, Waiting);
    var s2 := Upgrading(s.(barrier := Some(0)), c, Probing);
    var s3 := Upgrading(s.(barrier := Some(0)), c, Ponging);
    var s4 := Upgrading(s.(barrier := Some(0)), c, Pausing);
    assert s.conns + [Websocket(false)] == [c, Websocket(false)];
    ProbeSteps(s, c);
    RunCons(s3, Upgrade(0, Pong), [], s4);
    RunCons(s2, Upgrade(0, Probe(true)), [Upgrade(0, Pong)] + [], s3);
    RunCons(s1, Upgrade(0, Pause), [Upgrade(0, Probe(true))] + ([Upgrade(0, Pong)] + []), s2);
    RunCons(s, BeginUpgrade(WebsocketTransport),
            [Upgrade(0, Pause)] + ([Upgrade(0, Probe(true))] + ([Upgrade(0, Pong)] + [])), s1);
  }

  lemma ProbeSteps(s: State, c: Conn)
    requires s.current == 0 && s.barrier == None
    ensures var s1, held := Upgrading(s, c, Waiting), s.(barrier := Some(0));
      && Enabled(s1, Upgrade(0, Pause)) && Next(s1, Upgrade(0, Pause)) == Upgrading(held, c, Probing)
      && Enabled(Upgrading(held, c, Probing), Upgrade(0, Probe(true)))
      && Next(Upgrading(held, c, Probing), Upgrade(0, Probe(true))) == Upgrading(held, c, Ponging)
      && Enabled(Upgrading(held, c, Ponging), Upgrade(0, Pong))
      && Next(Upgrading(held, c, Ponging), Upgrade(0, Pong)) == Upgrading(held, c, Pausing)
  {
  }

  lemma ClosesOld(s: State)
    requires s.attempts == [Attempt(WebsocketTransport, 1, Pausing)] && s.current == 0
    requires |s.conns| == 2 && s.conns[0].Polling? && !s.conns[0].paused && s.conns[1] == Websocket(false)
    ensures IsRun(s, CLOSE)
    ensures After(s, CLOSE) == s.(conns := [s.conns[0].(paused := true, closed := true), Websocket(false)],
                                  attempts := [Attempt(WebsocketTransport, 1, FlushingOut(0, []))])
  {
    var c := s.conns[0];
    var s1 := Upgrading(s, c.(paused := true), Confirming(0));
    var s2 := Upgrading(s, c.(paused := true), Pc.ClosingOld(0));
    var s3 := Upgrading(s, c.(paused := true, closed := true), FlushingOut(0, []));
    assert s == Upgrading(s, c, Pausing);
    CloseSteps(s, c);
    RunCons(s2, Upgrade(0, CloseOld), [], s3);
    RunCons(s1, Upgrade(0, Confirm(true)), [Upgrade(0, CloseOld)] + [], s2);
    RunCons(s, Upgrade(0, PauseConn), [Upgrade(0, Confirm(true))] + ([Upgrade(0, CloseOld)] + []), s1);
  }

  /** A session with one upgrade attempt. */
  function Upgrading(s: State, c: Conn, pc: Pc): State {
    s.(conns := [c, Websocket(false)], attempts := [Attempt(WebsocketTransport, 1, pc)])
  }

  lemma CloseSteps(s: State, c: Conn)
    requires s.current == 0 && c.Polling? && !c.paused
    ensures var s0, s1 := Upgrading(s, c, Pausing), Upgrading(s, c.(paused := true), Confirming(0));
      Enabled(s0, Upgrade(0, PauseConn)) && Next(s0, Upgrade(0, PauseConn)) == s1
    ensures var s1 := Upgrading(s, c.(paused := true), Confirming(0));
      && Enabled(s1, Upgrade(0, Confirm(true)))
      && Next(s1, Upgrade(0, Confirm(true))) == Upgrading(s, c.(paused := true), Pc.ClosingOld(0))
    ensures var s2 := Upgrading(s, c.(paused := true), Pc.ClosingOld(0));
      && Enabled(s2, Upgrade(0, CloseOld))
      && Next(s2, Upgrade(0, CloseOld)) == Upgrading(s, c.(paused := true, closed := true), FlushingOut(0, []))
  {
  }

  lemma Swaps(s: State)
    requires s.attempts == [Attempt(WebsocketTransport, 1, FlushingOut(0, []))] && s.current == 0
    requires |s.conns| == 2 && s.conns[0].Polling? && s.conns[0].out == [] && !s.em.hand.Selecting?
    ensures IsRun(s, SWAP)
    ensures After(s, SWAP) == s.(current := 1, transport := WebsocketTransport,
                                 attempts := [Attempt(WebsocketTransport, 1, FlushingIn(0, []))])
  {
    var s1 := Next(s, Upgrade(0, FlushOutEnd));
    var s2 := Next(s1, Upgrade(0, Swap));
    RunCons(s1, Upgrade(0, Swap), [], s2);
    RunCons(s, Upgrade(0, FlushOutEnd), [Upgrade(0, Swap)] + [], s1);
  }

  const POST: seq<Action> := [Client(StartPost)] + ([Client(PostPacket(0, 1))] + [])

  lemma Posts(s: State)
    requires s == Init(PollingTransport)
    ensures IsRun(s, POST)
    ensures After(s, POST) == s.(posts := multiset{0}, posted := [1], conns := [Polling([], [1], false, false, [], [])])
  {
    var s1 := s.(posts := multiset{0});
    var s2 := s1.(posted := [1], conns := [Polling([], [1], false, false, [], [])]);
    assert s.posts + multiset{0} == multiset{0};
    assert s.posted + [1] == [1] && [] + [1] == [1];
    RunCons(s1, Client(PostPacket(0, 1)), [], s2);
    RunCons(s, Client(StartPost), [Client(PostPacket(0, 1))] + [], s1);
  }

  const READ: seq<Action> := [Read(Load), Read(ReadWebsocket(2)), Read(HandleRead)]

  /**
   * A run in which a packet is posted, and a reader that never parks handles a packet of the new
   * connection while the posted one still waits.
   */
  lemma UnparkedReaderOvertakes()
    ensures var run := POST + (PROBE + (CLOSE + (SWAP + READ)));
      && IsRun(Init(PollingTransport), run)
      && After(Init(PollingTransport), run).posted == [1]
      && After(Init(PollingTransport), run).handled == [FromWebsocket(2)]
  {
    var s0 := Init(PollingTransport);
    Posts(s0);
    var s1 := After(s0, POST);
    Probes(s1);
    var s2 := After(s1, PROBE);
    ClosesOld(s2);
    var s3 := After(s2, CLOSE);
    Swaps(s3);
    var s4 := After(s3, SWAP);
    ReadsWebsocket(s4, 2);
    RunJoin(s3, SWAP, READ);
    RunJoin(s2, CLOSE, SWAP + READ);
    RunJoin(s1, PROBE, CLOSE + (SWAP + READ));
    RunJoin(s0, POST, PROBE + (CLOSE + (SWAP + READ)));
  }
}
