/** Where every incoming packet is, in every interleaving. */
module EngineIncoming {
  import opened Common
  import opened Engine
  import opened EngineOutbound

  function InOf(c: Conn, p: Pkt): nat {
    if c.Polling? then Times(c.inq, p) else 0
  }

  /** All polling in queues together. */
  function Ins(conns: seq<Conn>, p: Pkt): nat {
    if conns == [] then 0 else InOf(conns[0], p) + Ins(conns[1..], p)
  }

  function TakenOf(pc: Pc, p: Pkt): nat {
    if pc.FlushingIn? || pc.HandlingIn? then Times(pc.list, p) else 0
  }

  /** All take-over lists together. */
  function Takens(attempts: seq<Attempt>, p: Pkt): nat {
    if attempts == [] then 0 else TakenOf(attempts[0].pc, p) + Takens(attempts[1..], p)
  }

  function IsPosted(x: Source, p: Pkt): nat {
    if x == FromPolling(p) then 1 else 0
  }

  function HeldOf(r: Reader, p: Pkt): nat {
    if r.Holding? then IsPosted(r.x, p) else 0
  }

  /** How often a packet of a polling connection has been handled. */
  function HandledOf(h: seq<Source>, p: Pkt): nat {
    if h == [] then 0 else HandledOf(h[..|h| - 1], p) + IsPosted(h[|h| - 1], p)
  }

  lemma HandledSnoc(h: seq<Source>, x: Source, p: Pkt)
    ensures HandledOf(h + [x], p) == HandledOf(h, p) + IsPosted(x, p)
  {
    assert (h + [x])[..|h|] == h;
  }

  /** The occurrences of a packet in all the places a posted packet can be. */
  function InPlaces(s: State, p: Pkt): nat {
    Ins(s.conns, p) + HeldOf(s.reader, p) + Takens(s.attempts, p) + HandledOf(s.handled, p)
  }

  ghost predicate Kept(s: State, p: Pkt) {
    Times(s.posted, p) == InPlaces(s, p)
  }

  lemma {:induction false} InsUpdate(conns: seq<Conn>, i: nat, c: Conn, p: Pkt)
    requires i < |conns|
    ensures Ins(conns[i := c], p) == Ins(conns, p) - InOf(conns[i], p) + InOf(c, p)
  {
    if i > 0 {
      InsUpdate(conns[1..], i - 1, c, p);
      assert conns[i := c][1..] == conns[1..][i - 1 := c];
    } else {
      assert conns[0 := c][1..] == conns[1..];
    }
  }

  lemma {:induction false} TakensUpdate(attempts: seq<Attempt>, i: nat, t: Attempt, p: Pkt)
    requires i < |attempts|
    ensures Takens(attempts[i := t], p) == Takens(attempts, p) - TakenOf(attempts[i].pc, p) + TakenOf(t.pc, p)
  {
    if i > 0 {
      TakensUpdate(attempts[1..], i - 1, t, p);
      assert attempts[i := t][1..] == attempts[1..][i - 1 := t];
    } else {
      assert attempts[0 := t][1..] == attempts[1..];
    }
  }

  lemma {:induction false} InsAppend(conns: seq<Conn>, c: Conn, p: Pkt)
    ensures Ins(conns + [c], p) == Ins(conns, p) + InOf(c, p)
  {
    if conns != [] {
      InsAppend(conns[1..], c, p);
      assert (conns + [c])[1..] == conns[1..] + [c];
    }
  }

  lemma {:induction false} TakensAppend(attempts: seq<Attempt>, t: Attempt, p: Pkt)
    ensures Takens(attempts + [t], p) == Takens(attempts, p) + TakenOf(t.pc, p)
  {
    if attempts != [] {
      TakensAppend(attempts[1..], t, p);
      assert (attempts + [t])[1..] == attempts[1..] + [t];
    }
  }

  // ---- steps that move no incoming packet ----

  /** Changing anything of a connection but its in queue. */
  lemma SetConnKeeps(s: State, i: nat, c: Conn, p: Pkt)
    requires i < |s.conns| && InOf(c, p) == InOf(s.conns[i], p)
    ensures InPlaces(SetConn(s, i, c), p) == InPlaces(s, p)
  {
    InsUpdate(s.conns, i, c, p);
  }

  lemma SetPcKeeps(s: State, k: nat, pc: Pc, p: Pkt)
    requires k < |s.attempts|
    ensures InPlaces(SetPc(s, k, pc), p) == InPlaces(s, p) - TakenOf(s.attempts[k].pc, p) + TakenOf(pc, p)
  {
    TakensUpdate(s.attempts, k, s.attempts[k].(pc := pc), p);
  }

  lemma AbandonKeeps(s: State, k: nat, p: Pkt)
    requires k < |s.attempts| && s.attempts[k].conn < |s.conns| && TakenOf(s.attempts[k].pc, p) == 0
    ensures InPlaces(Abandon(s, k), p) == InPlaces(s, p)
  {
    var n := s.attempts[k].conn;
    SetConnKeeps(s, n, Closed(s.conns[n]), p);
    SetPcKeeps(SetConn(s, n, Closed(s.conns[n])), k, Leaving(false), p);
  }

  /** A step that changes neither the reader, the attempts nor what was posted and handled. */
  lemma SameKept(s: State, s': State, p: Pkt)
    requires Kept(s, p) && Ins(s'.conns, p) == Ins(s.conns, p) && s'.posted == s.posted
    requires HeldOf(s'.reader, p) == HeldOf(s.reader, p) && s'.handled == s.handled
    requires Takens(s'.attempts, p) == Takens(s.attempts, p)
    ensures Kept(s', p)
  {
  }

  lemma EmitterLeaves(s: State, a: EmitterAction)
    requires EmitterEnabled(s, a)
    ensures var s' := EmitterNext(s, a);
      && s'.posted == s.posted && s'.reader == s.reader && s'.handled == s.handled && s'.attempts == s.attempts
      && (!a.WriteOut? ==> s'.conns == s.conns)
  {
  }

  lemma WriteOutLeaves(s: State, p: Pkt)
    requires EmitterEnabled(s, WriteOut)
    ensures Ins(EmitterNext(s, WriteOut).conns, p) == Ins(s.conns, p)
  {
    var i, c := s.em.hand.c, s.conns[s.em.hand.c];
    InsUpdate(s.conns, i, c.(out := c.out + [s.em.hand.p], entered := c.entered + [s.em.hand.p]), p);
  }

  lemma EmitterKeeps(s: State, a: EmitterAction, p: Pkt)
    requires Kept(s, p) && EmitterEnabled(s, a)
    ensures Kept(EmitterNext(s, a), p)
  {
    EmitterLeaves(s, a);
    if a.WriteOut? { WriteOutLeaves(s, p); }
    SameKept(s, EmitterNext(s, a), p);
  }

  // ---- posting, reading and handling ----

  lemma PostKeeps(s: State, c: nat, x: Pkt, p: Pkt)
    requires Kept(s, p) && ClientEnabled(s, PostPacket(c, x))
    ensures Kept(ClientNext(s, PostPacket(c, x)), p)
  {
    TimesSnoc(s.posted, x, p);
    TimesSnoc(s.conns[c].inq, x, p);
    InsUpdate(s.conns, c, s.conns[c].(inq := s.conns[c].inq + [x]), p);
  }

  lemma ClientKeeps(s: State, a: ClientAction, p: Pkt)
    requires Kept(s, p) && ClientEnabled(s, a)
    ensures Kept(ClientNext(s, a), p)
  {
    if a.PostPacket? {
      PostKeeps(s, a.c, a.p, p);
    } else if a.GetAnswer? || a.StrayTake? {
      InsUpdate(s.conns, a.c, Dequeued(s.conns[a.c]), p);
    }
  }

  lemma ReadKeeps(s: State, p: Pkt)
    requires Kept(s, p) && ReaderEnabled(s, ReadPolling)
    ensures Kept(ReaderNext(s, ReadPolling), p)
  {
    var c := s.conns[s.reader.c];
    TimesHead(c.inq, p);
    InsUpdate(s.conns, s.reader.c, c.(inq := c.inq[1..]), p);
  }

  lemma HandleKeeps(s: State, p: Pkt)
    requires Kept(s, p) && ReaderEnabled(s, HandleRead)
    ensures Kept(ReaderNext(s, HandleRead), p)
  {
    HandledSnoc(s.handled, s.reader.x, p);
  }

  lemma ReaderKeeps(s: State, a: ReaderAction, p: Pkt)
    requires Kept(s, p) && ReaderEnabled(s, a)
    ensures Kept(ReaderNext(s, a), p)
  {
    if a.ReadPolling? { ReadKeeps(s, p); } else if a.HandleRead? { HandleKeeps(s, p); }
  }

  lemma CollectKeeps(s: State, k: nat, p: Pkt)
    requires Kept(s, p) && UpgradeEnabled(s, k, FlushInOne)
    ensures Kept(UpgradeNext(s, k, FlushInOne), p)
  {
    var t := s.attempts[k];
    var c := s.conns[t.pc.prev];
    TimesSnoc(t.pc.list, c.inq[0], p);
    TimesHead(c.inq, p);
    InsUpdate(s.conns, t.pc.prev, c.(inq := c.inq[1..]), p);
    TakensUpdate(s.attempts, k, t.(pc := FlushingIn(t.pc.prev, t.pc.list + [c.inq[0]])), p);
  }

  lemma HandledMore(s: State, x: Source, p: Pkt)
    ensures InPlaces(s.(handled := s.handled + [x]), p) == InPlaces(s, p) + IsPosted(x, p)
  {
    HandledSnoc(s.handled, x, p);
  }

  lemma FirstTaken(list: seq<Pkt>, prev: nat, p: Pkt)
    requires list != []
    ensures TakenOf(HandlingIn(prev, list), p)
         == IsPosted(FromPolling(list[0]), p) + TakenOf(HandlingIn(prev, list[1..]), p)
  {
    TimesHead(list, p);
  }

  lemma HandleInKeeps(s: State, k: nat, p: Pkt)
    requires Kept(s, p) && UpgradeEnabled(s, k, HandleInOne)
    ensures Kept(UpgradeNext(s, k, HandleInOne), p)
  {
    var pc := s.attempts[k].pc;
    var x := FromPolling(pc.list[0]);
    FirstTaken(pc.list, pc.prev, p);
    HandledMore(s, x, p);
    SetPcKeeps(s.(handled := s.handled + [x]), k, HandlingIn(pc.prev, pc.list[1..]), p);
  }

  lemma ChangeKeeps(s: State, k: nat, u: UpgradeAction, p: Pkt)
    requires Kept(s, p) && UpgradeEnabled(s, k, u)
    requires u.PauseConn? || u == Confirm(false) || u.ConfirmFail? || u.CloseOld? || u.FlushOutOne?
    ensures Kept(UpgradeNext(s, k, u), p)
  {
    var t := s.attempts[k];
    match u
    case PauseConn =>
      var c := s.conns[s.current];
      if c.Websocket? {
        AbandonKeeps(s, k, p);
      } else if !c.paused {
        SetConnKeeps(s, s.current, c.(paused := true), p);
        SetPcKeeps(SetConn(s, s.current, c.(paused := true)), k, Confirming(s.current), p);
      }
    case Confirm(_) | ConfirmFail =>
      var c := s.conns[t.pc.prev].(paused := false);
      SetConnKeeps(s, t.pc.prev, c, p);
      AbandonKeeps(SetConn(s, t.pc.prev, c), k, p);
    case CloseOld =>
      var c := Closed(s.conns[t.pc.prev]);
      SetConnKeeps(s, t.pc.prev, c, p);
      SetPcKeeps(SetConn(s, t.pc.prev, c), k, FlushingOut(t.pc.prev, []), p);
    case FlushOutOne =>
      var c := s.conns[t.pc.prev];
      SetConnKeeps(s, t.pc.prev, Dequeued(c), p);
      SetPcKeeps(SetConn(s, t.pc.prev, Dequeued(c)), k, FlushingOut(t.pc.prev, t.pc.list + [c.out[0]]), p);
  }

  /** The other steps of an upgrade move no incoming packet. */
  lemma AdvanceKeeps(s: State, k: nat, u: UpgradeAction, p: Pkt)
    requires Kept(s, p) && UpgradeEnabled(s, k, u)
    requires u.Pause? || u == Probe(true) || u.Pong? || u == Confirm(true) || u.FlushOutEnd? || u.Forward?
             || u.Swap? || u.FlushInEnd? || u.HandleInEnd? || u.Resume?
    ensures Kept(UpgradeNext(s, k, u), p)
  {
    var s' := UpgradeNext(s, k, u);
    AdvanceLeaves(s, k, u, p);
    TakensUpdate(s.attempts, k, s'.attempts[k], p);
    SameKept(s, s', p);
  }

  lemma AdvanceLeaves(s: State, k: nat, u: UpgradeAction, p: Pkt)
    requires UpgradeEnabled(s, k, u)
    requires u.Pause? || u == Probe(true) || u.Pong? || u == Confirm(true) || u.FlushOutEnd? || u.Forward?
             || u.Swap? || u.FlushInEnd? || u.HandleInEnd? || u.Resume?
    ensures var s' := UpgradeNext(s, k, u);
      && s'.posted == s.posted && s'.reader == s.reader && s'.handled == s.handled && s'.conns == s.conns
      && |s'.attempts| == |s.attempts| && s'.attempts == s.attempts[k := s'.attempts[k]]
      && TakenOf(s'.attempts[k].pc, p) == TakenOf(s.attempts[k].pc, p)
  {
  }

  lemma UpgradeKeeps(s: State, k: nat, u: UpgradeAction, p: Pkt)
    requires Kept(s, p) && UpgradeEnabled(s, k, u)
    ensures Kept(UpgradeNext(s, k, u), p)
  {
    match u
    case FlushInOne => CollectKeeps(s, k, p);
    case HandleInOne => HandleInKeeps(s, k, p);
    case PauseConn | Confirm(false) | ConfirmFail | CloseOld | FlushOutOne => ChangeKeeps(s, k, u, p);
    case Probe(false) | ProbeFail | PongFail => AbandonKeeps(s, k, p);
    case _ => AdvanceKeeps(s, k, u, p);
  }

  lemma StepKeeps(s: State, a: Action, p: Pkt)
    requires Kept(s, p) && Enabled(s, a)
    ensures Kept(Next(s, a), p)
  {
    match a
    case Emit(e) => EmitterKeeps(s, e, p);
    case Client(c) => ClientKeeps(s, c, p);
    case Read(r) => ReaderKeeps(s, r, p);
    case BeginUpgrade(target) =>
      InsAppend(s.conns, NewConn(target), p);
      TakensAppend(s.attempts, Attempt(target, |s.conns|, Waiting), p);
    case Upgrade(k, u) => UpgradeKeeps(s, k, u, p);
    case CloseStart =>
    case CloseConn => SetConnKeeps(s.(closing := Finished), s.current, Closed(s.conns[s.current]), p);
  }

  lemma {:induction false} RunKeeps(s: State, run: seq<Action>, p: Pkt)
    requires Kept(s, p) && IsRun(s, run)
    ensures Kept(After(s, run), p)
    decreases |run|
  {
    if run != [] {
      StepKeeps(s, run[0], p);
      RunKeeps(Next(s, run[0]), run[1..], p);
    }
  }

  /**
   * In every run, quiet or not, each posted packet is in exactly one of: an in queue, the reader's
   * hand, a take-over list, handled.
   */
  lemma PostedOnePlace(t: Transport, run: seq<Action>, p: Pkt)
    requires IsRun(Init(t), run)
    ensures InPlaces(After(Init(t), run), p) == Times(After(Init(t), run).posted, p)
  {
    assert Init(t).conns[1..] == [] && Ins(Init(t).conns, p) == 0;
    RunKeeps(Init(t), run, p);
  }
}
