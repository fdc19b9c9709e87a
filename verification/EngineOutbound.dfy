/** Where every outgoing packet is, in every interleaving. */
module EngineOutbound {
  import opened Common
  import opened Engine

  /** How often a packet occurs in a sequence. */
  function Times(s: seq<Pkt>, p: Pkt): nat {
    multiset(s)[p]
  }

  lemma TimesSnoc(s: seq<Pkt>, x: Pkt, p: Pkt)
    ensures Times(s + [x], p) == Times(s, p) + if x == p then 1 else 0
  {
  }

  lemma TimesHead(s: seq<Pkt>, p: Pkt)
    requires s != []
    ensures Times(s, p) == (if s[0] == p then 1 else 0) + Times(s[1..], p)
  {
    assert s == [s[0]] + s[1..];
  }

  function OutOf(c: Conn, p: Pkt): nat {
    if c.Polling? then Times(c.out, p) else 0
  }

  /** All polling out queues together. */
  function Outs(conns: seq<Conn>, p: Pkt): nat {
    if conns == [] then 0 else OutOf(conns[0], p) + Outs(conns[1..], p)
  }

  function ListOf(pc: Pc, p: Pkt): nat {
    if pc.FlushingOut? || pc.Forwarding? then Times(pc.list, p) else 0
  }

  /** All flush lists together. */
  function Lists(attempts: seq<Attempt>, p: Pkt): nat {
    if attempts == [] then 0 else ListOf(attempts[0].pc, p) + Lists(attempts[1..], p)
  }

  function HandOf(h: Hand, p: Pkt): nat {
    if !h.Idle? && h.p == p then 1 else 0
  }

  /** The occurrences of a packet in all the places an accepted packet can be. */
  function Places(s: State, p: Pkt): nat {
    Times(s.em.queue, p) + HandOf(s.em.hand, p) + Outs(s.conns, p) + Lists(s.attempts, p)
    + Times(s.answered, p) + Times(s.written, p) + Times(s.refused, p) + Times(s.swallowed, p)
  }

  lemma {:induction false} OutsUpdate(conns: seq<Conn>, i: nat, c: Conn, p: Pkt)
    requires i < |conns|
    ensures Outs(conns[i := c], p) == Outs(conns, p) - OutOf(conns[i], p) + OutOf(c, p)
  {
    if i > 0 {
      OutsUpdate(conns[1..], i - 1, c, p);
      assert conns[i := c][1..] == conns[1..][i - 1 := c];
    } else {
      assert conns[0 := c][1..] == conns[1..];
    }
  }

  lemma {:induction false} ListsUpdate(attempts: seq<Attempt>, i: nat, t: Attempt, p: Pkt)
    requires i < |attempts|
    ensures Lists(attempts[i := t], p) == Lists(attempts, p) - ListOf(attempts[i].pc, p) + ListOf(t.pc, p)
  {
    if i > 0 {
      ListsUpdate(attempts[1..], i - 1, t, p);
      assert attempts[i := t][1..] == attempts[1..][i - 1 := t];
    } else {
      assert attempts[0 := t][1..] == attempts[1..];
    }
  }

  lemma {:induction false} OutsAppend(conns: seq<Conn>, c: Conn, p: Pkt)
    ensures Outs(conns + [c], p) == Outs(conns, p) + OutOf(c, p)
  {
    if conns != [] {
      OutsAppend(conns[1..], c, p);
      assert (conns + [c])[1..] == conns[1..] + [c];
    }
  }

  lemma {:induction false} ListsAppend(attempts: seq<Attempt>, t: Attempt, p: Pkt)
    ensures Lists(attempts + [t], p) == Lists(attempts, p) + ListOf(t.pc, p)
  {
    if attempts != [] {
      ListsAppend(attempts[1..], t, p);
      assert (attempts + [t])[1..] == attempts[1..] + [t];
    }
  }

  /** Each occurrence of a packet in the accepted order is in exactly one place. */
  ghost predicate Conserved(s: State, p: Pkt) {
    Times(s.em.accepted, p) == Places(s, p)
  }

  lemma QueueConserves(s: State, a: EmitterAction, p: Pkt)
    requires Conserved(s, p) && EmitterEnabled(s, a)
    requires !a.BeginWrite? && !a.WriteOut? && !a.WriteWebsocket? && !a.WriteRefused? && !a.WriteFail?
    ensures Conserved(EmitterNext(s, a), p)
  {
    if a.Submit? {
      TimesSnoc(s.em.accepted, a.p, p);
      TimesSnoc(s.em.queue, a.p, p);
    } else if a.Take? {
      TimesHead(s.em.queue, p);
    }
  }

  lemma BeginWriteConserves(s: State, p: Pkt)
    requires Conserved(s, p) && EmitterEnabled(s, BeginWrite)
    ensures Conserved(EmitterNext(s, BeginWrite), p)
  {
    var x := s.em.hand.p;
    TimesSnoc(s.refused, x, p);
    var e := s.em.(handed := s.em.handed + [x]);
    if s.conns[s.current].Polling? && s.conns[s.current].closed {
      HandConserves(s, s.(em := e.(hand := Idle), refused := s.refused + [x]), p);
    } else {
      HandConserves(s, s.(em := e.(hand := Selecting(x, s.current))), p);
    }
  }

  /** A step that only moves the packet in the emitter's hand, perhaps to the refused ones. */
  lemma HandConserves(s: State, s': State, p: Pkt)
    requires Conserved(s, p)
    requires s'.em.queue == s.em.queue && s'.em.accepted == s.em.accepted && s'.conns == s.conns
    requires s'.attempts == s.attempts && s'.answered == s.answered && s'.written == s.written
    requires s'.swallowed == s.swallowed
    requires HandOf(s'.em.hand, p) + Times(s'.refused, p) == HandOf(s.em.hand, p) + Times(s.refused, p)
    ensures Conserved(s', p)
  {
  }

  lemma WriteWebsocketConserves(s: State, p: Pkt)
    requires Conserved(s, p) && EmitterEnabled(s, WriteWebsocket)
    ensures Conserved(EmitterNext(s, WriteWebsocket), p)
  {
    TimesSnoc(s.written, s.em.hand.p, p);
  }

  lemma WriteFailConserves(s: State, a: EmitterAction, p: Pkt)
    requires Conserved(s, p) && EmitterEnabled(s, a) && (a.WriteFail? || a.WriteRefused?)
    ensures Conserved(EmitterNext(s, a), p)
  {
    TimesSnoc(s.refused, s.em.hand.p, p);
  }

  lemma WriteOutConserves(s: State, p: Pkt)
    requires Conserved(s, p) && EmitterEnabled(s, WriteOut)
    ensures Conserved(EmitterNext(s, WriteOut), p)
  {
    var i, x := s.em.hand.c, s.em.hand.p;
    var c := s.conns[i];
    var c' := c.(out := c.out + [x], entered := c.entered + [x]);
    TimesSnoc(c.out, x, p);
    assert OutOf(c', p) == OutOf(c, p) + HandOf(s.em.hand, p);
    OutsUpdate(s.conns, i, c', p);
  }

  lemma EmitterConserves(s: State, a: EmitterAction, p: Pkt)
    requires Conserved(s, p) && EmitterEnabled(s, a)
    ensures Conserved(EmitterNext(s, a), p)
  {
    match a
    case BeginWrite => BeginWriteConserves(s, p);
    case WriteWebsocket => WriteWebsocketConserves(s, p);
    case WriteRefused | WriteFail => WriteFailConserves(s, a, p);
    case WriteOut => WriteOutConserves(s, p);
    case _ => QueueConserves(s, a, p);
  }

  lemma ClientConserves(s: State, a: ClientAction, p: Pkt)
    requires Conserved(s, p) && ClientEnabled(s, a)
    ensures Conserved(ClientNext(s, a), p)
  {
    match a
    case GetAnswer(c) =>
      TimesSnoc(s.answered, s.conns[c].out[0], p);
      TimesHead(s.conns[c].out, p);
      OutsUpdate(s.conns, c, Dequeued(s.conns[c]), p);
    case StrayTake(c) =>
      TimesSnoc(s.swallowed, s.conns[c].out[0], p);
      TimesHead(s.conns[c].out, p);
      OutsUpdate(s.conns, c, Dequeued(s.conns[c]), p);
    case PostPacket(c, x) => OutsUpdate(s.conns, c, s.conns[c].(inq := s.conns[c].inq + [x]), p);
    case _ =>
  }

  lemma ReaderConserves(s: State, a: ReaderAction, p: Pkt)
    requires Conserved(s, p) && ReaderEnabled(s, a)
    ensures Conserved(ReaderNext(s, a), p)
  {
    if a.ReadPolling? {
      var c := s.conns[s.reader.c];
      OutsUpdate(s.conns, s.reader.c, c.(inq := c.inq[1..]), p);
    }
  }

  /** Changing a connection's flags or in queue moves no outgoing packet. */
  lemma SetConnConserves(s: State, i: nat, c: Conn, p: Pkt)
    requires i < |s.conns| && OutOf(c, p) == OutOf(s.conns[i], p)
    ensures Places(SetConn(s, i, c), p) == Places(s, p)
  {
    OutsUpdate(s.conns, i, c, p);
  }

  lemma SetPcConserves(s: State, k: nat, pc: Pc, p: Pkt)
    requires k < |s.attempts|
    ensures Places(SetPc(s, k, pc), p) == Places(s, p) - ListOf(s.attempts[k].pc, p) + ListOf(pc, p)
  {
    ListsUpdate(s.attempts, k, s.attempts[k].(pc := pc), p);
  }

  lemma AbandonConserves(s: State, k: nat, p: Pkt)
    requires k < |s.attempts| && s.attempts[k].conn < |s.conns| && ListOf(s.attempts[k].pc, p) == 0
    ensures Places(Abandon(s, k), p) == Places(s, p)
  {
    var n := s.attempts[k].conn;
    SetConnConserves(s, n, Closed(s.conns[n]), p);
    SetPcConserves(SetConn(s, n, Closed(s.conns[n])), k, Leaving(false), p);
  }

  lemma FlushConserves(s: State, k: nat, p: Pkt)
    requires Conserved(s, p) && UpgradeEnabled(s, k, FlushOutOne)
    ensures Conserved(UpgradeNext(s, k, FlushOutOne), p)
  {
    var t := s.attempts[k];
    var c := s.conns[t.pc.prev];
    TimesSnoc(t.pc.list, c.out[0], p);
    TimesHead(c.out, p);
    OutsUpdate(s.conns, t.pc.prev, Dequeued(c), p);
    ListsUpdate(s.attempts, k, t.(pc := FlushingOut(t.pc.prev, t.pc.list + [c.out[0]])), p);
  }

  lemma ForwardConserves(s: State, k: nat, ok: bool, p: Pkt)
    requires Conserved(s, p) && UpgradeEnabled(s, k, Forward(ok))
    ensures Conserved(UpgradeNext(s, k, Forward(ok)), p)
  {
    var t := s.attempts[k];
    TimesHead(t.pc.list, p);
    ListsUpdate(s.attempts, k, t.(pc := Forwarding(t.pc.prev, t.pc.list[1..])), p);
    if ok {
      TimesSnoc(s.written, t.pc.list[0], p);
    } else {
      TimesSnoc(s.refused, t.pc.list[0], p);
    }
  }

  lemma PauseConserves(s: State, k: nat, u: UpgradeAction, p: Pkt)
    requires Conserved(s, p) && UpgradeEnabled(s, k, u)
    requires u.PauseConn? || u.Confirm? || u.ConfirmFail?
    ensures Conserved(UpgradeNext(s, k, u), p)
  {
    var t := s.attempts[k];
    match u
    case PauseConn =>
      var c := s.conns[s.current];
      if c.Websocket? {
        AbandonConserves(s, k, p);
      } else if !c.paused {
        SetConnConserves(s, s.current, c.(paused := true), p);
        SetPcConserves(SetConn(s, s.current, c.(paused := true)), k, Confirming(s.current), p);
      }
    case Confirm(true) => SetPcConserves(s, k, ClosingOld(t.pc.prev), p);
    case Confirm(false) | ConfirmFail =>
      var c := s.conns[t.pc.prev].(paused := false);
      SetConnConserves(s, t.pc.prev, c, p);
      AbandonConserves(SetConn(s, t.pc.prev, c), k, p);
  }

  lemma OldConnConserves(s: State, k: nat, u: UpgradeAction, p: Pkt)
    requires Conserved(s, p) && UpgradeEnabled(s, k, u) && (u.CloseOld? || u.FlushInOne?)
    ensures Conserved(UpgradeNext(s, k, u), p)
  {
    var t := s.attempts[k];
    match u
    case CloseOld =>
      var c := Closed(s.conns[t.pc.prev]);
      SetConnConserves(s, t.pc.prev, c, p);
      SetPcConserves(SetConn(s, t.pc.prev, c), k, FlushingOut(t.pc.prev, []), p);
    case FlushInOne =>
      var c := s.conns[t.pc.prev];
      SetConnConserves(s, t.pc.prev, c.(inq := c.inq[1..]), p);
      SetPcConserves(SetConn(s, t.pc.prev, c.(inq := c.inq[1..])), k, FlushingIn(t.pc.prev, t.pc.list + [c.inq[0]]), p);
  }

  lemma UpgradeConserves(s: State, k: nat, u: UpgradeAction, p: Pkt)
    requires Conserved(s, p) && UpgradeEnabled(s, k, u)
    ensures Conserved(UpgradeNext(s, k, u), p)
  {
    match u
    case FlushOutOne => FlushConserves(s, k, p);
    case Forward(ok) => ForwardConserves(s, k, ok, p);
    case PauseConn | Confirm(_) | ConfirmFail => PauseConserves(s, k, u, p);
    case CloseOld | FlushInOne => OldConnConserves(s, k, u, p);
    case Probe(false) | ProbeFail | PongFail => AbandonConserves(s, k, p);
    case _ => AdvanceConserves(s, k, u, p);
  }

  /** The other steps of an upgrade move no outgoing packet. */
  lemma AdvanceConserves(s: State, k: nat, u: UpgradeAction, p: Pkt)
    requires Conserved(s, p) && UpgradeEnabled(s, k, u)
    requires u.Pause? || u == Probe(true) || u.Pong? || u.FlushOutEnd? || u.Swap? || u.FlushInEnd?
             || u.HandleInOne? || u.HandleInEnd? || u.Resume?
    ensures Conserved(UpgradeNext(s, k, u), p)
  {
    ListsUpdate(s.attempts, k, UpgradeNext(s, k, u).attempts[k], p);
  }

  lemma StepConserves(s: State, a: Action, p: Pkt)
    requires Conserved(s, p) && Enabled(s, a)
    ensures Conserved(Next(s, a), p)
  {
    match a
    case Emit(e) => EmitterConserves(s, e, p);
    case Client(c) => ClientConserves(s, c, p);
    case Read(r) => ReaderConserves(s, r, p);
    case BeginUpgrade(target) =>
      OutsAppend(s.conns, NewConn(target), p);
      ListsAppend(s.attempts, Attempt(target, |s.conns|, Waiting), p);
    case Upgrade(k, u) => UpgradeConserves(s, k, u, p);
    case CloseStart =>
    case CloseConn => SetConnConserves(s.(closing := Finished), s.current, Closed(s.conns[s.current]), p);
  }

  lemma {:induction false} RunConserves(s: State, run: seq<Action>, p: Pkt)
    requires Conserved(s, p) && IsRun(s, run)
    ensures Conserved(After(s, run), p)
    decreases |run|
  {
    if run != [] {
      StepConserves(s, run[0], p);
      RunConserves(Next(s, run[0]), run[1..], p);
    }
  }

  /**
   * In every run, whatever the interleaving, each packet accepted once is in exactly one of: the
   * emitter's queue, its hand, a polling out queue, a flush list, answered, written, refused, or
   * swallowed by the request of an attempt that failed.
   */
  lemma ExactlyOnePlace(t: Transport, run: seq<Action>, p: Pkt)
    requires IsRun(Init(t), run)
    ensures Places(After(Init(t), run), p) == Times(After(Init(t), run).em.accepted, p)
  {
    assert Init(t).conns[1..] == [] && Outs(Init(t).conns, p) == 0;
    RunConserves(Init(t), run, p);
  }

  // ---- each out queue is first in, first out ----

  /** What has left the out queue, followed by what is in it, is what entered it. */
  ghost predicate FifoConn(c: Conn) {
    c.Polling? ==> c.left + c.out == c.entered
  }

  ghost predicate Fifo(s: State) {
    forall i | 0 <= i < |s.conns| :: FifoConn(s.conns[i])
  }

  lemma EmitterFifo(s: State, a: EmitterAction)
    requires Fifo(s) && EmitterEnabled(s, a)
    ensures Fifo(EmitterNext(s, a))
  {
    if a.WriteOut? {
      var c := s.conns[s.em.hand.c];
      assert FifoConn(c);
      CatAssoc(c.left, c.out, [s.em.hand.p]);
    }
  }

  lemma ClientFifo(s: State, a: ClientAction)
    requires Fifo(s) && ClientEnabled(s, a)
    ensures Fifo(ClientNext(s, a))
  {
    match a
    case GetAnswer(c) => assert FifoConn(s.conns[c]); DequeueFifo(s.conns[c]);
    case StrayTake(c) => assert FifoConn(s.conns[c]); DequeueFifo(s.conns[c]);
    case PostPacket(c, _) => assert FifoConn(s.conns[c]);
    case _ =>
  }

  lemma SetConnFifo(s: State, i: nat, c: Conn)
    requires Fifo(s) && i < |s.conns| && FifoConn(c)
    ensures Fifo(SetConn(s, i, c))
  {
  }

  lemma AbandonFifo(s: State, k: nat)
    requires Fifo(s) && k < |s.attempts| && s.attempts[k].conn < |s.conns|
    ensures Fifo(Abandon(s, k))
  {
    var n := s.attempts[k].conn;
    assert FifoConn(s.conns[n]);
    SetConnFifo(s, n, Closed(s.conns[n]));
  }

  lemma UpgradeFifo(s: State, k: nat, u: UpgradeAction)
    requires Fifo(s) && UpgradeEnabled(s, k, u)
    ensures Fifo(UpgradeNext(s, k, u))
  {
    var t := s.attempts[k];
    match u
    case Probe(false) | ProbeFail | PongFail => AbandonFifo(s, k);
    case PauseConn =>
      var c := s.conns[s.current];
      assert FifoConn(c);
      if c.Websocket? { AbandonFifo(s, k); } else { SetConnFifo(s, s.current, c.(paused := true)); }
    case Confirm(false) | ConfirmFail =>
      var c := s.conns[t.pc.prev];
      assert FifoConn(c);
      SetConnFifo(s, t.pc.prev, c.(paused := false));
      AbandonFifo(SetConn(s, t.pc.prev, c.(paused := false)), k);
    case CloseOld =>
      assert FifoConn(s.conns[t.pc.prev]);
      SetConnFifo(s, t.pc.prev, Closed(s.conns[t.pc.prev]));
    case FlushOutOne =>
      assert FifoConn(s.conns[t.pc.prev]);
      DequeueFifo(s.conns[t.pc.prev]);
      SetConnFifo(s, t.pc.prev, Dequeued(s.conns[t.pc.prev]));
    case FlushInOne =>
      var c := s.conns[t.pc.prev];
      assert FifoConn(c);
      SetConnFifo(s, t.pc.prev, c.(inq := c.inq[1..]));
    case _ =>
  }

  lemma StepFifo(s: State, a: Action)
    requires Fifo(s) && Enabled(s, a)
    ensures Fifo(Next(s, a))
  {
    match a
    case Emit(e) => EmitterFifo(s, e);
    case Client(c) => ClientFifo(s, c);
    case Read(ReadPolling) => assert FifoConn(s.conns[s.reader.c]);
    case Upgrade(k, u) => UpgradeFifo(s, k, u);
    case CloseConn => assert FifoConn(s.conns[s.current]);
    case _ =>
  }

  lemma DequeueFifo(c: Conn)
    requires c.Polling? && c.out != [] && c.left + c.out == c.entered
    ensures Dequeued(c).left + Dequeued(c).out == c.entered
  {
    assert c.out == [c.out[0]] + c.out[1..];
    CatAssoc(c.left, [c.out[0]], c.out[1..]);
  }

  /** Whoever receives from an out queue, packets leave it in the order they entered. */
  lemma {:induction false} RunFifo(s: State, run: seq<Action>)
    requires Fifo(s) && IsRun(s, run)
    ensures Fifo(After(s, run))
    decreases |run|
  {
    if run != [] {
      StepFifo(s, run[0]);
      RunFifo(Next(s, run[0]), run[1..]);
    }
  }
}
