/** The upgrade state machine: mutual exclusion, pausing, exits and the one transport change. */
module EngineLocks {
  import opened Common
  import opened Engine

  function Kind(c: Conn): Transport {
    if c.Polling? then PollingTransport else WebsocketTransport
  }

  /** Between barrier.Pause and barrier.Resume. */
  predicate Critical(pc: Pc) {
    !pc.Waiting? && !pc.Returned?
  }

  /** From conn.Pause to the swap. */
  predicate HasPaused(pc: Pc) {
    pc.Confirming? || pc.ClosingOld? || pc.FlushingOut? || pc.Forwarding?
  }

  predicate Swapped(pc: Pc) {
    pc.FlushingIn? || pc.HandlingIn? || (pc.Leaving? && pc.swapped) || (pc.Returned? && pc.swapped)
  }

  predicate GaveUp(pc: Pc) {
    (pc.Leaving? && !pc.swapped) || (pc.Returned? && !pc.swapped)
  }

  /** Shape of the session: one initial connection, one more per attempt. */
  ghost predicate Shape(s: State) {
    && |s.conns| == |s.attempts| + 1
    && s.current < |s.conns|
    && s.transport == Kind(s.conns[s.current])
    && (s.current > 0 ==> s.conns[s.current].Websocket? && s.conns[0].Polling?)
    && (s.barrier.Some? ==> s.barrier.value < |s.attempts|)
    && !s.panicked
  }

  /** While it is the session's connection, the polling connection is paused only by the barrier's holder. */
  ghost predicate PausedByHolder(s: State)
    requires Shape(s)
  {
    s.current == 0 && s.conns[0].Polling? && s.conns[0].paused ==>
      s.barrier.Some? && HasPaused(s.attempts[s.barrier.value].pc)
  }

  /** What one attempt knows at each point of upgrade. */
  ghost predicate AttemptOk(s: State, j: nat)
    requires Shape(s) && j < |s.attempts|
  {
    var t := s.attempts[j];
    && t.conn == j + 1 && Kind(s.conns[j + 1]) == t.target
    && (Critical(t.pc) <==> s.barrier == Some(j))
    && (Swapped(t.pc) <==> s.current == j + 1)
    && (t.pc.Ponging? || t.pc.Pausing? ==> t.target == WebsocketTransport)
    && (HasPaused(t.pc) ==>
          t.pc.prev == 0 == s.current && s.conns[0].Polling? && s.conns[0].paused && t.target == WebsocketTransport)
    && (t.pc.FlushingOut? || t.pc.Forwarding? || Swapped(t.pc) ==> s.conns[0].Polling? && s.conns[0].closed)
    && (t.pc.FlushingIn? || t.pc.HandlingIn? ==> t.pc.prev == 0)
    && (GaveUp(t.pc) ==> s.conns[j + 1].closed)
    && (!GaveUp(t.pc) && !Swapped(t.pc) ==> !s.conns[j + 1].closed)
  }

  /** Connections that are not the initial one never queue anything. */
  ghost predicate OthersUnused(s: State) {
    FirstQueuesOnly(s.conns) && OnFirst(s.gets) && OnFirst(s.posts) && OnFirst(s.strays)
  }

  ghost predicate UsersOk(s: State) {
    && (s.em.hand.Selecting? ==> s.em.hand.c == s.current)
    && (s.reader.Reading? ==> s.reader.c == 0 || s.reader.c == s.current)
  }

  ghost predicate LockInv(s: State) {
    && Shape(s) && PausedByHolder(s) && OthersUnused(s) && UsersOk(s)
    && forall j | 0 <= j < |s.attempts| :: AttemptOk(s, j)
  }

  lemma InitLocks(t: Transport)
    ensures LockInv(Init(t))
  {
  }

  // ---- what a step leaves alone ----

  /** The same kind of connection, open or closed and paused or not as before. */
  ghost predicate SameFlags(c: Conn, d: Conn) {
    c.Polling? == d.Polling? && c.closed == d.closed && (c.Polling? ==> c.paused == d.paused)
  }

  /** A step that moves packets only. */
  ghost predicate Frame(s: State, s': State) {
    && s'.attempts == s.attempts && s'.barrier == s.barrier && s'.current == s.current
    && s'.transport == s.transport && s'.panicked == s.panicked && s'.closing == s.closing
    && AllSameFlags(s.conns, s'.conns)
  }

  ghost predicate AllSameFlags(cs: seq<Conn>, ds: seq<Conn>) {
    |ds| == |cs| && forall i | 0 <= i < |cs| :: SameFlags(cs[i], ds[i])
  }

  lemma OneChanged(cs: seq<Conn>, i: nat, d: Conn)
    requires i < |cs| && SameFlags(cs[i], d)
    ensures AllSameFlags(cs, cs[i := d])
  {
  }

  lemma NoneChanged(cs: seq<Conn>)
    ensures AllSameFlags(cs, cs)
  {
  }

  lemma FrameAttempt(s: State, s': State, j: nat)
    requires Shape(s) && Frame(s, s') && j < |s.attempts| && AttemptOk(s, j)
    ensures Shape(s') && AttemptOk(s', j)
  {
    assert SameFlags(s.conns[0], s'.conns[0]) && SameFlags(s.conns[j + 1], s'.conns[j + 1]);
  }

  lemma FrameLocks(s: State, s': State)
    requires LockInv(s) && Frame(s, s') && OthersUnused(s') && UsersOk(s')
    ensures LockInv(s')
  {
    assert SameFlags(s.conns[0], s'.conns[0]) && SameFlags(s.conns[s.current], s'.conns[s.current]);
    forall j | 0 <= j < |s'.attempts| ensures AttemptOk(s', j) {
      FrameAttempt(s, s', j);
    }
  }

  lemma EmitterFrame(s: State, a: EmitterAction)
    requires EmitterEnabled(s, a)
    ensures Frame(s, EmitterNext(s, a))
  {
    if a.WriteOut? {
      OneChanged(s.conns, s.em.hand.c, EmitterNext(s, a).conns[s.em.hand.c]);
    } else {
      NoneChanged(s.conns);
    }
  }

  lemma ClientFrame(s: State, a: ClientAction)
    requires ClientEnabled(s, a)
    ensures Frame(s, ClientNext(s, a))
  {
    match a
    case GetAnswer(c) => OneChanged(s.conns, c, Dequeued(s.conns[c]));
    case StrayTake(c) => OneChanged(s.conns, c, Dequeued(s.conns[c]));
    case PostPacket(c, p) => OneChanged(s.conns, c, s.conns[c].(inq := s.conns[c].inq + [p]));
    case _ => NoneChanged(s.conns);
  }

  lemma ReaderFrame(s: State, a: ReaderAction)
    requires ReaderEnabled(s, a)
    ensures Frame(s, ReaderNext(s, a))
  {
    if a.ReadPolling? {
      var c := s.conns[s.reader.c];
      OneChanged(s.conns, s.reader.c, c.(inq := c.inq[1..]));
    } else {
      NoneChanged(s.conns);
    }
  }

  lemma EmitterUsers(s: State, a: EmitterAction)
    requires Shape(s) && OthersUnused(s) && UsersOk(s) && EmitterEnabled(s, a)
    ensures OthersUnused(EmitterNext(s, a)) && UsersOk(EmitterNext(s, a))
  {
  }

  /** Requests of any kind are on the initial connection only. */
  ghost predicate OnFirst(requests: multiset<nat>) {
    forall c | c in requests :: c == 0
  }

  lemma OneMore(requests: multiset<nat>, c: nat)
    requires OnFirst(requests)
    ensures OnFirst(requests - multiset{c}) && (c == 0 ==> OnFirst(requests + multiset{c}))
  {
  }

  /** No connection but the initial one queues anything. */
  ghost predicate FirstQueuesOnly(conns: seq<Conn>) {
    forall i | 1 <= i < |conns| && conns[i].Polling? :: conns[i].out == [] && conns[i].inq == []
  }

  lemma QueueOnFirst(s: State, a: ClientAction)
    requires OthersUnused(s) && ClientEnabled(s, a)
    ensures FirstQueuesOnly(ClientNext(s, a).conns)
  {
    match a
    case GetAnswer(c) => assert c == 0;
    case StrayTake(c) => assert c == 0;
    case PostPacket(c, p) => assert c == 0;
    case _ =>
  }

  lemma GetsOnFirst(s: State, a: ClientAction)
    requires Shape(s) && OnFirst(s.gets) && ClientEnabled(s, a)
    ensures OnFirst(ClientNext(s, a).gets)
  {
    match a
    case StartGet => OneMore(s.gets, s.current);
    case GetAnswer(c) => OneMore(s.gets, c);
    case GetNoop(c) => OneMore(s.gets, c);
    case GetEnd(c) => OneMore(s.gets, c);
    case _ => assert ClientNext(s, a).gets == s.gets;
  }

  lemma PostsOnFirst(s: State, a: ClientAction)
    requires Shape(s) && OnFirst(s.posts) && ClientEnabled(s, a)
    ensures OnFirst(ClientNext(s, a).posts)
  {
    match a
    case StartPost => OneMore(s.posts, s.current);
    case PostEnd(c) => OneMore(s.posts, c);
    case _ => assert ClientNext(s, a).posts == s.posts;
  }

  lemma StraysOnFirst(s: State, a: ClientAction)
    requires Shape(s) && OnFirst(s.strays) && ClientEnabled(s, a)
    ensures OnFirst(ClientNext(s, a).strays)
  {
    match a
    case StartStray(_) => OneMore(s.strays, s.current);
    case StrayTake(c) => OneMore(s.strays, c);
    case StrayEnd(c) => OneMore(s.strays, c);
    case _ => assert ClientNext(s, a).strays == s.strays;
  }

  lemma ClientUsers(s: State, a: ClientAction)
    requires Shape(s) && OthersUnused(s) && UsersOk(s) && ClientEnabled(s, a)
    ensures OthersUnused(ClientNext(s, a)) && UsersOk(ClientNext(s, a))
  {
    QueueOnFirst(s, a);
    GetsOnFirst(s, a);
    PostsOnFirst(s, a);
    StraysOnFirst(s, a);
    ClientKeeps(s, a);
  }

  lemma ClientKeeps(s: State, a: ClientAction)
    requires ClientEnabled(s, a)
    ensures var s' := ClientNext(s, a); s'.em == s.em && s'.reader == s.reader && s'.current == s.current
  {
  }

  lemma ReaderUsers(s: State, a: ReaderAction)
    requires Shape(s) && OthersUnused(s) && UsersOk(s) && ReaderEnabled(s, a)
    ensures OthersUnused(ReaderNext(s, a)) && UsersOk(ReaderNext(s, a))
  {
  }

  // ---- upgrade steps ----

  /**
   * A step of attempt `k`: other attempts are where they were, connections keep their kind, and
   * only the initial connection and the attempt's own may be closed or reopened.
   */
  ghost predicate OnlyAttempt(s: State, s': State, k: nat) {
    && |s'.attempts| == |s.attempts| && |s'.conns| == |s.conns| && k + 1 < |s.conns|
    && (forall j | 0 <= j < |s.attempts| && j != k :: s'.attempts[j] == s.attempts[j])
    && (forall i | 0 <= i < |s.conns| :: s'.conns[i].Polling? == s.conns[i].Polling?)
    && (forall i | 1 <= i < |s.conns| && i != k + 1 :: s'.conns[i].closed == s.conns[i].closed)
    && (s.conns[0].closed ==> s'.conns[0].closed)
    && (s.barrier == None || s.barrier == Some(k)) && (s'.barrier == None || s'.barrier == Some(k))
    && (s'.current == s.current || (s.current == 0 && s'.current == k + 1))
  }

  lemma OtherAttempt(s: State, s': State, k: nat, j: nat)
    requires Shape(s) && Shape(s') && OnlyAttempt(s, s', k) && j < |s.attempts| && j != k && AttemptOk(s, j)
    ensures AttemptOk(s', j)
  {
    assert s'.conns[j + 1].Polling? == s.conns[j + 1].Polling?;
  }

  lemma UpgradeFrame(s: State, s': State, k: nat)
    requires LockInv(s) && Shape(s') && OnlyAttempt(s, s', k) && k < |s.attempts| && AttemptOk(s', k)
    requires PausedByHolder(s') && OthersUnused(s') && UsersOk(s')
    ensures LockInv(s')
  {
    forall j | 0 <= j < |s'.attempts| ensures AttemptOk(s', j) {
      if j != k { OtherAttempt(s, s', k, j); }
    }
  }

  /** The invariant without the attempts that a step of attempt `k` leaves alone. */
  ghost predicate Alone(s: State, k: nat) {
    && Shape(s) && PausedByHolder(s) && OthersUnused(s) && UsersOk(s)
    && k < |s.attempts| && AttemptOk(s, k) && (s.barrier == None || s.barrier == Some(k))
  }

  // Steps that only move on.

  lemma Enter(s: State, k: nat, u: UpgradeAction)
    requires Alone(s, k) && UpgradeEnabled(s, k, u)
    requires u.Pause? || u == Probe(true) || u.Pong? || u == Confirm(true)
    ensures Alone(UpgradeNext(s, k, u), k) && OnlyAttempt(s, UpgradeNext(s, k, u), k)
  {
    assert UpgradeNext(s, k, u).conns == s.conns;
  }

  lemma Proceed(s: State, k: nat, u: UpgradeAction)
    requires Alone(s, k) && UpgradeEnabled(s, k, u)
    requires u.FlushOutEnd? || u.Forward? || u.FlushInEnd?
    ensures Alone(UpgradeNext(s, k, u), k) && OnlyAttempt(s, UpgradeNext(s, k, u), k)
  {
    assert UpgradeNext(s, k, u).conns == s.conns;
  }

  lemma Leave(s: State, k: nat, u: UpgradeAction)
    requires Alone(s, k) && UpgradeEnabled(s, k, u)
    requires u.HandleInOne? || u.HandleInEnd? || u.Resume?
    ensures Alone(UpgradeNext(s, k, u), k) && OnlyAttempt(s, UpgradeNext(s, k, u), k)
  {
    assert UpgradeNext(s, k, u).conns == s.conns;
  }

  // Steps that change a connection.

  lemma GiveUp(s: State, k: nat, u: UpgradeAction)
    requires Alone(s, k) && UpgradeEnabled(s, k, u)
    requires u == Probe(false) || u.ProbeFail? || u.PongFail?
    ensures Alone(UpgradeNext(s, k, u), k) && OnlyAttempt(s, UpgradeNext(s, k, u), k)
  {
  }

  lemma TurnBack(s: State, k: nat, u: UpgradeAction)
    requires Alone(s, k) && UpgradeEnabled(s, k, u)
    requires u == Confirm(false) || u.ConfirmFail?
    ensures Alone(UpgradeNext(s, k, u), k) && OnlyAttempt(s, UpgradeNext(s, k, u), k)
  {
  }

  lemma PauseFirst(s: State, k: nat, u: UpgradeAction)
    requires Alone(s, k) && UpgradeEnabled(s, k, u)
    requires u.PauseConn?
    ensures Alone(UpgradeNext(s, k, u), k) && OnlyAttempt(s, UpgradeNext(s, k, u), k)
  {
  }

  lemma CloseFirst(s: State, k: nat, u: UpgradeAction)
    requires Alone(s, k) && UpgradeEnabled(s, k, u)
    requires u.CloseOld?
    ensures Alone(UpgradeNext(s, k, u), k) && OnlyAttempt(s, UpgradeNext(s, k, u), k)
  {
  }

  lemma Exchange(s: State, k: nat, u: UpgradeAction)
    requires Alone(s, k) && UpgradeEnabled(s, k, u)
    requires u.Swap?
    ensures Alone(UpgradeNext(s, k, u), k) && OnlyAttempt(s, UpgradeNext(s, k, u), k)
  {
  }

  lemma Flush(s: State, k: nat, u: UpgradeAction)
    requires Alone(s, k) && UpgradeEnabled(s, k, u)
    requires u.FlushOutOne? || u.FlushInOne?
    ensures Alone(UpgradeNext(s, k, u), k) && OnlyAttempt(s, UpgradeNext(s, k, u), k)
  {
  }

  /** The attempt whose step is enabled holds the barrier, or is about to take it while it is free. */
  lemma HoldsOrFree(s: State, k: nat, u: UpgradeAction)
    requires LockInv(s) && UpgradeEnabled(s, k, u)
    ensures Alone(s, k)
  {
    assert AttemptOk(s, k);
  }

  lemma UpgradeLocks(s: State, k: nat, u: UpgradeAction)
    requires LockInv(s) && UpgradeEnabled(s, k, u)
    ensures LockInv(UpgradeNext(s, k, u))
  {
    HoldsOrFree(s, k, u);
    UpgradeAlone(s, k, u);
    UpgradeFrame(s, UpgradeNext(s, k, u), k);
  }

  lemma UpgradeAlone(s: State, k: nat, u: UpgradeAction)
    requires Alone(s, k) && UpgradeEnabled(s, k, u)
    ensures Alone(UpgradeNext(s, k, u), k) && OnlyAttempt(s, UpgradeNext(s, k, u), k)
  {
    match u
    case Pause | Probe(true) | Pong | Confirm(true) => Enter(s, k, u);
    case FlushOutEnd | Forward(_) | FlushInEnd => Proceed(s, k, u);
    case HandleInOne | HandleInEnd | Resume => Leave(s, k, u);
    case Probe(false) | ProbeFail | PongFail => GiveUp(s, k, u);
    case Confirm(false) | ConfirmFail => TurnBack(s, k, u);
    case PauseConn => PauseFirst(s, k, u);
    case CloseOld => CloseFirst(s, k, u);
    case Swap => Exchange(s, k, u);
    case FlushOutOne | FlushInOne => Flush(s, k, u);
  }

  // ---- the other steps ----

  lemma BeginLocks(s: State, target: Transport)
    requires LockInv(s) && Enabled(s, BeginUpgrade(target))
    ensures LockInv(Next(s, BeginUpgrade(target)))
  {
    var s' := Next(s, BeginUpgrade(target));
    forall j | 0 <= j < |s'.attempts| ensures AttemptOk(s', j) {
      if j < |s.attempts| { assert AttemptOk(s, j); }
    }
  }

  lemma CloseLocks(s: State)
    requires LockInv(s) && Enabled(s, CloseConn)
    ensures LockInv(Next(s, CloseConn))
  {
    var s' := Next(s, CloseConn);
    forall j | 0 <= j < |s'.attempts| ensures AttemptOk(s', j) { assert AttemptOk(s, j); }
  }

  lemma OtherLocks(s: State, a: Action)
    requires LockInv(s) && Enabled(s, a)
    requires a.BeginUpgrade? || a.CloseStart? || a.CloseConn?
    ensures LockInv(Next(s, a))
  {
    if a.BeginUpgrade? {
      BeginLocks(s, a.target);
    } else if a.CloseConn? {
      CloseLocks(s);
    } else {
      forall j | 0 <= j < |s.attempts| ensures AttemptOk(Next(s, a), j) { assert AttemptOk(s, j); }
    }
  }

  lemma StepLocks(s: State, a: Action)
    requires LockInv(s) && Enabled(s, a)
    ensures LockInv(Next(s, a))
  {
    match a
    case Emit(e) =>
      EmitterFrame(s, e);
      EmitterUsers(s, e);
      FrameLocks(s, EmitterNext(s, e));
    case Client(c) =>
      ClientFrame(s, c);
      ClientUsers(s, c);
      FrameLocks(s, ClientNext(s, c));
    case Read(r) =>
      ReaderFrame(s, r);
      ReaderUsers(s, r);
      FrameLocks(s, ReaderNext(s, r));
    case Upgrade(k, u) => UpgradeLocks(s, k, u);
    case _ => OtherLocks(s, a);
  }

  /** The invariant holds after every run. */
  lemma {:induction false} RunLocks(s: State, run: seq<Action>)
    requires LockInv(s) && IsRun(s, run)
    ensures LockInv(After(s, run))
    decreases |run|
  {
    if run != [] {
      StepLocks(s, run[0]);
      RunLocks(Next(s, run[0]), run[1..]);
    }
  }

  // ---- what the invariant means ----

  /** At most one attempt is between Pause and Resume, and no pause channel is closed twice. */
  lemma MutualExclusion(t: Transport, run: seq<Action>, i: nat, j: nat)
    requires IsRun(Init(t), run)
    requires i < |After(Init(t), run).attempts| && j < |After(Init(t), run).attempts|
    ensures var s := After(Init(t), run);
      && !s.panicked
      && (Critical(s.attempts[i].pc) && Critical(s.attempts[j].pc) ==> i == j)
  {
    InitLocks(t);
    RunLocks(Init(t), run);
    var s := After(Init(t), run);
    assert AttemptOk(s, i) && AttemptOk(s, j);
  }

  /** Whenever the barrier is free, the session's polling connection is not paused. */
  lemma FreeBarrierUnpaused(t: Transport, run: seq<Action>)
    requires IsRun(Init(t), run)
    ensures var s := After(Init(t), run);
      && s.current < |s.conns|
      && (s.barrier == None && s.conns[s.current].Polling? ==> !s.conns[s.current].paused)
  {
    InitLocks(t);
    RunLocks(Init(t), run);
  }

  /**
   * How an attempt ends: either it has swapped its connection in and closed the old one, or it
   * has closed its own connection and the session's polling connection is not left paused by it.
   */
  lemma Exits(t: Transport, run: seq<Action>, j: nat)
    requires IsRun(Init(t), run) && j < |After(Init(t), run).attempts|
    ensures var s := After(Init(t), run);
      var a := s.attempts[j];
      && a.conn < |s.conns| && s.current < |s.conns|
      && (a.pc.Leaving? || a.pc.Returned? ==>
            if a.pc.swapped then s.current == a.conn && s.conns[0].closed
            else s.current != a.conn && s.conns[a.conn].closed)
      && (a.pc.Leaving? && s.conns[s.current].Polling? ==> !s.conns[s.current].paused)
  {
    InitLocks(t);
    RunLocks(Init(t), run);
    assert AttemptOk(After(Init(t), run), j);
  }

  /** How often the session's transport name changes along a run. */
  function Changes(s: State, run: seq<Action>): nat
    requires IsRun(s, run)
    decreases |run|
  {
    if run == [] then 0 else
      var s' := Next(s, run[0]);
      (if s'.transport != s.transport then 1 else 0) + Changes(s', run[1..])
  }

  lemma StepTransport(s: State, a: Action)
    requires LockInv(s) && Enabled(s, a)
    ensures Next(s, a).transport != s.transport ==>
      s.transport == PollingTransport && Next(s, a).transport == WebsocketTransport
  {
    if a.Upgrade? { assert AttemptOk(s, a.k); }
  }

  lemma {:induction false} ChangesBounded(s: State, run: seq<Action>)
    requires LockInv(s) && IsRun(s, run)
    ensures Changes(s, run) == if s.transport == After(s, run).transport then 0 else 1
    ensures s.transport == WebsocketTransport ==> After(s, run).transport == WebsocketTransport
    decreases |run|
  {
    if run != [] {
      StepTransport(s, run[0]);
      StepLocks(s, run[0]);
      ChangesBounded(Next(s, run[0]), run[1..]);
    }
  }

  /** Over a whole run the transport changes at most once, and only from polling to websocket. */
  lemma OneUpgrade(t: Transport, run: seq<Action>)
    requires IsRun(Init(t), run)
    ensures Changes(Init(t), run) <= 1
    ensures Changes(Init(t), run) == 1 ==>
      t == PollingTransport && After(Init(t), run).transport == WebsocketTransport
  {
    InitLocks(t);
    ChangesBounded(Init(t), run);
  }
}
