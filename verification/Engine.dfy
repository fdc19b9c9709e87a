/**
 * One engine.io session as a transition system: submitters, the emitter goroutine, GET and
 * POST requests, the read loop, Socket.Close, and any number of concurrent upgrade attempts.
 * Every action is one atomic step of one of these; a Go select is a free choice among its
 * ready cases, and a deadline is an error that may strike at any time.
 */
module Engine {
  import opened Common

  type Pkt = nat

  datatype Transport = PollingTransport | WebsocketTransport

  /** A connection. A polling connection also logs what entered and what left its out queue. */
  datatype Conn =
    | Polling(out: seq<Pkt>, inq: seq<Pkt>, closed: bool, paused: bool, entered: seq<Pkt>, left: seq<Pkt>)
    | Websocket(closed: bool)

  const BUFFER_SIZE := 8

  function NewConn(t: Transport): Conn {
    match t
    case PollingTransport => Polling([], [], false, false, [], [])
    case WebsocketTransport => Websocket(false)
  }

  // ---- emitter ----

  /** The packet in the emitter's hand and how far its write has come. */
  datatype Hand =
    | Idle
    | AtBarrier(p: Pkt)             // taken from the queue, in barrier.Wait
    | PastBarrier(p: Pkt)           // after Wait, before so.RLock
    | Selecting(p: Pkt, c: nat)     // holding so.RLock, inside WritePacket of connection c

  datatype Mode = Running | Draining | Exited

  datatype Emitter = Emitter(
    entering: nat,          // submitters past the first check of done
    queue: seq<Pkt>,
    hand: Hand,
    mode: Mode,
    done: bool,
    accepted: seq<Pkt>,     // log: packets for which submit returned nil, in order
    acceptedByDone: seq<Pkt>, // log: accepted when done was closed
    handed: seq<Pkt>)       // log: packets given to WritePacket, in order

  // ---- upgrade attempts ----

  datatype Pc =
    | Waiting                               // before barrier.Pause returns
    | Probing | Ponging | Pausing           // up to conn.Pause
    | Confirming(prev: nat)                  // waiting for the upgrade packet
    | ClosingOld(prev: nat)
    | FlushingOut(prev: nat, list: seq<Pkt>) // the loop of FlushOut
    | Forwarding(prev: nat, list: seq<Pkt>)  // writing the flushed packets
    | FlushingIn(prev: nat, list: seq<Pkt>)  // after the swap: the loop of FlushIn
    | HandlingIn(prev: nat, list: seq<Pkt>)
    | Leaving(swapped: bool)                // about to run the deferred barrier.Resume
    | Returned(swapped: bool)

  datatype Attempt = Attempt(target: Transport, conn: nat, pc: Pc)

  // ---- reader ----

  datatype Source = FromPolling(p: Pkt) | FromWebsocket(p: Pkt)

  datatype Reader =
    | Looking                  // about to load ß.Conn
    | Reading(c: nat)          // inside ReadPacket of connection c
    | Holding(x: Source)       // has read a packet, about to handle it
    | Parked                   // in barrier.Wait after ErrPollingConnPaused
    | Stopped

  datatype Closing = Open | WaitingForEmitter | Finished

  datatype State = State(
    em: Emitter,
    conns: seq<Conn>,
    current: nat,              // ß.Conn
    transport: Transport,      // ß.transportName
    barrier: Option<nat>,      // the attempt that holds the write lock
    attempts: seq<Attempt>,
    reader: Reader,
    closing: Closing,
    gets: multiset<nat>,       // GET requests inside ReadPacketOut, by connection
    posts: multiset<nat>,      // POST requests inside the enqueue loop, by connection
    strays: multiset<nat>,     // requests of returned attempts inside ReadPacketOut, by connection
    served: set<nat>,          // attempts whose request has gone on to ServeHTTP of the session
    panicked: bool,            // a pause channel was closed twice
    answered: seq<Pkt>,        // log: packets returned to GET requests
    written: seq<Pkt>,         // log: packets written to a websocket
    refused: seq<Pkt>,         // log: packets whose WritePacket failed
    swallowed: seq<Pkt>,       // log: packets taken by strays, whose response cannot be written
    posted: seq<Pkt>,          // log: packets put into an in queue by POST requests
    handled: seq<Source>)      // log: packets given to Server.handle

  function Init(t: Transport): State {
    State(Emitter(0, [], Idle, Running, false, [], [], []),
          [NewConn(t)], 0, t, None, [], Looking, Open, multiset{}, multiset{}, multiset{}, {}, false,
          [], [], [], [], [], [])
  }

  // ---- actions ----

  datatype EmitterAction =
    | EnterSubmit | Submit(p: Pkt) | GiveUp
    | Take | StopLoop | FinishDrain
    | PassBarrier | BeginWrite | WriteOut | WriteWebsocket
    | WriteRefused                  // the polling connection was closed or paused meanwhile
    | WriteFail                     // deadline, or an error of the websocket

  datatype ClientAction =
    | StartGet | GetAnswer(c: nat) | GetNoop(c: nat) | GetEnd(c: nat)
    | StartPost | PostPacket(c: nat, p: Pkt) | PostEnd(c: nat)
    | StartStray(k: nat) | StrayTake(c: nat) | StrayEnd(c: nat)

  datatype ReaderAction =
    | Load | LoadPaused | LoadClosed
    | ReadPolling | ReadWebsocket(p: Pkt) | ReadPaused | ReadStop
    | HandleRead | Unpark

  datatype UpgradeAction =
    | Pause
    | Probe(ping: bool) | ProbeFail
    | Pong | PongFail
    | PauseConn
    | Confirm(upgrade: bool) | ConfirmFail
    | CloseOld
    | FlushOutOne | FlushOutEnd
    | Forward(ok: bool)
    | Swap
    | FlushInOne | FlushInEnd
    | HandleInOne | HandleInEnd
    | Resume

  datatype Action =
    | Emit(e: EmitterAction)
    | Client(c: ClientAction)
    | Read(r: ReaderAction)
    | BeginUpgrade(target: Transport)
    | Upgrade(k: nat, u: UpgradeAction)
    | CloseStart
    | CloseConn

  // ---- emitter steps ----

  predicate EmitterEnabled(s: State, a: EmitterAction) {
    var e := s.em;
    match a
    case EnterSubmit => !e.done
    case Submit(p) => e.entering > 0 && |e.queue| < BUFFER_SIZE
    case GiveUp => e.entering > 0 && e.done
    case Take => e.hand.Idle? && e.mode != Exited && e.queue != []
    case StopLoop => e.hand.Idle? && e.mode == Running && e.done
    case FinishDrain => e.hand.Idle? && e.mode == Draining && e.queue == []
    case PassBarrier => e.hand.AtBarrier? && s.barrier == None
    case BeginWrite => e.hand.PastBarrier? && s.current < |s.conns|
    case WriteOut =>
      && e.hand.Selecting? && e.hand.c < |s.conns|
      && s.conns[e.hand.c].Polling? && |s.conns[e.hand.c].out| < BUFFER_SIZE
    case WriteWebsocket =>
      && e.hand.Selecting? && e.hand.c < |s.conns|
      && s.conns[e.hand.c].Websocket? && !s.conns[e.hand.c].closed
    case WriteRefused =>
      && e.hand.Selecting? && e.hand.c < |s.conns|
      && s.conns[e.hand.c].Polling? && (s.conns[e.hand.c].closed || s.conns[e.hand.c].paused)
    case WriteFail => e.hand.Selecting?
  }

  function EmitterNext(s: State, a: EmitterAction): State
    requires EmitterEnabled(s, a)
  {
    var e := s.em;
    match a
    case EnterSubmit => s.(em := e.(entering := e.entering + 1))
    case Submit(p) =>
      s.(em := e.(entering := e.entering - 1, queue := e.queue + [p], accepted := e.accepted + [p]))
    case GiveUp => s.(em := e.(entering := e.entering - 1))
    case Take => s.(em := e.(queue := e.queue[1..], hand := AtBarrier(e.queue[0])))
    case StopLoop => s.(em := e.(mode := Draining))
    case FinishDrain => s.(em := e.(mode := Exited))
    case PassBarrier => s.(em := e.(hand := PastBarrier(e.hand.p)))
    case BeginWrite =>
      var p := e.hand.p;
      var e := e.(handed := e.handed + [p]);
      if s.conns[s.current].Polling? && s.conns[s.current].closed
      then s.(em := e.(hand := Idle), refused := s.refused + [p])
      else s.(em := e.(hand := Selecting(p, s.current)))
    case WriteOut =>
      var c := s.conns[e.hand.c];
      s.(em := e.(hand := Idle),
         conns := s.conns[e.hand.c := c.(out := c.out + [e.hand.p], entered := c.entered + [e.hand.p])])
    case WriteWebsocket => s.(em := e.(hand := Idle), written := s.written + [e.hand.p])
    case WriteRefused => s.(em := e.(hand := Idle), refused := s.refused + [e.hand.p])
    case WriteFail => s.(em := e.(hand := Idle), refused := s.refused + [e.hand.p])
  }

  // ---- client steps ----

  // The websocket request of an attempt goes on to ServeHTTP of the session when upgrade returns. If
  // the session still polls, it then waits for a packet like a poll, but its writer is hijacked.

  /** The request handler finds an open polling connection. */
  predicate PollingOpen(s: State) {
    s.current < |s.conns| && s.conns[s.current].Polling? && !s.conns[s.current].closed
  }

  predicate ClientEnabled(s: State, a: ClientAction) {
    match a
    case StartGet => PollingOpen(s)
    case GetAnswer(c) => c in s.gets && c < |s.conns| && s.conns[c].Polling? && s.conns[c].out != []
    case GetNoop(c) => c in s.gets && c < |s.conns| && s.conns[c].Polling? && s.conns[c].paused
    case GetEnd(c) => c in s.gets
    case StartPost => PollingOpen(s)
    case PostPacket(c, p) => c in s.posts && c < |s.conns| && s.conns[c].Polling? && |s.conns[c].inq| < BUFFER_SIZE
    case PostEnd(c) => c in s.posts
    case StartStray(k) =>
      k < |s.attempts| && s.attempts[k].pc.Returned? && k !in s.served && PollingOpen(s)
    case StrayTake(c) => c in s.strays && c < |s.conns| && s.conns[c].Polling? && s.conns[c].out != []
    case StrayEnd(c) => c in s.strays
  }

  function ClientNext(s: State, a: ClientAction): State
    requires ClientEnabled(s, a)
  {
    match a
    case StartGet => s.(gets := s.gets + multiset{s.current})
    case GetAnswer(c) =>
      s.(gets := s.gets - multiset{c}, conns := s.conns[c := Dequeued(s.conns[c])],
         answered := s.answered + [s.conns[c].out[0]])
    case GetNoop(c) => s.(gets := s.gets - multiset{c})
    case GetEnd(c) => s.(gets := s.gets - multiset{c})
    case StartPost => s.(posts := s.posts + multiset{s.current})
    case PostPacket(c, p) =>
      s.(conns := s.conns[c := s.conns[c].(inq := s.conns[c].inq + [p])], posted := s.posted + [p])
    case PostEnd(c) => s.(posts := s.posts - multiset{c})
    case StartStray(k) => s.(strays := s.strays + multiset{s.current}, served := s.served + {k})
    case StrayTake(c) =>
      s.(strays := s.strays - multiset{c}, conns := s.conns[c := Dequeued(s.conns[c])],
         swallowed := s.swallowed + [s.conns[c].out[0]])
    case StrayEnd(c) => s.(strays := s.strays - multiset{c})
  }

  /** A polling connection after one receive from its out queue. */
  function Dequeued(c: Conn): Conn
    requires c.Polling? && c.out != []
  {
    c.(out := c.out[1..], left := c.left + [c.out[0]])
  }

  // ---- reader steps ----

  predicate ReaderEnabled(s: State, a: ReaderAction) {
    var r := s.reader;
    match a
    case Load =>
      && r.Looking? && s.current < |s.conns|
      && (s.conns[s.current].Polling? ==> !s.conns[s.current].closed && !s.conns[s.current].paused)
    case LoadPaused => r.Looking? && s.current < |s.conns| && s.conns[s.current].Polling? && s.conns[s.current].paused
    case LoadClosed => r.Looking? && s.current < |s.conns| && s.conns[s.current].closed
    case ReadPolling => r.Reading? && r.c < |s.conns| && s.conns[r.c].Polling? && s.conns[r.c].inq != []
    case ReadWebsocket(p) => r.Reading? && r.c < |s.conns| && s.conns[r.c].Websocket? && !s.conns[r.c].closed
    case ReadPaused => r.Reading? && r.c < |s.conns| && s.conns[r.c].Polling? && s.conns[r.c].paused
    case ReadStop => r.Reading?
    case HandleRead => r.Holding?
    case Unpark => r.Parked? && s.barrier == None
  }

  function ReaderNext(s: State, a: ReaderAction): State
    requires ReaderEnabled(s, a)
  {
    match a
    case Load => s.(reader := Reading(s.current))
    case LoadPaused => s.(reader := Parked)
    case LoadClosed => s.(reader := Stopped)
    case ReadPolling =>
      var c := s.conns[s.reader.c];
      s.(reader := Holding(FromPolling(c.inq[0])), conns := s.conns[s.reader.c := c.(inq := c.inq[1..])])
    case ReadWebsocket(p) => s.(reader := Holding(FromWebsocket(p)))
    case ReadPaused => s.(reader := Parked)
    case ReadStop => s.(reader := Stopped)
    case HandleRead => s.(reader := Looking, handled := s.handled + [s.reader.x])
    case Unpark => s.(reader := Looking)
  }

  // ---- upgrade steps ----

  predicate PollingAt(s: State, i: nat) {
    i < |s.conns| && s.conns[i].Polling?
  }

  predicate UpgradeEnabled(s: State, k: nat, u: UpgradeAction) {
    && k < |s.attempts|
    && var t := s.attempts[k];
    && t.conn < |s.conns| && s.current < |s.conns|
    && match u
       case Pause => t.pc.Waiting? && s.barrier == None
       case Probe(_) => t.pc.Probing? && CanRead(s.conns[t.conn])
       case ProbeFail => t.pc.Probing?
       case Pong => t.pc.Ponging? && s.conns[t.conn].Websocket?
       case PongFail => t.pc.Ponging?
       case PauseConn => t.pc.Pausing?
       case Confirm(_) => t.pc.Confirming? && PollingAt(s, t.pc.prev) && CanRead(s.conns[t.conn])
       case ConfirmFail => t.pc.Confirming? && PollingAt(s, t.pc.prev)
       case CloseOld => t.pc.ClosingOld? && t.pc.prev < |s.conns|
       case FlushOutOne => t.pc.FlushingOut? && PollingAt(s, t.pc.prev) && s.conns[t.pc.prev].out != []
       case FlushOutEnd => t.pc.FlushingOut? && PollingAt(s, t.pc.prev) && s.conns[t.pc.prev].out == []
       case Forward(ok) => t.pc.Forwarding? && t.pc.list != []
       case Swap => t.pc.Forwarding? && t.pc.list == [] && !s.em.hand.Selecting?
       case FlushInOne => t.pc.FlushingIn? && PollingAt(s, t.pc.prev) && s.conns[t.pc.prev].inq != []
       case FlushInEnd => t.pc.FlushingIn? && PollingAt(s, t.pc.prev) && s.conns[t.pc.prev].inq == []
       case HandleInOne => t.pc.HandlingIn? && t.pc.list != []
       case HandleInEnd => t.pc.HandlingIn? && t.pc.list == []
       case Resume => t.pc.Leaving?
  }

  /** ReadPacket on a new connection: a fresh polling connection has only its own in queue to read. */
  predicate CanRead(c: Conn) {
    match c
    case Polling(_, inq, _, _, _, _) => inq != []
    case Websocket(closed) => !closed
  }

  function Closed(c: Conn): Conn {
    c.(closed := true)
  }

  function SetPc(s: State, k: nat, pc: Pc): State
    requires k < |s.attempts|
  {
    s.(attempts := s.attempts[k := s.attempts[k].(pc := pc)])
  }

  function SetConn(s: State, i: nat, c: Conn): State
    requires i < |s.conns|
  {
    s.(conns := s.conns[i := c])
  }

  /** newConn.Close and return, with the barrier still to be resumed. */
  function Abandon(s: State, k: nat): State
    requires k < |s.attempts| && s.attempts[k].conn < |s.conns|
  {
    var n := s.attempts[k].conn;
    SetPc(SetConn(s, n, Closed(s.conns[n])), k, Leaving(false))
  }

  function UpgradeNext(s: State, k: nat, u: UpgradeAction): State
    requires UpgradeEnabled(s, k, u)
  {
    var t := s.attempts[k];
    match u
    case Pause => SetPc(s.(barrier := Some(k)), k, Probing)
    case Probe(ping) => if ping then SetPc(s, k, Ponging) else Abandon(s, k)
    case ProbeFail => Abandon(s, k)
    case Pong => SetPc(s, k, Pausing)
    case PongFail => Abandon(s, k)
    case PauseConn =>
      var c := s.conns[s.current];
      if c.Websocket? then Abandon(s, k)
      else if c.paused then s.(panicked := true)
      else SetPc(SetConn(s, s.current, c.(paused := true)), k, Confirming(s.current))
    case Confirm(upgrade) =>
      if upgrade then SetPc(s, k, ClosingOld(t.pc.prev)) else AbandonAndResume(s, k, t.pc.prev)
    case ConfirmFail => AbandonAndResume(s, k, t.pc.prev)
    case CloseOld => SetPc(SetConn(s, t.pc.prev, Closed(s.conns[t.pc.prev])), k, FlushingOut(t.pc.prev, []))
    case FlushOutOne =>
      var c := s.conns[t.pc.prev];
      SetPc(SetConn(s, t.pc.prev, Dequeued(c)), k, FlushingOut(t.pc.prev, t.pc.list + [c.out[0]]))
    case FlushOutEnd => SetPc(s, k, Forwarding(t.pc.prev, t.pc.list))
    case Forward(ok) =>
      var s := SetPc(s, k, Forwarding(t.pc.prev, t.pc.list[1..]));
      if ok then s.(written := s.written + [t.pc.list[0]]) else s.(refused := s.refused + [t.pc.list[0]])
    case Swap => SetPc(s.(current := t.conn, transport := t.target), k, FlushingIn(t.pc.prev, []))
    case FlushInOne =>
      var c := s.conns[t.pc.prev];
      SetPc(SetConn(s, t.pc.prev, c.(inq := c.inq[1..])), k, FlushingIn(t.pc.prev, t.pc.list + [c.inq[0]]))
    case FlushInEnd => SetPc(s, k, HandlingIn(t.pc.prev, t.pc.list))
    case HandleInOne =>
      SetPc(s.(handled := s.handled + [FromPolling(t.pc.list[0])]), k, HandlingIn(t.pc.prev, t.pc.list[1..]))
    case HandleInEnd => SetPc(s, k, Leaving(true))
    case Resume => SetPc(s.(barrier := None), k, Returned(t.pc.swapped))
  }

  /** newConn.Close, conn.Resume and return. */
  function AbandonAndResume(s: State, k: nat, prev: nat): State
    requires k < |s.attempts| && s.attempts[k].conn < |s.conns| && prev < |s.conns| && s.conns[prev].Polling?
  {
    Abandon(SetConn(s, prev, s.conns[prev].(paused := false)), k)
  }

  // ---- the whole system ----

  predicate Enabled(s: State, a: Action) {
    match a
    case Emit(e) => EmitterEnabled(s, e)
    case Client(c) => ClientEnabled(s, c)
    case Read(r) => ReaderEnabled(s, r)
    case BeginUpgrade(target) => s.transport != target
    case Upgrade(k, u) => UpgradeEnabled(s, k, u)
    case CloseStart => s.closing == Open
    case CloseConn => s.closing == WaitingForEmitter && s.em.mode == Exited && s.current < |s.conns|
  }

  function Next(s: State, a: Action): State
    requires Enabled(s, a)
  {
    match a
    case Emit(e) => EmitterNext(s, e)
    case Client(c) => ClientNext(s, c)
    case Read(r) => ReaderNext(s, r)
    case BeginUpgrade(target) =>
      s.(conns := s.conns + [NewConn(target)], attempts := s.attempts + [Attempt(target, |s.conns|, Waiting)])
    case Upgrade(k, u) => UpgradeNext(s, k, u)
    case CloseStart =>
      s.(closing := WaitingForEmitter, em := s.em.(done := true, acceptedByDone := s.em.accepted))
    case CloseConn => SetConn(s.(closing := Finished), s.current, Closed(s.conns[s.current]))
  }

  /** A run: every action is enabled where it is taken. */
  predicate IsRun(s: State, run: seq<Action>)
    decreases |run|
  {
    run == [] || (Enabled(s, run[0]) && IsRun(Next(s, run[0]), run[1..]))
  }

  function After(s: State, run: seq<Action>): State
    requires IsRun(s, run)
    decreases |run|
  {
    if run == [] then s else After(Next(s, run[0]), run[1..])
  }

  lemma {:induction false} RunJoin(s: State, r1: seq<Action>, r2: seq<Action>)
    requires IsRun(s, r1) && IsRun(After(s, r1), r2)
    ensures IsRun(s, r1 + r2) && After(s, r1 + r2) == After(After(s, r1), r2)
    decreases |r1|
  {
    if r1 == [] {
      assert r1 + r2 == r2;
    } else {
      var s1 := Next(s, r1[0]);
      RunJoin(s1, r1[1..], r2);
      CatAssoc([r1[0]], r1[1..], r2);
      assert [r1[0]] + r1[1..] == r1;
      RunCons(s, r1[0], r1[1..] + r2, s1);
    }
  }

  lemma RunCons(s: State, a: Action, rest: seq<Action>, s1: State)
    requires Enabled(s, a) && Next(s, a) == s1 && IsRun(s1, rest)
    ensures IsRun(s, [a] + rest) && After(s, [a] + rest) == After(s1, rest)
  {
    assert ([a] + rest)[1..] == rest;
  }
}
