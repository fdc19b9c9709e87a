/** Acknowledgement ids and pending callbacks, one packet at a time. */
module Acks {
  import opened Common

  type Callback = nat

  /** An argument of emit: a callback for the acknowledgement, or data. */
  datatype Arg<T> = Func(cb: Callback) | Plain(v: T)

  function Callbacks<T>(args: seq<Arg<T>>): seq<Callback> {
    if args == [] then []
    else Callbacks(args[..|args| - 1]) + if args[|args| - 1].Func? then [args[|args| - 1].cb] else []
  }

  function Plains<T>(args: seq<Arg<T>>): seq<T> {
    if args == [] then []
    else Plains(args[..|args| - 1]) + if args[|args| - 1].Plain? then [args[|args| - 1].v] else []
  }

  lemma SplitSnoc<T>(args: seq<Arg<T>>, j: nat)
    requires j < |args|
    ensures Callbacks(args[..j + 1]) == Callbacks(args[..j]) + if args[j].Func? then [args[j].cb] else []
    ensures Plains(args[..j + 1]) == Plains(args[..j]) + if args[j].Plain? then [args[j].v] else []
    ensures |Callbacks(args[..j + 1])| <= |Callbacks(args)|
  {
    assert args[..j + 1][..j] == args[..j];
    CallbacksPrefix(args, j + 1);
  }

  lemma {:induction false} CallbacksPrefix<T>(args: seq<Arg<T>>, j: nat)
    requires j <= |args|
    ensures |Callbacks(args[..j])| <= |Callbacks(args)|
    decreases |args|
  {
    if j == |args| {
      assert args[..j] == args;
    } else {
      assert args[..|args| - 1][..j] == args[..j];
      CallbacksPrefix(args[..|args| - 1], j);
    }
  }

  /** handle.go: one namespace's counter and pending callbacks. */
  class AckHandle {
    var id: nat
    var ackmap: map<nat, Callback>
    ghost var issued: map<nat, Callback>   // log: every id issued, with its callback
    ghost var fired: set<nat>              // log: ids whose callback has run

    /** Pending is issued minus acknowledged. */
    ghost predicate Valid()
      reads this
    {
      && id < TWO64
      && (forall n: nat :: n in issued <==> 1 <= n <= id)
      && fired <= issued.Keys
      && ackmap == issued - fired
    }

    constructor ()
      ensures Valid() && id == 0 && ackmap == map[] && issued == map[] && fired == {}
    {
      id := 0;
      ackmap := map[];
      issued := map[];
      fired := {};
    }

    /** The next id is one never issued before, and the callback waits under it. */
    method OnAck(cb: Callback) returns (n: nat)
      requires Valid() && id + 1 < TWO64
      modifies this
      ensures Valid()
      ensures n !in old(issued) && issued == old(issued)[n := cb] && fired == old(fired)
      ensures n == id == old(id) + 1
    {
      id := (id + 1) % TWO64;
      n := id;
      ackmap := ackmap[n := cb];
      issued := issued[n := cb];
    }

    /** The loop of emit: callbacks are registered, the other arguments become the packet's data. */
    method Register<T>(args: seq<Arg<T>>) returns (last: Option<nat>, data: seq<T>)
      requires Valid() && id + |Callbacks(args)| < TWO64
      modifies this
      ensures Valid() && data == Plains(args) && fired == old(fired)
      ensures last == (if Callbacks(args) == [] then None else Some(id)) && id == old(id) + |Callbacks(args)|
      ensures forall i | 0 <= i < |Callbacks(args)| ::
        old(id) + 1 + i in issued && issued[old(id) + 1 + i] == Callbacks(args)[i]
      ensures forall n | n in old(issued) :: n in issued && issued[n] == old(issued)[n]
    {
      last, data := None, [];
      for j := 0 to |args|
        invariant Valid() && data == Plains(args[..j]) && fired == old(fired)
        invariant last == if Callbacks(args[..j]) == [] then None else Some(id)
        invariant id == old(id) + |Callbacks(args[..j])|
        invariant forall i | 0 <= i < |Callbacks(args[..j])| ::
          old(id) + 1 + i in issued && issued[old(id) + 1 + i] == Callbacks(args[..j])[i]
        invariant forall n | n in old(issued) :: n in issued && issued[n] == old(issued)[n]
      {
        SplitSnoc(args, j);
        if args[j].Func? {
          var n := OnAck(args[j].cb);
          last := Some(n);
        } else {
          data := data + [args[j].v];
        }
      }
      assert args[..|args|] == args;
    }

    /** The callback of an id runs exactly when the id was issued and has not been acknowledged. */
    method FireAck(n: nat) returns (run: Option<Callback>)
      requires Valid()
      modifies this
      ensures Valid() && issued == old(issued) && id == old(id)
      ensures run.Some? <==> n in old(issued) && n !in old(fired)
      ensures run.Some? ==> run.value == issued[n] && fired == old(fired) + {n}
      ensures run.None? ==> fired == old(fired) && ackmap == old(ackmap)
    {
      if n !in ackmap { return None; }
      run := Some(ackmap[n]);
      ackmap := ackmap - {n};
      fired := fired + {n};
    }
  }

  /** socket.go: the handles of a socket's namespaces. */
  class SocketAcks {
    var acks: map<string, AckHandle>

    ghost predicate Valid()
      reads this, acks.Values
    {
      && (forall nsp | nsp in acks :: acks[nsp].Valid())
      && (forall a, b | a in acks && b in acks && a != b :: acks[a] != acks[b])
    }

    constructor ()
      ensures Valid() && acks == map[]
    {
      acks := map[];
    }

    /** attachnsp: a new, empty handle, also when the namespace was attached before. */
    method Attach(nsp: string)
      requires Valid()
      modifies this
      ensures Valid() && acks.Keys == old(acks).Keys + {nsp}
      ensures fresh(acks[nsp]) && acks[nsp].ackmap == map[] && acks[nsp].id == 0
      ensures forall other | other in old(acks) && other != nsp :: acks[other] == old(acks)[other]
    {
      var h := new AckHandle();
      acks := acks[nsp := h];
    }

    /** detachnsp */
    method Detach(nsp: string)
      requires Valid()
      modifies this
      ensures Valid() && acks == old(acks) - {nsp}
    {
      if nsp in acks {
        acks := acks - {nsp};
      }
    }

    /** detachall: every namespace goes, each exactly once. */
    method DetachAll() returns (gone: seq<string>)
      requires Valid()
      modifies this
      ensures Valid() && acks == map[]
      ensures multiset(gone) == multiset(old(acks.Keys))
    {
      gone := [];
      var left := acks.Keys;
      while left != {}
        invariant acks.Keys == left <= old(acks.Keys) && acks == old(acks) - (old(acks.Keys) - left)
        invariant Valid()
        invariant multiset(gone) + multiset(left) == multiset(old(acks.Keys))
        decreases left
      {
        var k :| k in left;
        acks := acks - {k};
        left := left - {k};
        gone := gone + [k];
      }
    }

    /**
     * emit: refused for an unknown namespace. Otherwise every callback among the arguments gets a
     * fresh id of that namespace, the packet carries the id of the last one only, and its data is
     * the other arguments in order.
     */
    method Emit<T>(nsp: string, args: seq<Arg<T>>) returns (r: Option<(Option<nat>, seq<T>)>)
      requires Valid() && (nsp in acks ==> acks[nsp].id + |Callbacks(args)| < TWO64)
      modifies acks.Values
      ensures Valid() && acks == old(acks)
      ensures r.None? <==> nsp !in acks
      ensures r.Some? ==>
        var h, k := acks[nsp], |Callbacks(args)|;
        && r.value == (if k == 0 then None else Some(old(h.id) + k), Plains(args))
        && h.id == old(h.id) + k && h.fired == old(h.fired)
        && (forall i | 0 <= i < k :: old(h.id) + 1 + i in h.issued && h.issued[old(h.id) + 1 + i] == Callbacks(args)[i])
        && (forall n | n in old(h.issued) :: n in h.issued && h.issued[n] == old(h.issued)[n])
      ensures forall other | other in acks && other != nsp ::
        acks[other].issued == old(acks[other].issued) && acks[other].fired == old(acks[other].fired)
    {
      if nsp !in acks { return None; }
      var id, data := acks[nsp].Register(args);
      r := Some((id, data));
    }

    /** fireAck: runs a callback only of the packet's own namespace and id, and only once. */
    method Fire(nsp: string, id: nat) returns (run: Option<Callback>)
      requires Valid()
      modifies acks.Values
      ensures Valid() && acks == old(acks)
      ensures run.Some? <==> nsp in acks && id in old(acks[nsp].issued) && id !in old(acks[nsp].fired)
      ensures run.Some? ==> run.value == old(acks[nsp].issued)[id] && id in acks[nsp].fired
      ensures forall other | other in acks ::
        && acks[other].issued == old(acks[other].issued)
        && acks[other].fired
           == (if other == nsp && run.Some? then old(acks[other].fired) + {id} else old(acks[other].fired))
    {
      if nsp !in acks { return None; }
      run := acks[nsp].FireAck(id);
    }
  }
}

/** The same handle under any interleaving of emits and acknowledgements. */
module AckRaces {
  import opened Common

  type Callback = nat

  /** An id with its callback. */
  type Entry = (nat, Callback)

  datatype State = State(
    id: nat,                             // the atomic counter
    ackmap: map<nat, Callback>,
    issued: seq<Entry>,                  // log: ids returned by AddUint64, with the callbacks they are for
    inserting: map<nat, Callback>,       // onAck calls between AddUint64 and the map insert, by id
    finding: seq<Entry>,                 // fireAck calls between lookup and delete
    ran: seq<Entry>)                     // log: callbacks run, in order

  const INIT := State(0, map[], [], map[], [], [])

  datatype Action =
    | AddId(cb: Callback) | Insert(id: nat)
    | Find(id: nat) | Run(i: nat)

  predicate Enabled(s: State, a: Action) {
    match a
    case AddId(_) => true
    case Insert(id) => id in s.inserting
    case Find(id) => id in s.ackmap
    case Run(i) => i < |s.finding|
  }

  function Next(s: State, a: Action): State
    requires Enabled(s, a)
  {
    match a
    case AddId(cb) =>
      var n := (s.id + 1) % TWO64;
      s.(id := n, issued := s.issued + [(n, cb)], inserting := s.inserting[n := cb])
    case Insert(id) => s.(ackmap := s.ackmap[id := s.inserting[id]], inserting := s.inserting - {id})
    case Find(id) => s.(finding := s.finding + [(id, s.ackmap[id])])
    case Run(i) =>
      var e := s.finding[i];
      s.(ackmap := s.ackmap - {e.0}, finding := s.finding[..i] + s.finding[i + 1..], ran := s.ran + [e])
  }

  predicate IsRun(s: State, run: seq<Action>)
    decreases |run|
  {
    run == [] || (Enabled(s, run[0]) && IsRun(Next(s, run[0]), run[1..]))
  }

  function After(s: State, run: seq<Action>): State
    requires IsRun(s, run)
    decreases |run|
  {
    if run == [] then s else After(Next(s, run[0]), run[1..])
  }

  // ---- ids ----

  ghost predicate Counted(s: State) {
    && s.id == |s.issued| % TWO64
    && forall i | 0 <= i < |s.issued| :: s.issued[i].0 == (i + 1) % TWO64
  }

  lemma {:induction false} RunCounted(s: State, run: seq<Action>)
    requires Counted(s) && IsRun(s, run)
    ensures Counted(After(s, run))
    decreases |run|
  {
    if run != [] {
      if run[0].AddId? { NextId(|s.issued|); }
      RunCounted(Next(s, run[0]), run[1..]);
    }
  }

  lemma NextId(n: nat)
    ensures (n % TWO64 + 1) % TWO64 == (n + 1) % TWO64
  {
  }

  lemma SameIdApart(i: nat, j: nat)
    requires i < j < i + TWO64
    ensures (i + 1) % TWO64 != (j + 1) % TWO64
  {
  }

  /** Under any interleaving, ids repeat only after 2^64 of them. */
  lemma IdsDistinct(run: seq<Action>, i: nat, j: nat)
    requires IsRun(INIT, run) && i < j < |After(INIT, run).issued| && j < i + TWO64
    ensures After(INIT, run).issued[i].0 != After(INIT, run).issued[j].0
  {
    RunCounted(INIT, run);
    SameIdApart(i, j);
  }

  // ---- callbacks ----

  /** No id is looked up while an acknowledgement of the same id is between lookup and delete. */
  predicate Separate(s: State, a: Action) {
    a.Find? ==> forall i | 0 <= i < |s.finding| :: s.finding[i].0 != a.id
  }

  predicate SeparateRun(s: State, run: seq<Action>)
    requires IsRun(s, run)
    decreases |run|
  {
    run == [] || (Separate(s, run[0]) && SeparateRun(Next(s, run[0]), run[1..]))
  }

  /** No two entries are for the same id. */
  predicate Distinct(es: seq<Entry>) {
    forall i, j | 0 <= i < j < |es| :: es[i].0 != es[j].0
  }

  predicate Has(es: seq<Entry>, n: nat) {
    exists i | 0 <= i < |es| :: es[i].0 == n
  }

  ghost predicate Once(s: State) {
    && Counted(s)
    && Distinct(s.finding) && Distinct(s.ran)
    && (forall i | 0 <= i < |s.finding| :: s.finding[i].0 in s.ackmap && s.finding[i].1 == s.ackmap[s.finding[i].0])
    && s.ackmap.Keys !! s.inserting.Keys
    && (forall n | n in s.ackmap :: (n, s.ackmap[n]) in s.issued)
    && (forall n | n in s.inserting :: (n, s.inserting[n]) in s.issued)
    && (forall i | 0 <= i < |s.ran| :: s.ran[i] in s.issued && s.ran[i].0 !in s.ackmap && s.ran[i].0 !in s.inserting)
    && (forall i | 0 <= i < |s.issued| ::
          s.issued[i].0 in s.ackmap || s.issued[i].0 in s.inserting || Has(s.ran, s.issued[i].0))
  }

  lemma HasSnoc(es: seq<Entry>, e: Entry, n: nat)
    ensures Has(es + [e], n) <==> Has(es, n) || e.0 == n
  {
    if Has(es, n) {
      var i :| 0 <= i < |es| && es[i].0 == n;
      assert (es + [e])[i].0 == n;
    }
    assert (es + [e])[|es|] == e;
  }

  lemma AddOnce(s: State, cb: Callback)
    requires Once(s) && |s.issued| + 1 < TWO64
    ensures Once(Next(s, AddId(cb)))
  {
    NextId(|s.issued|);
    FreshId(s);
  }

  lemma FreshId(s: State)
    requires Counted(s) && |s.issued| + 1 < TWO64
    ensures forall e | e in s.issued :: e.0 != (s.id + 1) % TWO64
  {
    NextId(|s.issued|);
  }

  lemma DropEntry(es: seq<Entry>, i: nat)
    requires i < |es| && Distinct(es)
    ensures var rest := es[..i] + es[i + 1..];
      Distinct(rest) && forall j | 0 <= j < |rest| :: rest[j] in es && rest[j].0 != es[i].0
  {
    var rest := es[..i] + es[i + 1..];
    assert forall j | 0 <= j < |rest| :: rest[j] == es[if j < i then j else j + 1];
  }

  lemma RunsOnce(s: State, i: nat)
    requires Once(s) && i < |s.finding|
    ensures Once(Next(s, Run(i)))
  {
    var s', e := Next(s, Run(i)), s.finding[i];
    DropEntry(s.finding, i);
    forall j | 0 <= j < |s'.issued|
      ensures s'.issued[j].0 in s'.ackmap || s'.issued[j].0 in s'.inserting || Has(s'.ran, s'.issued[j].0)
    {
      HasSnoc(s.ran, e, s.issued[j].0);
    }
  }

  lemma StepOnce(s: State, a: Action)
    requires Once(s) && Enabled(s, a) && Separate(s, a) && |Next(s, a).issued| < TWO64
    ensures Once(Next(s, a))
  {
    match a
    case AddId(cb) => AddOnce(s, cb);
    case Run(i) => RunsOnce(s, i);
    case _ =>
  }

  lemma IssuedGrows(s: State, run: seq<Action>)
    requires IsRun(s, run)
    ensures |s.issued| <= |After(s, run).issued|
    decreases |run|
  {
    if run != [] {
      IssuedGrows(Next(s, run[0]), run[1..]);
    }
  }

  lemma {:induction false} RunOnce(s: State, run: seq<Action>)
    requires Once(s) && IsRun(s, run) && SeparateRun(s, run) && |After(s, run).issued| < TWO64
    ensures Once(After(s, run))
    decreases |run|
  {
    if run != [] {
      IssuedGrows(Next(s, run[0]), run[1..]);
      StepOnce(s, run[0]);
      RunOnce(Next(s, run[0]), run[1..]);
    }
  }

  /**
   * When no two acknowledgements of one id overlap, with everything else interleaved freely, every
   * id issued is pending, about to be, or acknowledged; each callback runs at most once, and it is
   * the one its id was issued for.
   */
  lemma CallbackAtMostOnce(run: seq<Action>)
    requires IsRun(INIT, run) && SeparateRun(INIT, run) && |After(INIT, run).issued| < TWO64
    ensures var s := After(INIT, run);
      && Distinct(s.ran)
      && (forall e | e in s.ran :: e in s.issued)
      && (forall e | e in s.issued :: e.0 in s.ackmap <==> e.0 !in s.inserting && !Has(s.ran, e.0))
  {
    RunOnce(INIT, run);
  }

  /** In no continuation of separate acknowledgements does a callback run twice. */
  ghost predicate Safe(s: State) {
    forall run | IsRun(s, run) && SeparateRun(s, run) && |After(s, run).issued| < TWO64 ::
      Distinct(After(s, run).ran)
  }

  /** An acknowledgement that overlaps another one of its id can run the callback a second time. */
  lemma OverlapRunsTwice(s: State, id: nat, i: nat)
    requires Enabled(s, Find(id)) && i < |s.finding| && s.finding[i].0 == id
    ensures var s1, run := Next(s, Find(id)), [Run(|s.finding|), Run(i)];
      && IsRun(s1, run) && SeparateRun(s1, run) && After(s1, run).issued == s.issued
      && After(s1, run).ran == s.ran + [(id, s.ackmap[id]), (id, s.finding[i].1)]
  {
    var s1, run := Next(s, Find(id)), [Run(|s.finding|), Run(i)];
    var s2 := Next(s1, run[0]);
    assert s2.finding == s.finding;
    assert run[1..] == [Run(i)] && run[1..][1..] == [];
    var s3 := Next(s2, Run(i));
    assert IsRun(s3, []) && After(s3, []) == s3;
    assert IsRun(s2, run[1..]) && After(s2, run[1..]) == s3;
    assert s3.ran == s.ran + [(id, s.ackmap[id])] + [s.finding[i]];
  }

  /** From a state as every separate run reaches it, a step is safe if and only if it is separate. */
  lemma SeparateIsExact(s: State, a: Action)
    requires Once(s) && Enabled(s, a) && |Next(s, a).issued| < TWO64
    ensures Safe(Next(s, a)) <==> Separate(s, a)
  {
    if Separate(s, a) {
      StepOnce(s, a);
      forall run | IsRun(Next(s, a), run) && SeparateRun(Next(s, a), run) && |After(Next(s, a), run).issued| < TWO64
        ensures Distinct(After(Next(s, a), run).ran)
      {
        RunOnce(Next(s, a), run);
      }
    } else {
      var i :| 0 <= i < |s.finding| && s.finding[i].0 == a.id;
      OverlapRunsTwice(s, a.id, i);
      var run := [Run(|s.finding|), Run(i)];
      var ran := After(Next(s, a), run).ran;
      assert ran[|s.ran|].0 == ran[|s.ran| + 1].0;
    }
  }

  /** Two acknowledgements of one id processed at the same time can both run its callback. */
  const RACE: seq<Action> := [AddId(5), Insert(1), Find(1), Find(1), Run(0), Run(0)]

  lemma ConcurrentAcksRunTwice()
    ensures IsRun(INIT, RACE) && After(INIT, RACE).ran == [(1, 5), (1, 5)]
  {
    var s1 := Next(INIT, RACE[0]);
    var s2 := Next(s1, RACE[1]);
    var s3 := Next(s2, RACE[2]);
    var s4 := Next(s3, RACE[3]);
    var s5 := Next(s4, RACE[4]);
    var s6 := Next(s5, RACE[5]);
    assert IsRun(s5, RACE[5..]) && RACE[5..][1..] == [];
    assert IsRun(s4, RACE[4..]) && RACE[4..][1..] == RACE[5..];
    assert IsRun(s3, RACE[3..]) && RACE[3..][1..] == RACE[4..];
    assert IsRun(s2, RACE[2..]) && RACE[2..][1..] == RACE[3..];
    assert IsRun(s1, RACE[1..]) && RACE[1..][1..] == RACE[2..];
  }
}
