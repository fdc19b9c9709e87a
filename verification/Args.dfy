/** Merging JSON values, binary buffers and the Socket back into a callback's parameters. */
module Args {
  import opened Common
  import opened Codec
  import opened CodecTheorems
  import opened EventTheorems
  import Json

  /** A callback parameter: a Socket, a BinaryUnmarshaler, or anything json.Unmarshal fills. */
  datatype Param = SocketParam | BinParam | JsonParam

  /** An entry of the argument slice: invalid, freshly allocated, or filled. */
  datatype Slot = Invalid | Fresh | JsonSlot(v: Json.Value) | BinSlot(b: Blob) | SocketSlot

  /** What one parameter takes of the values and buffers that are left. */
  function First(p: Param, vals: seq<Json.Value>, bufs: seq<Blob>): Slot {
    match p
    case SocketParam => Invalid
    case BinParam => if bufs == [] then Fresh else BinSlot(bufs[0])
    case JsonParam => if vals == [] then Fresh else JsonSlot(vals[0])
  }

  function RestVals(p: Param, vals: seq<Json.Value>): seq<Json.Value> {
    if p.JsonParam? && vals != [] then vals[1..] else vals
  }

  function RestBufs(p: Param, bufs: seq<Blob>): seq<Blob> {
    if p.BinParam? && bufs != [] then bufs[1..] else bufs
  }

  /** UnmarshalArgs: JSON parameters take the values in order, binary ones the buffers in order. */
  function Merge(params: seq<Param>, vals: seq<Json.Value>, bufs: seq<Blob>): (r: seq<Slot>)
    ensures |r| == |params|
  {
    if params == [] then [] else
      [First(params[0], vals, bufs)] + Merge(params[1..], RestVals(params[0], vals), RestBufs(params[0], bufs))
  }

  /** Call: the Socket goes into every Socket parameter. */
  function WithSocket(params: seq<Param>, slots: seq<Slot>): (r: seq<Slot>)
    requires |slots| == |params|
    ensures |r| == |params|
  {
    seq(|params|, i requires 0 <= i < |params| => if params[i].SocketParam? then SocketSlot else slots[i])
  }

  /** How many values and buffers the parameters before one have taken. */
  function Count(params: seq<Param>, p: Param): nat {
    if params == [] then 0 else Count(params[..|params| - 1], p) + if params[|params| - 1] == p then 1 else 0
  }

  /** What UnmarshalArgs puts at position `i`, computed from the parameters before it. */
  function SlotAt(params: seq<Param>, vals: seq<Json.Value>, bufs: seq<Blob>, i: nat): Slot
    requires i < |params|
  {
    var k := Count(params[..i], params[i]);
    match params[i]
    case SocketParam => Invalid
    case BinParam => if k < |bufs| then BinSlot(bufs[k]) else Fresh
    case JsonParam => if k < |vals| then JsonSlot(vals[k]) else Fresh
  }

  lemma {:induction false} CountCons(p: Param, params: seq<Param>, q: Param)
    ensures Count([p] + params, q) == (if p == q then 1 else 0) + Count(params, q)
    decreases |params|
  {
    var all := [p] + params;
    if params == [] {
      assert all[..0] == [];
    } else {
      var n := |params| - 1;
      assert all[..|all| - 1] == [p] + params[..n];
      CountCons(p, params[..n], q);
    }
  }

  /** The recursive merge and the positional one agree. */
  lemma {:induction false} MergeAt(params: seq<Param>, vals: seq<Json.Value>, bufs: seq<Blob>, i: nat)
    requires i < |params|
    ensures Merge(params, vals, bufs)[i] == SlotAt(params, vals, bufs, i)
    decreases |params|
  {
    if i > 0 {
      var p := params[0];
      var vals', bufs' := RestVals(p, vals), RestBufs(p, bufs);
      MergeAt(params[1..], vals', bufs', i - 1);
      SlotAtNext(params, vals, bufs, i);
    }
  }

  lemma SlotAtNext(params: seq<Param>, vals: seq<Json.Value>, bufs: seq<Blob>, i: nat)
    requires 0 < i < |params|
    ensures SlotAt(params, vals, bufs, i)
         == SlotAt(params[1..], RestVals(params[0], vals), RestBufs(params[0], bufs), i - 1)
  {
    var p := params[0];
    assert params[..i] == [p] + params[1..][..i - 1];
    CountCons(p, params[1..][..i - 1], params[i]);
  }

  /** The positions of the JSON parameters: what UnmarshalArgs collects in argv. */
  function JsonIndices(params: seq<Param>): (r: seq<nat>)
    ensures |r| == Count(params, JsonParam)
    ensures forall k | 0 <= k < |r| :: r[k] < |params|
  {
    if params == [] then [] else
      var n := |params| - 1;
      JsonIndices(params[..n]) + if params[n] == JsonParam then [n] else []
  }

  lemma {:induction false} JsonIndexOf(params: seq<Param>, k: nat)
    requires k < |JsonIndices(params)|
    ensures var i := JsonIndices(params)[k]; params[i] == JsonParam && Count(params[..i], JsonParam) == k
    decreases |params|
  {
    var n := |params| - 1;
    if k < |JsonIndices(params[..n])| {
      JsonIndexOf(params[..n], k);
      var i := JsonIndices(params)[k];
      assert params[..n][..i] == params[..i];
    }
  }

  lemma {:induction false} CountBelow(params: seq<Param>, i: nat, j: nat, p: Param)
    requires i < j <= |params| && params[i] == p
    ensures Count(params[..i], p) < Count(params[..j], p)
    decreases j
  {
    assert params[..j][..j - 1] == params[..j - 1];
    if i < j - 1 {
      CountBelow(params, i, j - 1, p);
    }
  }

  function Skip<T>(s: seq<T>, k: nat): seq<T> {
    if k <= |s| then s[k..] else []
  }

  /**
   * Library calls on one parameter, by its position: whether UnmarshalBinary takes these bytes and
   * whether json.Unmarshal takes this value; and the values of a JSON list, if the text is one.
   */
  datatype Conv = Conv(
    takesBin: (nat, Blob) -> bool,
    takesJson: (nat, Json.Value) -> bool,
    parse: string -> Option<seq<Json.Value>>)

  predicate SlotTaken(conv: Conv, i: nat, s: Slot) {
    match s
    case BinSlot(b) => conv.takesBin(i, b)
    case JsonSlot(v) => conv.takesJson(i, v)
    case _ => true
  }

  /** Every buffer and value that is handed to a parameter is taken by it. */
  predicate AllTaken(conv: Conv, params: seq<Param>, vals: seq<Json.Value>, bufs: seq<Blob>) {
    forall i | 0 <= i < |params| :: SlotTaken(conv, i, SlotAt(params, vals, bufs, i))
  }

  /** The first loop of UnmarshalArgs: allocate every argument and fill the binary ones. */
  method Allocate(conv: Conv, params: seq<Param>, buffer: seq<Blob>)
    returns (slots: array<Slot>, argv: seq<nat>, ok: bool)
    ensures fresh(slots) && slots.Length == |params|
    ensures ok <==> AllTaken(conv, params, [], buffer)
    ensures ok ==> forall k | 0 <= k < |params| :: slots[k] == SlotAt(params, [], buffer, k)
    ensures ok ==> argv == JsonIndices(params)
  {
    slots := new Slot[|params|](_ => Invalid);
    argv := [];
    var left := buffer;
    for i := 0 to |params|
      invariant argv == JsonIndices(params[..i])
      invariant left == Skip(buffer, Count(params[..i], BinParam))
      invariant forall k | 0 <= k < |params| ::
        slots[k] == if k < i then SlotAt(params, [], buffer, k) else Invalid
      invariant forall k | 0 <= k < i :: SlotTaken(conv, k, SlotAt(params, [], buffer, k))
    {
      assert params[..i + 1][..i] == params[..i];
      if params[i].SocketParam? {
        continue;
      }
      slots[i] := Fresh;
      if params[i].BinParam? {
        if |left| > 0 {
          if !conv.takesBin(i, left[0]) {
            assert !SlotTaken(conv, i, SlotAt(params, [], buffer, i));
            return slots, argv, false;
          }
          slots[i] := BinSlot(left[0]);
          left := left[1..];
        }
      } else {
        argv := argv + [i];
      }
    }
    assert params[..|params|] == params;
    ok := true;
  }

  /** One more value changes only the slot it is for. */
  lemma NextValue(params: seq<Param>, vals: seq<Json.Value>, bufs: seq<Blob>, k: nat, i: nat)
    requires k < |vals| && k < |JsonIndices(params)| && i < |params|
    ensures SlotAt(params, vals[..k + 1], bufs, i)
         == if i == JsonIndices(params)[k] then JsonSlot(vals[k]) else SlotAt(params, vals[..k], bufs, i)
  {
    JsonIndexOf(params, k);
    var j := JsonIndices(params)[k];
    if params[i] == JsonParam && i < j { CountBelow(params, i, j, JsonParam); }
    if params[i] == JsonParam && i > j { CountBelow(params, j, i, JsonParam); }
  }

  /** Values beyond the last JSON parameter go nowhere. */
  lemma EnoughValues(params: seq<Param>, vals: seq<Json.Value>, bufs: seq<Blob>, k: nat, i: nat)
    requires k <= |vals| && (k == |vals| || k >= |JsonIndices(params)|) && i < |params|
    ensures SlotAt(params, vals[..k], bufs, i) == SlotAt(params, vals, bufs, i)
  {
    if params[i] == JsonParam {
      CountBelow(params, i, |params|, JsonParam);
      assert params[..|params|] == params;
    }
  }

  /** json.Unmarshal into argv: value number k goes through pointer number k; an error does not stop it. */
  method FillJson(conv: Conv, params: seq<Param>, vals: seq<Json.Value>, buffer: seq<Blob>,
                  slots: array<Slot>, argv: seq<nat>) returns (ok: bool)
    requires slots.Length == |params| && argv == JsonIndices(params)
    requires forall k | 0 <= k < |params| :: slots[k] == SlotAt(params, [], buffer, k)
    requires AllTaken(conv, params, [], buffer)
    modifies slots
    ensures ok <==> AllTaken(conv, params, vals, buffer)
    ensures ok ==> forall i | 0 <= i < |params| :: slots[i] == SlotAt(params, vals, buffer, i)
  {
    var k := 0;
    ok := true;
    assert vals[..0] == [];
    while k < |argv| && k < |vals|
      invariant 0 <= k <= |argv| && k <= |vals|
      invariant ok <==> AllTaken(conv, params, vals[..k], buffer)
      invariant ok ==> forall i | 0 <= i < |params| :: slots[i] == SlotAt(params, vals[..k], buffer, i)
    {
      TakenSoFar(conv, params, vals, buffer, k);
      if conv.takesJson(argv[k], vals[k]) {
        slots[argv[k]] := JsonSlot(vals[k]);
      } else {
        ok := false;
      }
      k := k + 1;
      forall i | 0 <= i < |params| && ok
        ensures slots[i] == SlotAt(params, vals[..k], buffer, i)
      {
        NextValue(params, vals, buffer, k - 1, i);
      }
    }
    forall i | 0 <= i < |params|
      ensures SlotAt(params, vals[..k], buffer, i) == SlotAt(params, vals, buffer, i)
    {
      EnoughValues(params, vals, buffer, k, i);
    }
  }

  lemma TakenSoFar(conv: Conv, params: seq<Param>, vals: seq<Json.Value>, bufs: seq<Blob>, k: nat)
    requires k < |vals| && k < |JsonIndices(params)|
    ensures AllTaken(conv, params, vals[..k + 1], bufs)
       <==> AllTaken(conv, params, vals[..k], bufs) && conv.takesJson(JsonIndices(params)[k], vals[k])
  {
    var j := JsonIndices(params)[k];
    forall i | 0 <= i < |params|
      ensures SlotAt(params, vals[..k + 1], bufs, i)
           == if i == j then JsonSlot(vals[k]) else SlotAt(params, vals[..k], bufs, i)
    {
      NextValue(params, vals, bufs, k, i);
    }
    JsonIndexOf(params, k);
    assert SlotAt(params, vals[..k], bufs, j) == Fresh;
    if AllTaken(conv, params, vals[..k + 1], bufs) {
      assert SlotTaken(conv, j, SlotAt(params, vals[..k + 1], bufs, j));
      forall i | 0 <= i < |params| ensures SlotTaken(conv, i, SlotAt(params, vals[..k], bufs, i)) {
        assert SlotTaken(conv, i, SlotAt(params, vals[..k + 1], bufs, i));
      }
    } else {
      var i :| 0 <= i < |params| && !SlotTaken(conv, i, SlotAt(params, vals[..k + 1], bufs, i));
      assert i != j ==> !SlotTaken(conv, i, SlotAt(params, vals[..k], bufs, i));
    }
  }

  /**
   * UnmarshalArgs as written: allocate and fill binaries, then decode the JSON list in one go. It
   * fails exactly when the text is no list or some parameter does not take what it is handed.
   */
  method UnmarshalArgs(conv: Conv, params: seq<Param>, data: string, buffer: seq<Blob>)
    returns (r: Option<array<Slot>>)
    ensures r.Some? <==> conv.parse(data).Some? && AllTaken(conv, params, conv.parse(data).value, buffer)
    ensures r.Some? ==> fresh(r.value) && r.value[..] == Merge(params, conv.parse(data).value, buffer)
  {
    var slots, argv, ok := Allocate(conv, params, buffer);
    var parsed := conv.parse(data);
    if !ok {
      if parsed.Some? { BinaryNotTaken(conv, params, parsed.value, buffer); }
      return None;
    }
    if parsed.None? { return None; }
    ok := FillJson(conv, params, parsed.value, buffer, slots, argv);
    if !ok { return None; }
    forall i | 0 <= i < |params| ensures slots[i] == Merge(params, parsed.value, buffer)[i] {
      MergeAt(params, parsed.value, buffer, i);
    }
    r := Some(slots);
  }

  lemma BinaryNotTaken(conv: Conv, params: seq<Param>, vals: seq<Json.Value>, bufs: seq<Blob>)
    requires !AllTaken(conv, params, [], bufs)
    ensures !AllTaken(conv, params, vals, bufs)
  {
    var i :| 0 <= i < |params| && !SlotTaken(conv, i, SlotAt(params, [], bufs, i));
    assert SlotAt(params, vals, bufs, i) == SlotAt(params, [], bufs, i);
  }

  /** Call as written: overwrite the Socket entries of the slice; nothing is called after an error. */
  method Call(conv: Conv, params: seq<Param>, data: string, buffer: seq<Blob>) returns (r: Option<array<Slot>>)
    ensures r.Some? <==> Handed(conv, params, data, buffer).Some?
    ensures r.Some? ==> fresh(r.value) && Some(r.value[..]) == Handed(conv, params, data, buffer)
  {
    r := UnmarshalArgs(conv, params, data, buffer);
    if r.None? { return; }
    var slots := r.value;
    ghost var merged := slots[..];
    for i := 0 to |params|
      invariant slots.Length == |params|
      invariant forall k | 0 <= k < |params| ::
        slots[k] == if k < i && params[k].SocketParam? then SocketSlot else merged[k]
    {
      if params[i].SocketParam? {
        slots[i] := SocketSlot;
      }
    }
    assert slots[..] == WithSocket(params, merged);
  }

  // ---- split then merge ----

  function KindOf(e: Elem): Param {
    if e.Bin? then BinParam else JsonParam
  }

  function SlotOf(e: Elem): Slot {
    match e case Bin(b) => BinSlot(b) case Val(v) => JsonSlot(v)
  }

  /** The parameters and slots at non-Socket positions, in order. */
  function Others(params: seq<Param>): seq<Param> {
    if params == [] then []
    else (if params[0].SocketParam? then [] else [params[0]]) + Others(params[1..])
  }

  function OtherSlots(params: seq<Param>, slots: seq<Slot>): (r: seq<Slot>)
    requires |slots| == |params|
    ensures |r| == |Others(params)|
  {
    if params == [] then []
    else (if params[0].SocketParam? then [] else [slots[0]]) + OtherSlots(params[1..], slots[1..])
  }

  function Kinds(args: seq<Elem>): (r: seq<Param>)
    ensures |r| == |args| && forall i | 0 <= i < |args| :: r[i] == KindOf(args[i])
  {
    seq(|args|, i requires 0 <= i < |args| => KindOf(args[i]))
  }

  function SlotsOf(args: seq<Elem>): (r: seq<Slot>)
    ensures |r| == |args| && forall i | 0 <= i < |args| :: r[i] == SlotOf(args[i])
  {
    seq(|args|, i requires 0 <= i < |args| => SlotOf(args[i]))
  }

  /** A slot's kind, when it was filled, is its parameter's kind. */
  lemma {:induction false} SlotKinds(params: seq<Param>, vals: seq<Json.Value>, bufs: seq<Blob>, i: nat)
    requires i < |Others(params)|
    ensures var s := OtherSlots(params, Merge(params, vals, bufs))[i];
      && Others(params)[i] != SocketParam
      && (s.BinSlot? ==> Others(params)[i] == BinParam) && (s.JsonSlot? ==> Others(params)[i] == JsonParam)
    decreases |params|
  {
    var p := params[0];
    var vals', bufs' := RestVals(p, vals), RestBufs(p, bufs);
    var merged := Merge(params, vals, bufs);
    assert merged[0] == First(p, vals, bufs) && merged[1..] == Merge(params[1..], vals', bufs');
    if p.SocketParam? {
      SlotKinds(params[1..], vals', bufs', i);
    } else if i > 0 {
      SlotKinds(params[1..], vals', bufs', i - 1);
    }
  }

  lemma SplitHead(args: seq<Elem>)
    requires args != []
    ensures args[0].Bin? ==> Bins(args) == [args[0].data] + Bins(args[1..]) && Vals(args) == Vals(args[1..])
    ensures args[0].Bin? ==> Bins(args)[1..] == Bins(args[1..])
    ensures args[0].Val? ==> Vals(args) == [args[0].v] + Vals(args[1..]) && Bins(args) == Bins(args[1..])
    ensures args[0].Val? ==> Vals(args)[1..] == Vals(args[1..])
  {
  }

  lemma {:induction false} MergeRestores(params: seq<Param>, args: seq<Elem>)
    requires Others(params) == Kinds(args)
    ensures OtherSlots(params, Merge(params, Vals(args), Bins(args))) == SlotsOf(args)
    decreases |params|
  {
    if params != [] {
      var p, vals, bufs := params[0], Vals(args), Bins(args);
      if p.SocketParam? {
        MergeRestores(params[1..], args);
        assert Merge(params, vals, bufs)[1..] == Merge(params[1..], vals, bufs);
      } else {
        OthersFirst(params, args);
        MergeRestores(params[1..], args[1..]);
        MergeFirst(params, args);
        var rest := Merge(params[1..], Vals(args[1..]), Bins(args[1..]));
        OtherSlotsFirst(params, SlotOf(args[0]), rest);
        SlotsOfFirst(args);
      }
    }
  }

  lemma OthersFirst(params: seq<Param>, args: seq<Elem>)
    requires params != [] && !params[0].SocketParam? && Others(params) == Kinds(args)
    ensures args != [] && params[0] == KindOf(args[0]) && Others(params[1..]) == Kinds(args[1..])
  {
    assert Others(params)[0] == params[0] && Others(params)[1..] == Others(params[1..]);
    assert |Kinds(args)| == |args|;
    assert Kinds(args)[1..] == Kinds(args[1..]);
  }

  lemma OtherSlotsFirst(params: seq<Param>, s: Slot, rest: seq<Slot>)
    requires params != [] && !params[0].SocketParam? && |rest| == |params| - 1
    ensures OtherSlots(params, [s] + rest) == [s] + OtherSlots(params[1..], rest)
  {
    assert ([s] + rest)[1..] == rest;
  }

  lemma SlotsOfFirst(args: seq<Elem>)
    requires args != []
    ensures SlotsOf(args) == [SlotOf(args[0])] + SlotsOf(args[1..])
  {
  }

  lemma MergeFirst(params: seq<Param>, args: seq<Elem>)
    requires params != [] && args != [] && params[0] == KindOf(args[0])
    ensures Merge(params, Vals(args), Bins(args))
         == [SlotOf(args[0])] + Merge(params[1..], Vals(args[1..]), Bins(args[1..]))
  {
    var p, vals, bufs := params[0], Vals(args), Bins(args);
    FirstOfSplit(p, args);
    var rest := Merge(params[1..], RestVals(p, vals), RestBufs(p, bufs));
    assert Merge(params, vals, bufs) == [First(p, vals, bufs)] + rest;
  }

  lemma FirstOfSplit(p: Param, args: seq<Elem>)
    requires args != [] && p == KindOf(args[0])
    ensures First(p, Vals(args), Bins(args)) == SlotOf(args[0])
    ensures RestVals(p, Vals(args)) == Vals(args[1..]) && RestBufs(p, Bins(args)) == Bins(args[1..])
  {
    SplitHead(args);
  }

  /**
   * Splitting an argument list into JSON values and binary buffers and merging them back gives
   * every argument its own position exactly when the callback's non-Socket parameters have the
   * arguments' kinds in the arguments' order; every Socket parameter gets the Socket.
   */
  lemma SplitThenMerge(params: seq<Param>, args: seq<Elem>)
    requires |Others(params)| == |args|
    ensures var got := WithSocket(params, Merge(params, Vals(args), Bins(args)));
      && (OtherSlots(params, got) == SlotsOf(args) <==> Others(params) == Kinds(args))
      && (forall i | 0 <= i < |params| && params[i].SocketParam? :: got[i] == SocketSlot)
  {
    var merged := Merge(params, Vals(args), Bins(args));
    OtherSlotsSame(params, merged, WithSocket(params, merged));
    if Others(params) == Kinds(args) {
      MergeRestores(params, args);
    } else {
      var i :| 0 <= i < |args| && Others(params)[i] != Kinds(args)[i];
      SlotKinds(params, Vals(args), Bins(args), i);
      assert OtherSlots(params, merged)[i] != SlotsOf(args)[i];
    }
  }

  lemma {:induction false} OtherSlotsSame(params: seq<Param>, a: seq<Slot>, b: seq<Slot>)
    requires |a| == |b| == |params|
    requires forall i | 0 <= i < |params| && !params[i].SocketParam? :: a[i] == b[i]
    ensures OtherSlots(params, a) == OtherSlots(params, b)
    decreases |params|
  {
    if params != [] {
      OtherSlotsSame(params[1..], a[1..], b[1..]);
    }
  }

  /** What the slots of an emitted packet hold, as the raw buffers ParseData hands on. */
  function Contents(slots: seq<Option<Blob>>): seq<Blob>
    requires forall i | 0 <= i < |slots| :: slots[i].Some?
  {
    seq(|slots|, i requires 0 <= i < |slots| => slots[i].value)
  }

  /** What Call hands to the callback; nothing if some parameter does not take its argument. */
  ghost function Handed(conv: Conv, params: seq<Param>, data: string, bufs: seq<Blob>): Option<seq<Slot>> {
    var vals :- conv.parse(data);
    if AllTaken(conv, params, vals, bufs) then Some(WithSocket(params, Merge(params, vals, bufs))) else None
  }

  predicate Takes(conv: Conv, i: nat, e: Elem) {
    match e case Bin(b) => conv.takesBin(i, b) case Val(v) => conv.takesJson(i, v)
  }

  /** Every non-Socket parameter, counted from `i`, takes the argument in its own place. */
  predicate ArgsTaken(conv: Conv, params: seq<Param>, args: seq<Elem>, i: nat)
    requires |Others(params)| == |args|
  {
    if params == [] then true
    else if params[0].SocketParam? then ArgsTaken(conv, params[1..], args, i + 1)
    else Takes(conv, i, args[0]) && ArgsTaken(conv, params[1..], args[1..], i + 1)
  }

  /** Every slot, counted from `i`, is taken. */
  predicate SlotsTaken(conv: Conv, slots: seq<Slot>, i: nat) {
    slots == [] || (SlotTaken(conv, i, slots[0]) && SlotsTaken(conv, slots[1..], i + 1))
  }

  lemma {:induction false} SlotsTakenAll(conv: Conv, slots: seq<Slot>, i: nat)
    ensures SlotsTaken(conv, slots, i) <==> forall k | 0 <= k < |slots| :: SlotTaken(conv, i + k, slots[k])
  {
    if slots != [] {
      SlotsTakenAll(conv, slots[1..], i + 1);
      assert forall k | 1 <= k < |slots| :: slots[k] == slots[1..][k - 1];
      if forall k | 0 <= k < |slots| :: SlotTaken(conv, i + k, slots[k]) {
        forall k | 0 <= k < |slots[1..]| ensures SlotTaken(conv, i + 1 + k, slots[1..][k]) {
          assert SlotTaken(conv, i + (k + 1), slots[k + 1]);
        }
      }
    }
  }

  lemma {:induction false} MergedTaken(conv: Conv, params: seq<Param>, args: seq<Elem>, i: nat)
    requires Others(params) == Kinds(args)
    ensures SlotsTaken(conv, Merge(params, Vals(args), Bins(args)), i) <==> ArgsTaken(conv, params, args, i)
    decreases |params|
  {
    if params != [] {
      var merged := Merge(params, Vals(args), Bins(args));
      if params[0].SocketParam? {
        MergedTaken(conv, params[1..], args, i + 1);
        assert merged[1..] == Merge(params[1..], Vals(args), Bins(args));
      } else {
        OthersFirst(params, args);
        MergedTaken(conv, params[1..], args[1..], i + 1);
        MergeFirst(params, args);
        assert merged[1..] == Merge(params[1..], Vals(args[1..]), Bins(args[1..]));
      }
    }
  }

  lemma AllTakenIs(conv: Conv, params: seq<Param>, args: seq<Elem>)
    requires Others(params) == Kinds(args)
    ensures AllTaken(conv, params, Vals(args), Bins(args)) <==> ArgsTaken(conv, params, args, 0)
  {
    var merged := Merge(params, Vals(args), Bins(args));
    assert SlotsTaken(conv, merged, 0) <==> forall k | 0 <= k < |merged| :: SlotTaken(conv, k, merged[k]) by {
      SlotsTakenAll(conv, merged, 0);
    }
    MergedTaken(conv, params, args, 0);
    AllTakenMerged(conv, params, Vals(args), Bins(args));
  }

  lemma AllTakenMerged(conv: Conv, params: seq<Param>, vals: seq<Json.Value>, bufs: seq<Blob>)
    ensures AllTaken(conv, params, vals, bufs)
       <==> forall i | 0 <= i < |params| :: SlotTaken(conv, i, Merge(params, vals, bufs)[i])
  {
    var merged := Merge(params, vals, bufs);
    if AllTaken(conv, params, vals, bufs) {
      forall i | 0 <= i < |params| ensures SlotTaken(conv, i, merged[i]) {
        MergeAt(params, vals, bufs, i);
      }
    } else {
      var i :| 0 <= i < |params| && !SlotTaken(conv, i, SlotAt(params, vals, bufs, i));
      MergeAt(params, vals, bufs, i);
      assert !SlotTaken(conv, i, merged[i]);
    }
  }

  /**
   * From emit on one side to the callback on the other: the frames of a plain, deliverable event
   * yield one packet; the callback is called for it if and only if every parameter takes the
   * argument in its own place, and is then given the arguments as they were, in their places. What
   * json.Unmarshal makes of the list's text is given by `conv`.
   */
  lemma CallbackReceivesArguments(lib: Lib, conv: Conv, params: seq<Param>,
                                  nsp: string, id: Option<nat>, name: string, args: seq<Elem>)
    requires PlainNsp(lib, WithSlash(nsp)) && ValidId(id) && |Bins(args)| < TWO63
    requires PlainName(name) && Deliverable(args) && Others(params) == Kinds(args)
    requires conv.parse(Json.Render(Json.Arr(Vals(args))) + "\n") == Some(Vals(args))
    ensures var got := Packets(Feed(lib, None, EventFrames(nsp, id, name, args)).1);
      && |got| == 1 && ParseData(got[0]).Ok?
      && var parts := ParseData(got[0]).value;
      parts.event == name && CallbackGets(conv, params, args, parts)
  {
    var data := Json.Render(Json.Arr(Vals(args))) + "\n";
    EventParsed(lib, nsp, id, name, args, data);
    HandedOver(conv, params, args, Parts(name, data, Slots(Bins(args))));
  }

  /** What the callback gets from a packet with these parts, and when. */
  ghost predicate CallbackGets(conv: Conv, params: seq<Param>, args: seq<Elem>, parts: Parts)
    requires |Others(params)| == |args|
  {
    && (forall i | 0 <= i < |parts.bin| :: parts.bin[i].Some?)
    && CallGives(params, args, Handed(conv, params, parts.data, Contents(parts.bin)), ArgsTaken(conv, params, args, 0))
  }

  lemma EventParsed(lib: Lib, nsp: string, id: Option<nat>, name: string, args: seq<Elem>, data: string)
    requires PlainNsp(lib, WithSlash(nsp)) && ValidId(id) && |Bins(args)| < TWO63
    requires PlainName(name) && Deliverable(args) && data == Json.Render(Json.Arr(Vals(args))) + "\n"
    ensures var got := Packets(Feed(lib, None, EventFrames(nsp, id, name, args)).1);
      |got| == 1 && ParseData(got[0]) == Ok(Parts(name, data, Slots(Bins(args))))
  {
    MessageDelivery(lib, EventTheorems.Call(nsp, id, name, args));
  }

  /** The call happens exactly when `taken`, with every argument and Socket in its place. */
  predicate CallGives(params: seq<Param>, args: seq<Elem>, handed: Option<seq<Slot>>, taken: bool) {
    && (handed.Some? <==> taken)
    && (handed.Some? ==>
          && |handed.value| == |params| && OtherSlots(params, handed.value) == SlotsOf(args)
          && forall i | 0 <= i < |params| && params[i].SocketParam? :: handed.value[i] == SocketSlot)
  }

  lemma HandedOver(conv: Conv, params: seq<Param>, args: seq<Elem>, parts: Parts)
    requires Others(params) == Kinds(args) && conv.parse(parts.data) == Some(Vals(args))
    requires parts.bin == Slots(Bins(args))
    ensures CallbackGets(conv, params, args, parts)
  {
    assert Contents(parts.bin) == Bins(args);
    AllTakenIs(conv, params, args);
    SplitThenMerge(params, args);
  }
}
