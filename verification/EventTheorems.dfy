/** Sending events: exactly which events arrive, and arrive as they were sent. */
module EventTheorems {
  import opened Common
  import opened Placeholder
  import opened Codec
  import opened CodecTheorems
  import Json

  // ---- stray placeholders ----

  /**
   * Placeholder-shaped objects that the caller's own JSON arguments carry: an argument that is
   * one, or a list inside an argument that has one after its first element.
   */
  function Stray(args: seq<Elem>): nat {
    if args == [] then 0
    else
      (match args[0]
       case Bin(_) => 0
       case Val(v) => if IsHole(v) then 1 else Holes(v)) + Stray(args[1..])
  }

  lemma HoleIsHole(n: nat)
    ensures IsHole(Hole(n))
  {
  }

  /** The decoder finds the holes the encoder made and the stray ones. */
  lemma {:induction false} HolesFound(args: seq<Elem>, n: nat)
    ensures HolesInMore(Plugged(args, n)) == |Bins(args)| + Stray(args)
  {
    if args != [] {
      HoleIsHole(n);
      var n' := if args[0].Bin? then n + 1 else n;
      HolesFound(args[1..], n');
      assert Plugged(args, n)[1..] == Plugged(args[1..], n');
    }
  }

  lemma {:induction false} NothingToPrune(v: Json.Value)
    requires Holes(v) == 0
    ensures Prune(v) == v
    decreases v, 0
  {
    match v
    case Arr(items) =>
      if items != [] {
        NothingToPrune(items[0]);
        NothingInMore(items[1..]);
        assert items == [items[0]] + items[1..];
      }
    case Obj(members) => NothingInMembers(members);
    case _ =>
  }

  lemma {:induction false} NothingInMore(items: seq<Json.Value>)
    requires HolesInMore(items) == 0
    ensures PruneMoreItems(items) == items
    decreases items, 1
  {
    if items != [] {
      NothingToPrune(items[0]);
      NothingInMore(items[1..]);
      assert items == [items[0]] + items[1..];
    }
  }

  lemma {:induction false} NothingInMembers(members: seq<Json.Member>)
    requires HolesInMembers(members) == 0
    ensures PruneMembers(members) == members
    decreases members, 2
  {
    if members != [] {
      NothingInMember(members[0]);
      NothingInMembers(members[1..]);
      assert members == [members[0]] + members[1..];
    }
  }

  lemma {:induction false} NothingInMember(m: Json.Member)
    requires HolesInMember(m) == 0
    ensures PruneMember(m) == m
    decreases m, 1
  {
    NothingToPrune(m.value);
  }

  /** Without stray holes, stripping leaves exactly the JSON arguments. */
  lemma {:induction false} PruneLeavesVals(args: seq<Elem>, n: nat)
    requires Stray(args) == 0
    ensures PruneMoreItems(Plugged(args, n)) == Vals(args)
  {
    if args != [] {
      var n' := if args[0].Bin? then n + 1 else n;
      PruneLeavesVals(args[1..], n');
      if args[0].Bin? {
        HoleIsHole(n);
        PruneCons(Hole(n), Plugged(args[1..], n'));
      } else {
        NothingToPrune(args[0].v);
        PruneCons(args[0].v, Plugged(args[1..], n'));
      }
    }
  }

  lemma PruneCons(v: Json.Value, vs: seq<Json.Value>)
    ensures PruneMoreItems([v] + vs) == (if IsHole(v) then [] else [Prune(v)]) + PruneMoreItems(vs)
  {
    assert ([v] + vs)[1..] == vs;
  }

  lemma {:induction false} NoBinsPlugged(args: seq<Elem>, n: nat)
    requires Bins(args) == []
    ensures Plugged(args, n) == Vals(args)
  {
    if args != [] {
      NoBinsPlugged(args[1..], n);
    }
  }

  // ---- events ----

  /** The list emit builds: the event name, then the arguments. */
  function EventItems(name: string, args: seq<Elem>): seq<Elem> {
    [Val(Json.Str(name))] + args
  }

  /** An event is deliverable when it has no binary argument or its JSON arguments have no stray holes. */
  predicate Deliverable(args: seq<Elem>) {
    Bins(args) == [] || Stray(args) == 0
  }

  lemma EventWire(name: string, args: seq<Elem>)
    ensures Bins(EventItems(name, args)) == Bins(args)
    ensures Wire(EventItems(name, args)) == Json.Arr([Json.Str(name)] + Plugged(args, 0))
    ensures Holes(Wire(EventItems(name, args))) == |Bins(args)| + Stray(args)
    ensures Countable(EventItems(name, args)) <==> Deliverable(args)
  {
    var items := EventItems(name, args);
    assert items[1..] == args;
    HolesFound(args, 0);
    var vs := [Json.Str(name)] + Plugged(args, 0);
    assert vs[1..] == Plugged(args, 0);
  }

  lemma EventReceived(typ: PacketType, nsp: string, id: Option<nat>, name: string, args: seq<Elem>)
    requires Deliverable(args)
    ensures ReceivedList(typ, nsp, id, EventItems(name, args))
         == Packet(if Bins(args) == [] then typ else typ.Promoted(), Normal(nsp),
                   Raw(Json.Render(Json.Arr([Json.Str(name)] + Vals(args))) + "\n"), id, 0, Slots(Bins(args)))
  {
    EventWire(name, args);
    EventPruned(name, args);
  }

  /** What is left of the rendered list at the receiver. */
  lemma EventPruned(name: string, args: seq<Elem>)
    requires Deliverable(args)
    ensures var wire := Wire(EventItems(name, args));
      (if Bins(args) == [] then wire else Prune(wire)) == Json.Arr([Json.Str(name)] + Vals(args))
  {
    EventWire(name, args);
    if Bins(args) == [] {
      NoBinsPlugged(args, 0);
    } else {
      PruneLeavesVals(args, 0);
      PruneHead(Json.Str(name), Plugged(args, 0));
    }
  }

  lemma PruneHead(v: Json.Value, vs: seq<Json.Value>)
    ensures Prune(Json.Arr([v] + vs)) == Json.Arr([Prune(v)] + PruneMoreItems(vs))
  {
    assert ([v] + vs)[1..] == vs;
  }

  // ---- the event name ----

  /** Escaping never shortens, and keeps the length only of what it copies. */
  lemma {:induction false} EscapeGrows(s: string)
    ensures |Json.Escape(s)| >= |s|
    ensures |Json.Escape(s)| == |s| <==> Json.Verbatim(s)
  {
    if s != "" {
      EscapeGrows(s[Json.RuneSize(s)..]);
    }
  }

  lemma PlainRuneIs(u: string)
    requires Json.IsRune(u) && Json.IsPlainRune(u)
    ensures Json.EscapeRune(u) == u && '"' !in u
  {
  }

  lemma {:induction false} VerbatimEscape(s: string)
    requires Json.Verbatim(s)
    ensures Json.Escape(s) == s && '"' !in s
  {
    if s != "" {
      var k := Json.RuneSize(s);
      var u, more := s[..k], s[k..];
      assert s == u + more;
      PlainRuneIs(u);
      VerbatimEscape(more);
      EscapeParts(s, u, more);
    }
  }

  lemma {:induction false} EscapeQuoteFree(s: string)
    requires '"' !in s
    ensures '"' !in Json.Escape(s)
  {
    if s != "" {
      EscapeQuoteFree(s[Json.RuneSize(s)..]);
    }
  }

  lemma {:induction false} QuoteFreeRunUnique(b: string, k: nat)
    requires k <= |b| && '"' !in b[..k] && (k < |b| ==> b[k] == '"')
    ensures QuoteFreeRun(b) == k
  {
    if k > 0 {
      assert b[..k] == [b[0]] + b[1..][..k - 1];
      QuoteFreeRunUnique(b[1..], k - 1);
    }
  }

  /** A name that reads back from the rendered list as it was written. */
  predicate PlainName(name: string) {
    name != "" && Json.Verbatim(name)
  }

  /** What extractEvent sees after the opening quote. */
  lemma EventHead(name: string, more: string)
    ensures ExtractEvent("[" + (Json.Quote(name) + more)) == NameAndRest(Tail(name, more))
  {
    var b := "[" + (Json.Quote(name) + more);
    QuotedTail(name, more);
    assert b[1..] == "\"" + Tail(name, more);
    TokenHere("\"", Tail(name, more));
  }

  lemma QuotedTail(name: string, more: string)
    ensures Json.Quote(name) + more == "\"" + Tail(name, more)
  {
    CatAssoc("\"" + Json.Escape(name), "\"", more);
    CatAssoc("\"", Json.Escape(name), "\"" + more);
  }

  lemma NameRead(name: string, more: string)
    requires Json.Verbatim(name)
    ensures QuoteFreeRun(Tail(name, more)) == |name| < |Tail(name, more)|
    ensures Tail(name, more)[..|name|] == name && Tail(name, more)[|name| + 1..] == more
  {
    VerbatimEscape(name);
    BeforeQuote(name, more);
  }

  lemma BeforeQuote(name: string, more: string)
    requires '"' !in name
    ensures var s := name + ("\"" + more);
      && QuoteFreeRun(s) == |name| < |s| && s[..|name|] == name && s[|name| + 1..] == more
  {
    var s := name + ("\"" + more);
    assert s[..|name|] == name;
    QuoteFreeRunUnique(s, |name|);
  }

  lemma NameMisread(name: string, more: string)
    requires !Json.Verbatim(name)
    ensures var k := QuoteFreeRun(Tail(name, more)); Tail(name, more)[..k] != name
  {
    var inner := Tail(name, more);
    if '"' !in name {
      EscapeQuoteFree(name);
      EscapeGrows(name);
      assert inner[..|Json.Escape(name)|] == Json.Escape(name);
      QuoteFreeRunUnique(inner, |Json.Escape(name)|);
    }
  }

  /** extractEvent on the text of an event list: the name, and the text of the remaining list. */
  lemma ExtractEventRight(name: string, vs: seq<Json.Value>)
    requires PlainName(name)
    ensures ExtractEvent(Json.Render(Json.Arr([Json.Str(name)] + vs)) + "\n")
         == Some((name, Json.Render(Json.Arr(vs)) + "\n"))
  {
    var more := Json.RenderMoreItems(vs) + "\n";
    EventText(name, vs);
    EventHead(name, more);
    NameRead(name, more);
    RestOfList(vs);
    CatAssoc("[", Json.RenderItems(vs), "\n");
  }

  lemma RestOfList(vs: seq<Json.Value>)
    ensures DropComma(SkipSpace(Json.RenderMoreItems(vs) + "\n")) == Json.RenderItems(vs) + "\n"
  {
    if vs == [] {
      assert SkipSpace("]\n") == "]\n";
    } else {
      var t := Json.RenderItems(vs) + "\n";
      CatAssoc(",", Json.Render(vs[0]), Json.RenderMoreItems(vs[1..]));
      CatAssoc(",", Json.RenderItems(vs), "\n");
      assert SkipSpace("," + t) == "," + t && ("," + t)[1..] == t;
    }
  }

  lemma EventText(name: string, vs: seq<Json.Value>)
    ensures Json.Render(Json.Arr([Json.Str(name)] + vs)) + "\n"
         == "[" + (Json.Quote(name) + (Json.RenderMoreItems(vs) + "\n"))
  {
    var all := [Json.Str(name)] + vs;
    assert all[1..] == vs;
    var q, r := Json.Quote(name), Json.RenderMoreItems(vs);
    assert Json.RenderItems(all) == q + r;
    CatAssoc("[", q + r, "\n");
    CatAssoc(q, r, "\n");
  }

  /** With any other name, the decoder reports no event or a different one. */
  lemma ExtractEventWrong(name: string, vs: seq<Json.Value>)
    requires !PlainName(name)
    ensures var r := ExtractEvent(Json.Render(Json.Arr([Json.Str(name)] + vs)) + "\n");
      r == None || r.value.0 != name
  {
    var more := Json.RenderMoreItems(vs) + "\n";
    EventText(name, vs);
    EventHead(name, more);
    if name == "" {
      assert Tail(name, more)[0] == '"';
    } else {
      NameMisread(name, more);
    }
  }

  // ---- end to end ----

  function EventFrames(nsp: string, id: Option<nat>, name: string, args: seq<Elem>): seq<Frame> {
    ListFrames(Event, nsp, id, EventItems(name, args))
  }

  /** A received packet that gives the handler the event as it was sent. */
  predicate Faithful(p: Packet<Incoming>, nsp: string, id: Option<nat>, name: string, args: seq<Elem>) {
    && p.nsp == Normal(nsp) && p.id == id
    && p.typ == (if Bins(args) == [] then Event else BinaryEvent)
    && ParseData(p) == Ok(Parts(name, Json.Render(Json.Arr(Vals(args))) + "\n", Slots(Bins(args))))
  }

  lemma ReceivedFaithful(nsp: string, id: Option<nat>, name: string, args: seq<Elem>)
    requires Deliverable(args)
    ensures Faithful(ReceivedList(Event, nsp, id, EventItems(name, args)), nsp, id, name, args) <==> PlainName(name)
  {
    EventReceived(Event, nsp, id, name, args);
    var typ := if Bins(args) == [] then Event else BinaryEvent;
    ParsedEvent(typ, nsp, id, name, Vals(args), Slots(Bins(args)));
  }

  /** ParseData of an event's list gives the name back exactly when it is plain. */
  lemma ParsedEvent(typ: PacketType, nsp: string, id: Option<nat>, name: string,
                    vs: seq<Json.Value>, slots: seq<Option<Blob>>)
    requires typ == Event ==> slots == []
    requires typ == Event || typ == BinaryEvent
    ensures var text := Json.Render(Json.Arr([Json.Str(name)] + vs)) + "\n";
      var parts := Parts(name, Json.Render(Json.Arr(vs)) + "\n", slots);
      ParseData(Packet(typ, Normal(nsp), Raw(text), id, 0, slots)) == Ok(parts) <==> PlainName(name)
  {
    if PlainName(name) {
      ExtractEventRight(name, vs);
    } else {
      ExtractEventWrong(name, vs);
    }
  }

  /**
   * End to end: a fresh decoder fed the frames of an event emits exactly one packet, and it is
   * faithful, if and only if the namespace and the event name survive and either no argument is
   * binary or no JSON argument carries a stray placeholder.
   */
  lemma EventEndToEnd(lib: Lib, nsp: string, id: Option<nat>, name: string, args: seq<Elem>)
    requires Shrinks(lib) && ValidId(id) && |Bins(args)| < TWO63
    ensures var got := Packets(Feed(lib, None, EventFrames(nsp, id, name, args)).1);
      |got| == 1 && Faithful(got[0], nsp, id, name, args)
      <==> PlainNsp(lib, WithSlash(nsp)) && PlainName(name) && Deliverable(args)
    ensures PlainNsp(lib, WithSlash(nsp)) ==> Feed(lib, None, EventFrames(nsp, id, name, args)).0 == None
  {
    EventWire(name, args);
    if PlainNsp(lib, WithSlash(nsp)) {
      FreshDelivery(lib, Event, nsp, id, EventItems(name, args));
      if Deliverable(args) {
        ReceivedFaithful(nsp, id, name, args);
      }
    } else {
      NspNotEmitted(lib, Event, nsp, id, EventItems(name, args));
    }
  }

  /** From any state of the decoder, only the last frame of a deliverable event emits. */
  lemma EventOnLastFrame(lib: Lib, lastp: Option<Packet<Incoming>>,
                         nsp: string, id: Option<nat>, name: string, args: seq<Elem>)
    requires Sound(lastp)
    requires PlainNsp(lib, WithSlash(nsp)) && ValidId(id) && |Bins(args)| < TWO63
    requires PlainName(name) && Deliverable(args)
    ensures var (last, outs) := Feed(lib, lastp, EventFrames(nsp, id, name, args));
      && last == None && EmitsLast(outs, |Bins(args)|)
      && Faithful(outs[|Bins(args)|].p, nsp, id, name, args)
  {
    EventWire(name, args);
    ListDelivery(lib, lastp, Event, nsp, id, EventItems(name, args));
    ReceivedFaithful(nsp, id, name, args);
  }

  /** `n` frames that wait, and one more that emits. */
  predicate EmitsLast(outs: seq<Output>, n: nat) {
    |outs| == n + 1 && (forall i | 0 <= i < n :: outs[i] == Waiting) && outs[n].Emitted?
  }

  // ---- acknowledgements ----

  /** When an acknowledgement's result list is accepted: the first result is special. */
  lemma AckAccepted(items: seq<Elem>)
    requires items != []
    ensures Countable(items) <==>
      || Bins(items) == []
      || (match items[0]
          case Bin(_) => Stray(items[1..]) == 1
          case Val(v) => Holes(v) == 0 && Stray(items[1..]) == 0)
  {
    var n := if items[0].Bin? then 1 else 0;
    HolesFound(items[1..], n);
    HoleIsLeaf(0);
    assert Plugged(items, 0)[1..] == Plugged(items[1..], n);
    assert Plugged(items, 0)[0] == if items[0].Bin? then Hole(0) else items[0].v;
  }

  lemma HoleIsLeaf(n: nat)
    ensures Holes(Hole(n)) == 0
  {
    var ms := Hole(n).members;
    assert HolesInMember(ms[0]) == 0 && HolesInMember(ms[1]) == 0;
    assert ms[1..] == [ms[1]] && ms[1..][1..] == [];
    assert HolesInMembers(ms[1..][1..]) == 0;
    assert HolesInMembers(ms[1..]) == HolesInMember(ms[1..][0]) + HolesInMembers(ms[1..][1..]);
  }

  /**
   * A placeholder is recognised only after a comma, so one in the place of the first result is not:
   * the acknowledgement is refused, unless exactly one stray placeholder makes up the count.
   */
  lemma AckFirstBinaryRefused(lib: Lib, nsp: string, id: Option<nat>, items: seq<Elem>)
    requires PlainNsp(lib, WithSlash(nsp)) && ValidId(id) && |Bins(items)| < TWO63
    requires items != [] && items[0].Bin?
    ensures Packets(Feed(lib, None, ListFrames(Ack, nsp, id, items)).1) == [] <==> Stray(items[1..]) != 1
  {
    AckAccepted(items);
    FreshDelivery(lib, Ack, nsp, id, items);
  }

  /** A received packet that gives the callback the results as they were sent. */
  predicate AckFaithful(p: Packet<Incoming>, nsp: string, id: Option<nat>, items: seq<Elem>) {
    && p.nsp == Normal(nsp) && p.id == id
    && p.typ == (if Bins(items) == [] then Ack else BinaryAck)
    && ParseData(p) == Ok(Parts("", Json.Render(Json.Arr(Vals(items))) + "\n", Slots(Bins(items))))
  }

  /**
   * The results that arrive: none of them binary; or the first one JSON and no stray placeholder;
   * or the first one binary, and the only stray placeholder is the first JSON result and reads
   * just like the placeholder of the first result.
   */
  predicate AckArrives(items: seq<Elem>) {
    || Bins(items) == []
    || (items != [] && items[0].Val? && Holes(items[0].v) == 0 && Stray(items[1..]) == 0)
    || (items != [] && items[0].Bin? && Stray(items[1..]) == 1 && Vals(items) != [] && Vals(items)[0] == Hole(0))
  }

  /**
   * End to end: a fresh decoder fed the frames of an acknowledgement emits exactly one packet, and
   * it is faithful, if and only if the namespace survives and the results arrive.
   */
  lemma AckEndToEnd(lib: Lib, nsp: string, id: Option<nat>, items: seq<Elem>)
    requires Shrinks(lib) && ValidId(id) && |Bins(items)| < TWO63
    ensures var got := Packets(Feed(lib, None, ListFrames(Ack, nsp, id, items)).1);
      |got| == 1 && AckFaithful(got[0], nsp, id, items) <==> PlainNsp(lib, WithSlash(nsp)) && AckArrives(items)
  {
    if PlainNsp(lib, WithSlash(nsp)) {
      AckDelivered(lib, nsp, id, items);
    } else {
      NspNotEmitted(lib, Ack, nsp, id, items);
    }
  }

  lemma AckDelivered(lib: Lib, nsp: string, id: Option<nat>, items: seq<Elem>)
    requires PlainNsp(lib, WithSlash(nsp)) && ValidId(id) && |Bins(items)| < TWO63
    ensures var got := Packets(Feed(lib, None, ListFrames(Ack, nsp, id, items)).1);
      |got| == 1 && AckFaithful(got[0], nsp, id, items) <==> AckArrives(items)
  {
    FreshDelivery(lib, Ack, nsp, id, items);
    if Countable(items) {
      AckReceived(nsp, id, items);
    } else {
      AckNotCountable(items);
    }
  }

  lemma AckNotCountable(items: seq<Elem>)
    requires !Countable(items)
    ensures !AckArrives(items)
  {
    if items != [] { AckAccepted(items); }
  }

  lemma AckReceived(nsp: string, id: Option<nat>, items: seq<Elem>)
    requires Countable(items)
    ensures AckFaithful(ReceivedList(Ack, nsp, id, items), nsp, id, items) <==> AckArrives(items)
  {
    var wire := if Bins(items) == [] then Wire(items) else Prune(Wire(items));
    AckText(items, wire);
    var a, b := Json.Render(wire), Json.Render(Json.Arr(Vals(items)));
    assert (a + "\n")[..|a|] == a && (b + "\n")[..|b|] == b;
  }

  lemma AckText(items: seq<Elem>, wire: Json.Value)
    requires Countable(items) && wire == if Bins(items) == [] then Wire(items) else Prune(Wire(items))
    ensures Json.Render(wire) == Json.Render(Json.Arr(Vals(items))) <==> AckArrives(items)
  {
    if Bins(items) == [] {
      NoBinsPlugged(items, 0);
    } else {
      AckAccepted(items);
      if items[0].Val? {
        NothingToPrune(items[0].v);
        PruneLeavesVals(items[1..], 0);
        PruneHead(items[0].v, Plugged(items[1..], 0));
      } else {
        FirstBinaryPruned(items);
        FirstBinaryText(items, PruneMoreItems(Plugged(items[1..], 1)));
      }
    }
  }

  lemma FirstBinaryText(items: seq<Elem>, ws: seq<Json.Value>)
    requires items != [] && items[0].Bin? && Stray(items[1..]) == 1 && Vals(items) == Vals(items[1..])
    requires ws == PruneMoreItems(Plugged(items[1..], 1))
    ensures Json.Render(Json.Arr([Hole(0)] + ws)) == Json.Render(Json.Arr(Vals(items)))
       <==> Vals(items) != [] && Vals(items)[0] == Hole(0)
  {
    var vs := Vals(items);
    if Json.Render(Json.Arr([Hole(0)] + ws)) == Json.Render(Json.Arr(vs)) {
      FirstIsHole(vs, ws);
    }
    if vs != [] && vs[0] == Hole(0) {
      HoleIsHole(0);
      HeadStray(items[1..], 1);
      assert vs == [vs[0]] + vs[1..];
    }
  }

  lemma FirstBinaryPruned(items: seq<Elem>)
    requires items != [] && items[0].Bin?
    ensures Prune(Wire(items)) == Json.Arr([Hole(0)] + PruneMoreItems(Plugged(items[1..], 1)))
    ensures Vals(items) == Vals(items[1..])
  {
    HoleIsLeaf(0);
    NothingToPrune(Hole(0));
    PruneHead(Hole(0), Plugged(items[1..], 1));
  }

  /** When the only stray placeholder is the first JSON result, stripping removes exactly that. */
  lemma {:induction false} HeadStray(args: seq<Elem>, n: nat)
    requires Stray(args) == 1 && Vals(args) != [] && IsHole(Vals(args)[0])
    ensures PruneMoreItems(Plugged(args, n)) == Vals(args)[1..]
  {
    if args[0].Bin? {
      HeadStray(args[1..], n + 1);
      HoleIsHole(n);
      PruneCons(Hole(n), Plugged(args[1..], n + 1));
    } else {
      PruneLeavesVals(args[1..], n);
      PruneCons(args[0].v, Plugged(args[1..], n));
    }
  }

  /** A list whose text starts like that of a placeholder starts with that placeholder. */
  lemma FirstIsHole(vs: seq<Json.Value>, ws: seq<Json.Value>)
    requires Json.Render(Json.Arr([Hole(0)] + ws)) == Json.Render(Json.Arr(vs))
    ensures vs != [] && vs[0] == Hole(0)
  {
    var more := Json.RenderMoreItems(ws);
    HoleIsHole(0);
    FirstItem([Hole(0)] + ws);
    assert ([Hole(0)] + ws)[1..] == ws;
    var text := Json.Render(Hole(0)) + more;
    assert ("[" + text)[1..] == text && ("[" + Json.RenderItems(vs))[1..] == Json.RenderItems(vs);
    if vs != [] {
      SameFirst(Hole(0), more, vs[0], Json.RenderMoreItems(vs[1..]));
    }
  }

  lemma FirstItem(vs: seq<Json.Value>)
    requires vs != []
    ensures Json.Render(Json.Arr(vs)) == "[" + (Json.Render(vs[0]) + Json.RenderMoreItems(vs[1..]))
  {
  }

  lemma SameFirst(h: Json.Value, more: string, v: Json.Value, rest: string)
    requires IsHole(h) && more != "" && more[0] in ",]" && rest != "" && rest[0] in ",]"
    requires Json.Render(h) + more == Json.Render(v) + rest
    ensures v == h
  {
    var a, b := Json.Render(h), Json.Render(v);
    CatAssoc(",", a, more);
    CatAssoc(",", b, rest);
    ItemMatch(h, more);
    ItemMatch(v, rest);
    assert (a + more)[..|a|] == a && (b + rest)[..|b|] == b;
    SameHole(h, v);
  }

  lemma SameHole(h: Json.Value, v: Json.Value)
    requires IsHole(h) && IsHole(v) && Json.Render(h) == Json.Render(v)
    ensures v == h
  {
    HoleFields(h);
    HoleFields(v);
    HoleText(h);
    HoleText(v);
    SameMiddle(HoleHead(h.members[0]), h.members[1].value.text, v.members[1].value.text, "}");
  }

  /** A placeholder is determined by the text of its number. */
  lemma HoleFields(v: Json.Value)
    requires IsHole(v)
    ensures v.members[0] == Json.Member(KEY_PLACEHOLDER, Json.Bool(true))
    ensures v == Json.Obj([v.members[0], Json.Member(KEY_NUM, Json.Number(v.members[1].value.text))])
  {
    assert v.members == [v.members[0], v.members[1]];
  }

  lemma SameMiddle(a: string, x: string, y: string, z: string)
    requires a + (x + z) == a + (y + z)
    ensures x == y
  {
    assert (a + (x + z))[|a|..] == x + z && (a + (y + z))[|a|..] == y + z;
    assert (x + z)[..|x|] == x && (y + z)[..|y|] == y;
  }

  /** The text of a placeholder up to its number. */
  function HoleHead(first: Json.Member): string {
    "{" + Json.RenderMember(first) + ("," + (Json.Quote(KEY_NUM) + ":"))
  }

  lemma HoleText(v: Json.Value)
    requires IsHole(v)
    ensures Json.Render(v) == HoleHead(v.members[0]) + (v.members[1].value.text + "}")
  {
    TwoMembers(v.members);
    Reassociate("{", Json.RenderMember(v.members[0]), ",", Json.Quote(KEY_NUM) + ":", v.members[1].value.text, "}");
  }

  lemma TwoMembers(ms: seq<Json.Member>)
    requires |ms| == 2
    ensures Json.RenderMembers(ms) == Json.RenderMember(ms[0]) + ("," + Json.RenderMember(ms[1]) + "}")
  {
    assert ms[1..] == [ms[1]] && ms[1..][1..] == [];
    assert Json.RenderMoreMembers([]) == "}";
    assert Json.RenderMoreMembers(ms[1..]) == "," + Json.RenderMember(ms[1]) + "}";
  }

  lemma Reassociate(a: string, b: string, c: string, d: string, e: string, g: string)
    ensures a + (b + (c + (d + e) + g)) == a + b + (c + d) + (e + g)
  {
    CatAssoc(c, d, e);
    CatAssoc(c + d, e, g);
    CatAssoc(b, c + d, e + g);
    CatAssoc(a, b, (c + d) + (e + g));
    CatAssoc(a + b, c + d, e + g);
  }

  /** An acknowledgement without results: the received packet with its data taken away. */
  function BareAck(nsp: string, n: nat, buffer: seq<Option<Blob>>): Packet<Outgoing> {
    Packet(Ack, nsp, NoData, Some(n), 0, buffer)
  }

  /** An acknowledgement without results is decoded, but ParseData then rejects it. */
  lemma AckWithoutResults(lib: Lib, nsp: string, n: nat, buffer: seq<Option<Blob>>)
    requires PlainNsp(lib, WithSlash(nsp)) && n < TWO64
    ensures var p := Packet(Ack, Normal(nsp), Empty, Some(n), 0, []);
      && Decode(lib, EncodeText(Preprocessed(BareAck(nsp, n, buffer)))) == Ok(p)
      && ParseData(p) == Err(NotBytes)
  {
    BareAckText(nsp, n, buffer);
    DecodeBareAck(lib, nsp, n);
  }

  /**
   * A binary event that has no handler is acknowledged with its own buffers still attached: the
   * frames that follow the text are announced nowhere, and the other side refuses each of them.
   */
  lemma StaleBuffersRefused(lib: Lib, nsp: string, n: nat, bs: seq<Blob>)
    requires PlainNsp(lib, WithSlash(nsp)) && n < TWO64
    ensures var sent := Preprocessed(BareAck(nsp, n, Slots(bs)));
      var (last, outs) := Feed(lib, None, [TextFrame(EncodeText(sent))] + BinFrames(bs));
      && sent.buffer == Slots(bs) && last == None && |outs| == 1 + |bs|
      && outs[0] == Emitted(Packet(Ack, Normal(nsp), Empty, Some(n), 0, []))
      && (forall i | 1 <= i < |outs| :: outs[i] == Refused(UnknownPacket))
  {
    var sent := Preprocessed(BareAck(nsp, n, Slots(bs)));
    var p := Packet(Ack, Normal(nsp), Empty, Some(n), 0, []);
    AckWithoutResults(lib, nsp, n, Slots(bs));
    FeedHead(lib, None, TextFrame(EncodeText(sent)), BinFrames(bs), None, Emitted(p));
    BinariesRefused(lib, bs);
  }

  lemma DecodeBareAck(lib: Lib, nsp: string, n: nat)
    requires PlainNsp(lib, WithSlash(nsp)) && n < TWO64
    ensures Decode(lib, [DigitChar(Ack.Code())] + (NspText(WithSlash(nsp)) + Decimal(n)))
         == Ok(Packet(Ack, Normal(nsp), Empty, Some(n), 0, []))
  {
    var t := NspText(WithSlash(nsp)) + Decimal(n);
    var p := Packet(Ack, "/", Empty, None, 0, []);
    DecodeType(lib, Ack, t);
    DecodeNspField(lib, p, WithSlash(nsp), Decimal(n));
    NormalWithSlash(nsp);
    IdReadBack(n);
    BareId(lib, p.(nsp := Normal(nsp)), Decimal(n));
  }

  lemma IdReadBack(n: nat)
    requires n < TWO64
    ensures WrapUint(Value(Decimal(n))) == n
  {
    ValueOfDecimal(n);
  }

  lemma BareAckText(nsp: string, n: nat, buffer: seq<Option<Blob>>)
    ensures EncodeText(Preprocessed(BareAck(nsp, n, buffer)))
         == [DigitChar(Ack.Code())] + (NspText(WithSlash(nsp)) + Decimal(n))
  {
    var d := Decimal(n);
    var s := NspText(WithSlash(nsp)) + d;
    assert d + "" == d && "" + s == s;
  }

  /** A frame that ends with its packet id. */
  lemma BareId(lib: Lib, p: Packet<Incoming>, digits: string)
    requires digits != "" && AllDigits(digits)
    ensures DecodeId(lib, p, digits) == Ok(p.(id := Some(WrapUint(Value(digits)))))
  {
    assert digits[..|digits|] == digits;
    DigitRunUnique(digits, |digits|);
  }

  // ---- errors ----

  /**
   * The data of an Error packet that keeps its place in the frame: anything but a number that
   * starts with a digit, which is taken for a packet id, and a list with a binary element, whose
   * count is taken for one.
   */
  predicate ErrorArrives(d: Outgoing) {
    match d
    case NoData => true
    case Scalar(v) => !(v.Number? && IsDigit(v.text[0]))
    case List(items) => Bins(items) == []
  }

  /** What an Error packet with this data should arrive as. */
  function ErrorReceived(nsp: string, d: Outgoing): Packet<Incoming> {
    Packet(Error, Normal(nsp), if d.NoData? then Empty else Parsed(DataText(d)), None, 0, [])
  }

  /**
   * An Error packet with data of any kind is decoded as it was sent if and only if its namespace
   * survives and its data keeps its place.
   */
  lemma ErrorData(lib: Lib, nsp: string, d: Outgoing)
    requires Shrinks(lib) && (d.NoData? || lib.jsonOk(DataText(d)))
    ensures Decode(lib, EncodeText(Preprocessed(Packet(Error, nsp, d, None, 0, [])))) == Ok(ErrorReceived(nsp, d))
       <==> PlainNsp(lib, WithSlash(nsp)) && ErrorArrives(d)
  {
    var t := DataText(d);
    PlainText(Error, nsp, d);
    SentData(d, nsp);
    if !PlainNsp(lib, WithSlash(nsp)) {
      ErrorNspChanged(lib, nsp, d);
    } else if ErrorArrives(d) {
      ErrorDelivered(lib, nsp, d);
    } else if d.List? {
      CountIsId(lib, |Bins(d.items)|, NspText(WithSlash(nsp)) + t);
    } else {
      FirstOfData(d);
      assert "" + (NspText(WithSlash(nsp)) + t) == NspText(WithSlash(nsp)) + t;
      DecodeUpToId(lib, nsp, t);
    }
  }

  lemma ErrorDelivered(lib: Lib, nsp: string, d: Outgoing)
    requires PlainNsp(lib, WithSlash(nsp)) && ErrorArrives(d) && (d.NoData? || lib.jsonOk(DataText(d)))
    ensures Decode(lib, EncodeText(Preprocessed(Packet(Error, nsp, d, None, 0, [])))) == Ok(ErrorReceived(nsp, d))
  {
    var field := NspText(WithSlash(nsp));
    PlainText(Error, nsp, d);
    SentData(d, nsp);
    assert "" + (field + DataText(d)) == field + DataText(d);
    if d.NoData? {
      assert field + "" == field;
      BareControl(lib, Error, nsp);
    } else {
      FirstOfData(d);
      DecodeError(lib, nsp, DataText(d));
    }
  }

  lemma ErrorNspChanged(lib: Lib, nsp: string, d: Outgoing)
    requires Shrinks(lib) && !PlainNsp(lib, WithSlash(nsp))
    ensures Decode(lib, EncodeText(Preprocessed(Packet(Error, nsp, d, None, 0, [])))) != Ok(ErrorReceived(nsp, d))
  {
    var s := NspText(WithSlash(nsp)) + DataText(d);
    PlainText(Error, nsp, d);
    SentData(d, nsp);
    if d.List? && Bins(d.items) != [] {
      CountIsId(lib, |Bins(d.items)|, s);
    } else {
      assert "" + s == s;
      PlainNspChanged(lib, Error, nsp, DataText(d));
    }
  }

  /** Replacing binary elements does not change the rendered list. */
  lemma SentData(d: Outgoing, nsp: string)
    ensures var sent := Preprocessed(Packet(Error, nsp, d, None, 0, []));
      && DataText(sent.data) == DataText(d)
      && sent.attachments == if d.List? then |Bins(d.items)| else 0
  {
    if d.List? { PluggedVals(Plugged(d.items, 0), 0); }
  }

  /** Only the text of a number can begin with a digit. */
  lemma FirstOfData(d: Outgoing)
    requires !d.NoData?
    ensures var t := DataText(d);
      t != "" && t[0] != '/' && (IsDigit(t[0]) <==> d.Scalar? && d.v.Number? && IsDigit(d.v.text[0]))
  {
  }

  lemma DecodeError(lib: Lib, nsp: string, t: string)
    requires PlainNsp(lib, WithSlash(nsp)) && lib.jsonOk(t)
    requires t != "" && !IsDigit(t[0]) && t[0] != '/'
    ensures Decode(lib, ['4'] + (NspText(WithSlash(nsp)) + t)) == Ok(Packet(Error, Normal(nsp), Parsed(t), None, 0, []))
  {
    NormalWithSlash(nsp);
    DecodeHeader(lib, Error, 0, WithSlash(nsp), None, t);
    var s := NspText(WithSlash(nsp)) + t;
    assert "" + t == t && "" + s == s;
  }

  lemma DecodeUpToId(lib: Lib, nsp: string, t: string)
    requires PlainNsp(lib, WithSlash(nsp)) && t != "" && IsDigit(t[0])
    ensures var r := Decode(lib, ['4'] + (NspText(WithSlash(nsp)) + t)); r.Ok? ==> r.value.id.Some?
  {
    var s := NspText(WithSlash(nsp)) + t;
    var p := Packet(Error, "/", Empty, None, 0, []);
    assert (['4'] + s)[1..] == s;
    DecodeNspField(lib, p, WithSlash(nsp), t);
  }

  /** A count in the header of an Error packet is read as a packet id. */
  lemma CountIsId(lib: Lib, n: nat, more: string)
    requires n > 0
    ensures var r := Decode(lib, ['4'] + (CountText(n) + more)); r.Ok? ==> r.value.id.Some?
  {
    var s := CountText(n) + more;
    assert (['4'] + s)[1..] == s && s[0] == Decimal(n)[0];
  }

  // ---- what Encode leaves behind ----

  /**
   * Encode returns the packet's buffer as its binary frames. They are as many as the header
   * announces exactly when the data is a list or no buffer was left from an earlier use.
   */
  lemma FramesAnnounced(p: Packet<Outgoing>)
    ensures |Preprocessed(p).buffer| == Preprocessed(p).attachments <==> p.data.List? || p.buffer == []
  {
  }

  /**
   * Encode consumes the packet: encoding the result again gives the same frame if and only if no
   * element was binary; otherwise it gives a frame without a count, which every decoder refuses.
   */
  lemma ReencodeRefused(lib: Lib, typ: PacketType, nsp: string, id: Option<nat>, items: seq<Elem>)
    requires (typ == Event || typ == Ack) && PlainNsp(lib, WithSlash(nsp))
    ensures var once := Preprocessed(Packet(typ, nsp, List(items), id, 0, []));
      && (EncodeText(Preprocessed(once)) == EncodeText(once) <==> Bins(items) == [])
      && (Bins(items) != [] ==> Decode(lib, EncodeText(Preprocessed(once))) == Err(UnknownPacket))
  {
    var once := Preprocessed(Packet(typ, nsp, List(items), id, 0, []));
    var data := DataText(once.data);
    var s := NspText(WithSlash(nsp)) + (IdText(id) + data);
    ReencodedText(typ, nsp, id, items, once, s);
    SameWithout(DigitChar(once.typ.Code()), CountText(|Bins(items)|), s);
    if Bins(items) != [] {
      DecodeType(lib, typ.Promoted(), s);
      HeaderWithoutCount(lib, typ.Promoted(), WithSlash(nsp), id, data);
    }
  }

  lemma ReencodedText(typ: PacketType, nsp: string, id: Option<nat>, items: seq<Elem>,
                      once: Packet<Outgoing>, s: string)
    requires once == Preprocessed(Packet(typ, nsp, List(items), id, 0, []))
    requires s == NspText(WithSlash(nsp)) + (IdText(id) + DataText(once.data))
    ensures EncodeText(once) == [DigitChar(once.typ.Code())] + (CountText(|Bins(items)|) + s)
    ensures EncodeText(Preprocessed(once)) == [DigitChar(once.typ.Code())] + s
  {
    var twice := Preprocessed(once);
    NoBinsInVals(Plugged(items, 0));
    PluggedVals(Plugged(items, 0), 0);
    assert twice.typ == once.typ && twice.nsp == once.nsp && twice.id == id && twice.data == once.data;
    assert "" + s == s;
  }

  lemma SameWithout(c: char, x: string, s: string)
    ensures [c] + (x + s) == [c] + s <==> x == ""
  {
    if x == "" {
      assert x + s == s;
    } else {
      assert |[c] + (x + s)| > |[c] + s|;
    }
  }

  lemma HeaderWithoutCount(lib: Lib, typ: PacketType, nsp: string, id: Option<nat>, data: string)
    requires typ.IsBinary() && PlainNsp(lib, nsp) && data != "" && data[0] == '['
    ensures DecodeCount(lib, Packet(typ, "/", Empty, None, 0, []), NspText(nsp) + (IdText(id) + data))
         == Err(UnknownPacket)
  {
    var p := Packet(typ, "/", Empty, None, 0, []);
    var t := IdText(id) + data;
    if NspText(nsp) == "" {
      assert "" + t == t;
      CountRefused(lib, p, IdText(id), data);
    } else {
      var s := NspText(nsp) + t;
      assert "" + s == s;
      CountRefused(lib, p, "", s);
    }
  }

  /** A binary packet's header must have a dash after its count. */
  lemma CountRefused(lib: Lib, p: Packet<Incoming>, digits: string, t: string)
    requires p.typ.IsBinary() && AllDigits(digits)
    requires t != "" && !IsDigit(t[0]) && t[0] != '-'
    ensures DecodeCount(lib, p, digits + t) == Err(UnknownPacket)
  {
    assert (digits + t)[..|digits|] == digits;
    DigitRunUnique(digits + t, |digits|);
  }

  lemma {:induction false} NoBinsInVals(vs: seq<Json.Value>)
    ensures Bins(AsVals(vs)) == []
  {
    if vs != [] {
      NoBinsInVals(vs[1..]);
      assert AsVals(vs)[1..] == AsVals(vs[1..]);
    }
  }

  // ---- streams ----

  /** What emitPacket is given: an event, an acknowledgement, a Connect or Disconnect, an error. */
  datatype Message =
    | Call(nsp: string, id: Option<nat>, name: string, args: seq<Elem>)
    | Reply(nsp: string, id: Option<nat>, items: seq<Elem>)
    | Control(typ: PacketType, nsp: string)
    | Fault(nsp: string, data: Outgoing)

  /** The frames emitPacket sends for it. */
  function Frames(m: Message): seq<Frame> {
    match m
    case Call(nsp, id, name, args) => EventFrames(nsp, id, name, args)
    case Reply(nsp, id, items) => ListFrames(Ack, nsp, id, items)
    case Control(typ, nsp) => [TextFrame(EncodeText(Preprocessed(Packet(typ, nsp, NoData, None, 0, []))))]
    case Fault(nsp, d) =>
      [TextFrame(EncodeText(Preprocessed(Packet(Error, nsp, d, None, 0, []))))]
      + BinFrames(if d.List? then Bins(d.items) else [])
  }

  /** The packet gives the other side what the message says. */
  predicate Conveys(p: Packet<Incoming>, m: Message) {
    match m
    case Call(nsp, id, name, args) => Faithful(p, nsp, id, name, args)
    case Reply(nsp, id, items) => AckFaithful(p, nsp, id, items)
    case Control(typ, nsp) => p == Packet(typ, Normal(nsp), Empty, None, 0, [])
    case Fault(nsp, d) => p == ErrorReceived(nsp, d)
  }

  predicate Sendable(lib: Lib, m: Message) {
    && PlainNsp(lib, WithSlash(m.nsp))
    && match m
       case Call(_, id, name, args) => ValidId(id) && |Bins(args)| < TWO63 && PlainName(name) && Deliverable(args)
       case Reply(_, id, items) => ValidId(id) && |Bins(items)| < TWO63 && AckArrives(items)
       case Control(typ, _) => typ == Connect || typ == Disconnect
       case Fault(_, d) => ErrorArrives(d) && (d.NoData? || lib.jsonOk(DataText(d)))
  }

  lemma TextDelivery(lib: Lib, text: string, p: Packet<Incoming>)
    requires Decode(lib, text) == Ok(p) && p.buffer == [] && p.attachments == 0
    ensures Feed(lib, None, [TextFrame(text)]).0 == None
    ensures Packets(Feed(lib, None, [TextFrame(text)]).1) == [p]
  {
    assert [TextFrame(text)] + [] == [TextFrame(text)];
    FeedHead(lib, None, TextFrame(text), [], None, Emitted(p));
    PacketsCons(Emitted(p), []);
  }

  /** A fresh decoder emits exactly one packet for a sendable message, and it conveys the message. */
  lemma MessageDelivery(lib: Lib, m: Message)
    requires Sendable(lib, m)
    ensures Feed(lib, None, Frames(m)).0 == None
    ensures var got := Packets(Feed(lib, None, Frames(m)).1); |got| == 1 && Conveys(got[0], m)
  {
    match m
    case Call(nsp, id, name, args) =>
      EventWire(name, args);
      FreshDelivery(lib, Event, nsp, id, EventItems(name, args));
      ReceivedFaithful(nsp, id, name, args);
    case Reply(nsp, id, items) =>
      FreshDelivery(lib, Ack, nsp, id, items);
      AckDelivered(lib, nsp, id, items);
    case Control(typ, nsp) =>
      ControlDelivered(lib, typ, nsp);
      TextDelivery(lib, Frames(m)[0].s, Packet(typ, Normal(nsp), Empty, None, 0, []));
    case Fault(nsp, d) =>
      ErrorDelivered(lib, nsp, d);
      assert BinFrames([]) == [] && Frames(m) == [Frames(m)[0]];
      TextDelivery(lib, Frames(m)[0].s, ErrorReceived(nsp, d));
  }

  function AllFrames(ms: seq<Message>): seq<Frame> {
    if ms == [] then [] else Frames(ms[0]) + AllFrames(ms[1..])
  }

  /** One decoder, any number of messages sent one after another: one packet for each, in order. */
  lemma {:induction false} StreamDecoding(lib: Lib, ms: seq<Message>)
    requires forall i | 0 <= i < |ms| :: Sendable(lib, ms[i])
    ensures Feed(lib, None, AllFrames(ms)).0 == None
    ensures var got := Packets(Feed(lib, None, AllFrames(ms)).1);
      |got| == |ms| && forall i | 0 <= i < |ms| :: Conveys(got[i], ms[i])
    decreases |ms|
  {
    if ms != [] {
      MessageDelivery(lib, ms[0]);
      StreamDecoding(lib, ms[1..]);
      var first, more := Feed(lib, None, Frames(ms[0])), Feed(lib, None, AllFrames(ms[1..]));
      FeedAppend(lib, None, Frames(ms[0]), AllFrames(ms[1..]));
      PacketsAppend(first.1, more.1);
      JoinConveyed(Packets(first.1), Packets(more.1), ms);
    }
  }

  lemma JoinConveyed(first: seq<Packet<Incoming>>, more: seq<Packet<Incoming>>, ms: seq<Message>)
    requires ms != [] && |first| == 1 && Conveys(first[0], ms[0])
    requires |more| == |ms| - 1 && forall i | 0 <= i < |more| :: Conveys(more[i], ms[1..][i])
    ensures forall i | 0 <= i < |ms| :: Conveys((first + more)[i], ms[i])
  {
    forall i | 1 <= i < |ms| ensures Conveys((first + more)[i], ms[i]) {
      assert (first + more)[i] == more[i - 1] && ms[i] == ms[1..][i - 1];
    }
  }
}
