/** What the default codec guarantees end to end. */
module CodecTheorems {
  import opened Common
  import opened Placeholder
  import opened Codec
  import Json

  // ---- header fields ----

  /** A namespace that survives the header: a path without comma that url.Parse leaves alone. */
  predicate PlainNsp(lib: Lib, nsp: string) {
    nsp == "" || nsp == "/" || (nsp[0] == '/' && ',' !in nsp && lib.urlPath(nsp) == Some(nsp))
  }

  predicate ValidId(id: Option<nat>) {
    id.Some? ==> id.value < TWO64
  }

  /** What a namespace is called once it has been sent. */
  function Normal(nsp: string): string {
    if nsp == "" then "/" else WithSlash(nsp)
  }

  lemma NumeralRun(n: nat, rest: string)
    requires rest == "" || !IsDigit(rest[0])
    ensures DigitRun(Decimal(n) + rest) == |Decimal(n)|
    ensures (Decimal(n) + rest)[..|Decimal(n)|] == Decimal(n)
    ensures (Decimal(n) + rest)[|Decimal(n)|..] == rest
  {
    DigitRunUnique(Decimal(n) + rest, |Decimal(n)|);
  }

  lemma DecodeIdField(lib: Lib, p: Packet<Incoming>, id: Option<nat>, t: string)
    requires t != "" && !IsDigit(t[0]) && ValidId(id) && p.id == None
    ensures IdText(id) + t != ""
    ensures DecodeId(lib, p, IdText(id) + t) == DecodeData(lib, p.(id := id), t)
    ensures (IdText(id) + t)[0] == t[0] || IsDigit((IdText(id) + t)[0])
  {
    match id
    case None => assert "" + t == t;
    case Some(n) =>
      NumeralRun(n, t);
      ValueOfDecimal(n);
  }

  lemma DecodeNspField(lib: Lib, p: Packet<Incoming>, nsp: string, t: string)
    requires PlainNsp(lib, nsp) && p.nsp == "/" && t != "" && t[0] != '/'
    ensures NspText(nsp) + t != ""
    ensures DecodeNsp(lib, p, NspText(nsp) + t) == DecodeId(lib, p.(nsp := Normal(nsp)), t)
  {
    if nsp == "" || nsp == "/" {
      assert "" + t == t;
    } else {
      var s := nsp + "," + t;
      assert s[..|nsp|] == nsp && s[|nsp| + 1..] == t;
      CommaIndexUnique(s, |nsp|);
    }
  }

  lemma CountRead(lib: Lib, p: Packet<Incoming>, digits: string, t: string)
    requires p.typ.IsBinary() && AllDigits(digits) && t != ""
    ensures DecodeCount(lib, p, digits + ("-" + t)) == DecodeNsp(lib, p.(attachments := WrapInt(Value(digits))), t)
  {
    var s := digits + ("-" + t);
    assert s[..|digits|] == digits && s[|digits| + 1..] == t;
    DigitRunUnique(s, |digits|);
  }

  lemma CountWritten(n: nat, t: string)
    requires 0 < n < TWO63
    ensures CountText(n) + t == Decimal(n) + ("-" + t)
    ensures WrapInt(Value(Decimal(n))) == n
  {
    CatAssoc(Decimal(n), "-", t);
    ValueOfDecimal(n);
    WrapSmall(n);
  }

  lemma NoCount(lib: Lib, p: Packet<Incoming>, t: string)
    requires !p.typ.IsBinary() && t != ""
    ensures DecodeCount(lib, p, CountText(0) + t) == DecodeNsp(lib, p, t)
  {
    assert CountText(0) + t == t;
  }

  lemma DecodeCountField(lib: Lib, p: Packet<Incoming>, n: nat, t: string)
    requires p.typ.IsBinary() <==> n > 0
    requires n < TWO63 && p.attachments == 0 && t != ""
    ensures DecodeCount(lib, p, CountText(n) + t) == DecodeNsp(lib, p.(attachments := n), t)
  {
    if n == 0 {
      NoCount(lib, p, t);
    } else {
      CountWritten(n, t);
      CountRead(lib, p, Decimal(n), t);
    }
  }

  /**
   * The fields of a header are unambiguous: whatever they hold, the decoder reads back
   * exactly the type, count, namespace and id that were written and stops at the data.
   */
  lemma DecodeHeader(lib: Lib, typ: PacketType, n: nat, nsp: string, id: Option<nat>, t: string)
    requires typ.IsBinary() <==> n > 0
    requires n < TWO63 && PlainNsp(lib, nsp) && ValidId(id)
    requires t != "" && !IsDigit(t[0]) && t[0] != '/'
    ensures Decode(lib, [DigitChar(typ.Code())] + (CountText(n) + (NspText(nsp) + (IdText(id) + t))))
         == DecodeData(lib, Packet(typ, Normal(nsp), Empty, id, n, []), t)
  {
    var t1 := IdText(id) + t;
    var t2 := NspText(nsp) + t1;
    var t3 := CountText(n) + t2;
    var p := Packet(typ, "/", Empty, None, 0, []);
    DecodeType(lib, typ, t3);
    DecodeIdField(lib, p.(attachments := n, nsp := Normal(nsp)), id, t);
    DecodeNspField(lib, p.(attachments := n), nsp, t1);
    DecodeCountField(lib, p, n, t2);
  }

  lemma CodeRoundTrip(typ: PacketType)
    ensures TypeOf(DigitChar(typ.Code())) == Some(typ)
  {
  }

  lemma DecodeType(lib: Lib, typ: PacketType, t: string)
    ensures Decode(lib, [DigitChar(typ.Code())] + t) == DecodeCount(lib, Packet(typ, "/", Empty, None, 0, []), t)
  {
    CodeRoundTrip(typ);
    assert ([DigitChar(typ.Code())] + t)[1..] == t;
  }

  // ---- feeding frames ----

  /** Feed frames one after another; one output per frame. */
  function Feed(lib: Lib, lastp: Option<Packet<Incoming>>, frames: seq<Frame>)
    : (r: (Option<Packet<Incoming>>, seq<Output>))
    requires Sound(lastp)
    ensures |r.1| == |frames| && Sound(r.0)
    decreases |frames|
  {
    if frames == [] then (lastp, []) else
      StepSound(lib, lastp, frames[0]);
      var (next, out) := Step(lib, lastp, frames[0]);
      var (last, outs) := Feed(lib, next, frames[1..]);
      (last, [out] + outs)
  }

  lemma FeedHead(lib: Lib, lastp: Option<Packet<Incoming>>, f: Frame, rest: seq<Frame>,
                 next: Option<Packet<Incoming>>, out: Output)
    requires Sound(lastp) && Step(lib, lastp, f) == (next, out)
    ensures Sound(next)
    ensures Feed(lib, lastp, [f] + rest) == (Feed(lib, next, rest).0, [out] + Feed(lib, next, rest).1)
  {
    StepSound(lib, lastp, f);
    assert ([f] + rest)[1..] == rest;
  }

  lemma {:induction false} FeedAppend(lib: Lib, lastp: Option<Packet<Incoming>>, a: seq<Frame>, b: seq<Frame>)
    requires Sound(lastp)
    ensures Feed(lib, lastp, a + b).0 == Feed(lib, Feed(lib, lastp, a).0, b).0
    ensures Feed(lib, lastp, a + b).1 == Feed(lib, lastp, a).1 + Feed(lib, Feed(lib, lastp, a).0, b).1
    decreases |a|
  {
    if a == [] {
      assert a + b == b;
      assert [] + Feed(lib, lastp, b).1 == Feed(lib, lastp, b).1;
    } else {
      var (next, out) := Step(lib, lastp, a[0]);
      FeedHead(lib, lastp, a[0], a[1..] + b, next, out);
      FeedHead(lib, lastp, a[0], a[1..], next, out);
      FeedAppend(lib, next, a[1..], b);
      assert a == [a[0]] + a[1..];
      CatAssoc([a[0]], a[1..], b);
      var mid := Feed(lib, next, a[1..]);
      CatAssoc([out], mid.1, Feed(lib, mid.0, b).1);
    }
  }

  /** The packets emitted, in order. */
  function Packets(outs: seq<Output>): seq<Packet<Incoming>> {
    if outs == [] then []
    else (if outs[0].Emitted? then [outs[0].p] else []) + Packets(outs[1..])
  }

  lemma {:induction false} PacketsAppend(a: seq<Output>, b: seq<Output>)
    ensures Packets(a + b) == Packets(a) + Packets(b)
  {
    if a == [] {
      assert a + b == b;
    } else {
      PacketsAppend(a[1..], b);
      assert (a + b)[1..] == a[1..] + b;
      var first := if a[0].Emitted? then [a[0].p] else [];
      CatAssoc(first, Packets(a[1..]), Packets(b));
    }
  }

  function Waits(n: nat): (r: seq<Output>)
    ensures |r| == n && forall i | 0 <= i < n :: r[i] == Waiting
  {
    seq(n, _ => Waiting)
  }

  function BinFrames(bs: seq<Blob>): (r: seq<Frame>)
    ensures |r| == |bs| && forall i | 0 <= i < |bs| :: r[i] == BinFrame(bs[i])
  {
    seq(|bs|, i requires 0 <= i < |bs| => BinFrame(bs[i]))
  }

  /** Binary frames fill the open slots in arrival order; the last one emits the packet. */
  lemma {:induction false} FillSlots(lib: Lib, p: Packet<Incoming>, bs: seq<Blob>)
    requires Sound(Some(p)) && |bs| == p.attachments
    ensures Feed(lib, Some(p), BinFrames(bs)) == (None, Waits(|bs| - 1) + [Emitted(
              p.(attachments := 0, buffer := p.buffer[..|p.buffer| - |bs|] + Slots(bs)))])
    decreases |bs|
  {
    var k := |p.buffer| - |bs|;
    var q := p.(buffer := p.buffer[k := Some(bs[0])], attachments := p.attachments - 1);
    var more := BinFrames(bs[1..]);
    assert BinFrames(bs) == [BinFrame(bs[0])] + more;
    SlotsStep(p.buffer, bs);
    if |bs| == 1 {
      FeedHead(lib, Some(p), BinFrame(bs[0]), more, None, Emitted(q));
      assert [Emitted(q)] + [] == Waits(0) + [Emitted(q)];
    } else {
      FeedHead(lib, Some(p), BinFrame(bs[0]), more, Some(q), Waiting);
      FillSlots(lib, q, bs[1..]);
      var done := [Emitted(p.(attachments := 0, buffer := p.buffer[..k] + Slots(bs)))];
      assert [Waiting] + (Waits(|bs| - 2) + done) == Waits(|bs| - 1) + done;
    }
  }

  lemma SlotsStep(buffer: seq<Option<Blob>>, bs: seq<Blob>)
    requires 0 < |bs| <= |buffer|
    ensures var k := |buffer| - |bs|;
      && buffer[k := Some(bs[0])][..k + 1] + Slots(bs[1..]) == buffer[..k] + Slots(bs)
      && (|bs| == 1 ==> buffer[k := Some(bs[0])] == buffer[..k] + Slots(bs))
  {
  }

  // ---- sending an argument list ----

  /** The frames emitPacket sends for an Event or Ack with this argument list. */
  function ListFrames(typ: PacketType, nsp: string, id: Option<nat>, items: seq<Elem>): seq<Frame> {
    [TextFrame(ListText(typ, nsp, id, items))] + BinFrames(Bins(items))
  }

  function ListText(typ: PacketType, nsp: string, id: Option<nat>, items: seq<Elem>): string {
    EncodeText(Preprocessed(Packet(typ, nsp, List(items), id, 0, [])))
  }

  function SentType(typ: PacketType, items: seq<Elem>): PacketType {
    if Bins(items) == [] then typ else typ.Promoted()
  }

  /** The rendered list. */
  function Wire(items: seq<Elem>): Json.Value {
    Json.Arr(Plugged(items, 0))
  }

  lemma {:induction false} PluggedVals(vs: seq<Json.Value>, n: nat)
    ensures Plugged(AsVals(vs), n) == vs
  {
    if vs != [] {
      PluggedVals(vs[1..], n);
      assert AsVals(vs)[1..] == AsVals(vs[1..]);
    }
  }

  lemma ListTextIs(typ: PacketType, nsp: string, id: Option<nat>, items: seq<Elem>)
    ensures ListText(typ, nsp, id, items)
         == [DigitChar(SentType(typ, items).Code())]
            + (CountText(|Bins(items)|) + (NspText(WithSlash(nsp)) + (IdText(id) + (Json.Render(Wire(items)) + "\n"))))
  {
    PluggedVals(Plugged(items, 0), 0);
  }

  /** The packet a decoder should end up with. */
  function ReceivedList(typ: PacketType, nsp: string, id: Option<nat>, items: seq<Elem>): Packet<Incoming> {
    var wire := if Bins(items) == [] then Wire(items) else Prune(Wire(items));
    Packet(SentType(typ, items), Normal(nsp), Raw(Json.Render(wire) + "\n"), id, 0, Slots(Bins(items)))
  }

  /** What the text frame alone decodes to. */
  function DecodedList(typ: PacketType, nsp: string, id: Option<nat>, items: seq<Elem>): Packet<Incoming> {
    var n := |Bins(items)|;
    ReceivedList(typ, nsp, id, items).(
      attachments := n,
      buffer := seq(if n == 0 then 0 else Holes(Wire(items)), _ => None))
  }

  lemma DecodeListData(lib: Lib, typ: PacketType, nsp: string, id: Option<nat>, items: seq<Elem>)
    requires typ == Event || typ == Ack
    ensures DecodeData(lib, Packet(SentType(typ, items), Normal(nsp), Empty, id, |Bins(items)|, []),
                       Json.Render(Wire(items)) + "\n")
         == Ok(DecodedList(typ, nsp, id, items))
  {
    var wire := Wire(items);
    var t := Json.Render(wire) + "\n";
    var p := Packet(SentType(typ, items), Normal(nsp), Empty, id, |Bins(items)|, []);
    RenderedList(items);
    if Bins(items) == [] {
      assert DecodedList(typ, nsp, id, items).buffer == [];
    } else {
      StripIsPrune(wire, "\n");
      DecodeBinaryData(lib, p, t, Holes(wire), Json.Render(Prune(wire)) + "\n");
      assert DecodedList(typ, nsp, id, items).buffer == NoneYet(Holes(wire));
    }
  }

  lemma RenderedList(items: seq<Elem>)
    ensures var t := Json.Render(Wire(items)) + "\n"; t != "" && t[0] == '['
  {
  }

  /** Slots that wait for their frames. */
  function NoneYet(n: nat): (r: seq<Option<Blob>>)
    ensures |r| == n && forall i | 0 <= i < n :: r[i] == None
  {
    seq(n, _ => None)
  }

  lemma DecodeBinaryData(lib: Lib, p: Packet<Incoming>, t: string, n: nat, left: string)
    requires p.typ.IsBinary() && t != "" && t[0] == '[' && Strip(t) == Stripped(n, left)
    ensures DecodeData(lib, p, t) == Ok(p.(data := Raw(left), buffer := NoneYet(n)))
  {
    var r := DecodeData(lib, p, t);
    assert r.value.buffer == NoneYet(n);
  }

  lemma NormalWithSlash(nsp: string)
    ensures Normal(WithSlash(nsp)) == Normal(nsp)
  {
  }

  lemma DecodeList(lib: Lib, typ: PacketType, nsp: string, id: Option<nat>, items: seq<Elem>)
    requires typ == Event || typ == Ack
    requires PlainNsp(lib, WithSlash(nsp)) && ValidId(id) && |Bins(items)| < TWO63
    ensures Decode(lib, ListText(typ, nsp, id, items)) == Ok(DecodedList(typ, nsp, id, items))
  {
    ListTextIs(typ, nsp, id, items);
    NormalWithSlash(nsp);
    DecodeListData(lib, typ, nsp, id, items);
    DecodeHeader(lib, SentType(typ, items), |Bins(items)|, WithSlash(nsp), id, Json.Render(Wire(items)) + "\n");
  }

  lemma ListStep(lib: Lib, lastp: Option<Packet<Incoming>>,
                 typ: PacketType, nsp: string, id: Option<nat>, items: seq<Elem>)
    requires Sound(lastp)
    requires typ == Event || typ == Ack
    requires PlainNsp(lib, WithSlash(nsp)) && ValidId(id) && |Bins(items)| < TWO63
    ensures Step(lib, lastp, TextFrame(ListText(typ, nsp, id, items)))
         == Accept(lastp, Ok(DecodedList(typ, nsp, id, items)))
  {
    DecodeList(lib, typ, nsp, id, items);
  }

  /** The decoder accepts the frames exactly when it finds as many holes as were announced. */
  predicate Countable(items: seq<Elem>) {
    Bins(items) == [] || Holes(Wire(items)) == |Bins(items)|
  }

  /**
   * Delivery of any argument list, from any decoder state: either every frame but the last
   * waits and the last emits the packet, or the text frame is refused.
   */
  lemma ListDelivery(lib: Lib, lastp: Option<Packet<Incoming>>,
                     typ: PacketType, nsp: string, id: Option<nat>, items: seq<Elem>)
    requires Sound(lastp)
    requires typ == Event || typ == Ack
    requires PlainNsp(lib, WithSlash(nsp)) && ValidId(id) && |Bins(items)| < TWO63
    ensures Countable(items) ==>
      Feed(lib, lastp, ListFrames(typ, nsp, id, items))
      == (None, Waits(|Bins(items)|) + [Emitted(ReceivedList(typ, nsp, id, items))])
    ensures !Countable(items) ==>
      Step(lib, lastp, TextFrame(ListText(typ, nsp, id, items))) == (lastp, Refused(UnknownPacket))
  {
    var text := TextFrame(ListText(typ, nsp, id, items));
    ListStep(lib, lastp, typ, nsp, id, items);
    if Countable(items) {
      AcceptedDelivery(lib, lastp, text, DecodedList(typ, nsp, id, items), Bins(items));
    }
  }

  lemma AcceptedDelivery(lib: Lib, lastp: Option<Packet<Incoming>>, text: Frame, p: Packet<Incoming>, bs: seq<Blob>)
    requires Sound(lastp) && Step(lib, lastp, text) == Accept(lastp, Ok(p))
    requires p.attachments == |p.buffer| == |bs| && forall i | 0 <= i < |bs| :: p.buffer[i] == None
    ensures Feed(lib, lastp, [text] + BinFrames(bs))
         == (None, Waits(|bs|) + [Emitted(p.(attachments := 0, buffer := Slots(bs)))])
  {
    var goal := p.(attachments := 0, buffer := Slots(bs));
    if bs == [] {
      FeedHead(lib, lastp, text, BinFrames(bs), None, Emitted(p));
      assert p == goal;
      assert [Emitted(goal)] + [] == Waits(0) + [Emitted(goal)];
    } else {
      FeedHead(lib, lastp, text, BinFrames(bs), Some(p), Waiting);
      FillSlots(lib, p, bs);
      assert p.buffer[..0] + Slots(bs) == Slots(bs);
      assert [Waiting] + (Waits(|bs| - 1) + [Emitted(goal)]) == Waits(|bs|) + [Emitted(goal)];
    }
  }

  /** After a refused text frame a fresh decoder refuses the binary frames too. */
  lemma {:induction false} BinariesRefused(lib: Lib, bs: seq<Blob>)
    ensures Feed(lib, None, BinFrames(bs)).0 == None
    ensures Packets(Feed(lib, None, BinFrames(bs)).1) == []
    ensures forall i | 0 <= i < |bs| :: Feed(lib, None, BinFrames(bs)).1[i] == Refused(UnknownPacket)
  {
    if bs != [] {
      BinariesRefused(lib, bs[1..]);
      assert BinFrames(bs)[1..] == BinFrames(bs[1..]);
    }
  }

  lemma {:induction false} PacketsAfterWaits(n: nat, p: Packet<Incoming>)
    ensures Packets(Waits(n) + [Emitted(p)]) == [p]
  {
    if n > 0 {
      PacketsAfterWaits(n - 1, p);
      assert (Waits(n) + [Emitted(p)])[1..] == Waits(n - 1) + [Emitted(p)];
    }
  }

  /** A fresh decoder emits exactly the sent packet, or nothing, and Countable says which. */
  lemma FreshDelivery(lib: Lib, typ: PacketType, nsp: string, id: Option<nat>, items: seq<Elem>)
    requires typ == Event || typ == Ack
    requires PlainNsp(lib, WithSlash(nsp)) && ValidId(id) && |Bins(items)| < TWO63
    ensures Packets(Feed(lib, None, ListFrames(typ, nsp, id, items)).1)
         == if Countable(items) then [ReceivedList(typ, nsp, id, items)] else []
    ensures Feed(lib, None, ListFrames(typ, nsp, id, items)).0 == None
  {
    ListDelivery(lib, None, typ, nsp, id, items);
    if Countable(items) {
      PacketsAfterWaits(|Bins(items)|, ReceivedList(typ, nsp, id, items));
    } else {
      FeedHead(lib, None, TextFrame(ListText(typ, nsp, id, items)), BinFrames(Bins(items)),
               None, Refused(UnknownPacket));
      BinariesRefused(lib, Bins(items));
    }
  }

  // ---- which namespaces arrive ----

  /** A fact of url.Parse: the path of a parsed text is never longer than the text. */
  ghost predicate Shrinks(lib: Lib) {
    forall x :: lib.urlPath(x).Some? ==> |lib.urlPath(x).value| <= |x|
  }

  ghost predicate NspIs(r: Decoded, nsp: string) {
    r.Ok? ==> r.value.nsp == nsp
  }

  lemma LaterFieldsKeepNsp(lib: Lib, p: Packet<Incoming>, s: string)
    requires s != ""
    ensures NspIs(DecodeData(lib, p, s), p.nsp) && NspIs(DecodeId(lib, p, s), p.nsp)
  {
  }

  /** The decoder parses the namespace up to its first comma, and keeps what url.Parse makes of it. */
  lemma NspUpToComma(lib: Lib, p: Packet<Incoming>, nsp: string, t: string)
    requires nsp != "" && nsp[0] == '/'
    ensures var r := DecodeNsp(lib, p, nsp + ("," + t));
      match lib.urlPath(nsp[..CommaIndex(nsp)])
      case None => r.Err?
      case Some(path) => NspIs(r, path)
  {
    var s := nsp + ("," + t);
    var k := CommaIndex(nsp);
    assert s[..k] == nsp[..k];
    CommaIndexUnique(s, k);
    var u := lib.urlPath(nsp[..k]);
    if u.Some? && k + 1 < |s| {
      LaterFieldsKeepNsp(lib, p.(nsp := u.value), s[k + 1..]);
    }
  }

  /** What a namespace that does not survive is decoded to. */
  lemma NspChanged(lib: Lib, typ: PacketType, nsp: string, id: Option<nat>, items: seq<Elem>)
    requires (typ == Event || typ == Ack) && Shrinks(lib) && !PlainNsp(lib, WithSlash(nsp))
    requires |Bins(items)| < TWO63
    ensures var r := Decode(lib, ListText(typ, nsp, id, items)); r.Ok? ==> r.value.nsp != Normal(nsp)
  {
    var w := WithSlash(nsp);
    var t := IdText(id) + (Json.Render(Wire(items)) + "\n");
    var p := Packet(SentType(typ, items), "/", Empty, None, |Bins(items)|, []);
    HeaderUpToNsp(lib, typ, nsp, id, items, w, t);
    NspUpToComma(lib, p, w, t);
    PathDiffers(lib, w);
  }

  lemma HeaderUpToNsp(lib: Lib, typ: PacketType, nsp: string, id: Option<nat>, items: seq<Elem>, w: string, t: string)
    requires typ == Event || typ == Ack
    requires w == WithSlash(nsp) && w != "" && w != "/" && |Bins(items)| < TWO63
    requires t == IdText(id) + (Json.Render(Wire(items)) + "\n")
    ensures Decode(lib, ListText(typ, nsp, id, items))
         == DecodeNsp(lib, Packet(SentType(typ, items), "/", Empty, None, |Bins(items)|, []), w + ("," + t))
  {
    var st := SentType(typ, items);
    ListTextIs(typ, nsp, id, items);
    CatAssoc(w, ",", t);
    DecodeType(lib, st, CountText(|Bins(items)|) + (w + ("," + t)));
    DecodeCountField(lib, Packet(st, "/", Empty, None, 0, []), |Bins(items)|, w + ("," + t));
  }

  lemma PathDiffers(lib: Lib, w: string)
    requires Shrinks(lib) && !PlainNsp(lib, w) && w[0] == '/'
    ensures lib.urlPath(w[..CommaIndex(w)]) != Some(w)
  {
    assert w[..|w|] == w;
  }

  /** A namespace arrives as sent if and only if it has no comma and url.Parse leaves it alone. */
  lemma NspArrives(lib: Lib, typ: PacketType, nsp: string, id: Option<nat>, items: seq<Elem>)
    requires (typ == Event || typ == Ack) && Shrinks(lib)
    requires ValidId(id) && |Bins(items)| < TWO63
    ensures var r := Decode(lib, ListText(typ, nsp, id, items));
      r.Ok? && r.value.nsp == Normal(nsp) <==> PlainNsp(lib, WithSlash(nsp))
  {
    if PlainNsp(lib, WithSlash(nsp)) {
      DecodeList(lib, typ, nsp, id, items);
    } else {
      NspChanged(lib, typ, nsp, id, items);
    }
  }

  /** Binary frames complete the packet at hand; they never change its namespace. */
  lemma {:induction false} BinariesKeepNsp(lib: Lib, lastp: Option<Packet<Incoming>>, bs: seq<Blob>, nsp: string)
    requires Sound(lastp) && (lastp.Some? ==> lastp.value.nsp == nsp)
    ensures forall p | p in Packets(Feed(lib, lastp, BinFrames(bs)).1) :: p.nsp == nsp
    decreases |bs|
  {
    if bs != [] {
      StepSound(lib, lastp, BinFrame(bs[0]));
      var (next, out) := Step(lib, lastp, BinFrame(bs[0]));
      BinariesKeepNsp(lib, next, bs[1..], nsp);
      assert BinFrames(bs) == [BinFrame(bs[0])] + BinFrames(bs[1..]);
      FeedHead(lib, lastp, BinFrame(bs[0]), BinFrames(bs[1..]), next, out);
      PacketsCons(out, Feed(lib, next, BinFrames(bs[1..])).1);
    }
  }

  lemma PacketsCons(out: Output, outs: seq<Output>)
    ensures Packets([out] + outs) == (if out.Emitted? then [out.p] else []) + Packets(outs)
  {
    assert ([out] + outs)[1..] == outs;
  }

  /** So a namespace that does not survive is not that of any packet emitted. */
  lemma NspNotEmitted(lib: Lib, typ: PacketType, nsp: string, id: Option<nat>, items: seq<Elem>)
    requires (typ == Event || typ == Ack) && Shrinks(lib) && !PlainNsp(lib, WithSlash(nsp))
    requires |Bins(items)| < TWO63
    ensures forall p | p in Packets(Feed(lib, None, ListFrames(typ, nsp, id, items)).1) :: p.nsp != Normal(nsp)
  {
    var text := ListText(typ, nsp, id, items);
    var (next, out) := Step(lib, None, TextFrame(text));
    NspChanged(lib, typ, nsp, id, items);
    FeedHead(lib, None, TextFrame(text), BinFrames(Bins(items)), next, out);
    PacketsCons(out, Feed(lib, next, BinFrames(Bins(items))).1);
    var r := Decode(lib, text);
    if r.Ok? {
      BinariesKeepNsp(lib, next, Bins(items), r.value.nsp);
    } else {
      BinariesRefused(lib, Bins(items));
    }
  }

  // ---- packets without data ----

  /** A frame that ends with its namespace. */
  lemma BareNsp(lib: Lib, p: Packet<Incoming>, nsp: string)
    requires PlainNsp(lib, nsp) && nsp != "" && nsp != "/"
    ensures DecodeNsp(lib, p, nsp + ",") == Ok(p.(nsp := nsp))
  {
    var s := nsp + ",";
    assert s[..|nsp|] == nsp;
    CommaIndexUnique(s, |nsp|);
  }

  /** The text of a packet of any other type than Event and Ack, after its type and its count. */
  lemma PlainText(typ: PacketType, nsp: string, d: Outgoing)
    requires typ != Event && typ != Ack
    ensures var sent := Preprocessed(Packet(typ, nsp, d, None, 0, []));
      EncodeText(sent) == [DigitChar(typ.Code())]
                        + (CountText(sent.attachments) + (NspText(WithSlash(nsp)) + DataText(sent.data)))
  {
    var t := DataText(Preprocessed(Packet(typ, nsp, d, None, 0, [])).data);
    assert "" + t == t;
  }

  lemma NspOfPlainText(lib: Lib, typ: PacketType, w: string, t: string)
    requires !typ.IsBinary() && w != "" && w[0] == '/' && w != "/"
    ensures var r := Decode(lib, [DigitChar(typ.Code())] + (NspText(w) + t));
      match lib.urlPath(w[..CommaIndex(w)])
      case None => r.Err?
      case Some(path) => NspIs(r, path)
  {
    var p := Packet(typ, "/", Empty, None, 0, []);
    CatAssoc(w, ",", t);
    DecodeType(lib, typ, w + ("," + t));
    NspUpToComma(lib, p, w, t);
  }

  /** A namespace that does not survive is not what any of these packets is decoded with. */
  lemma PlainNspChanged(lib: Lib, typ: PacketType, nsp: string, t: string)
    requires !typ.IsBinary() && Shrinks(lib) && !PlainNsp(lib, WithSlash(nsp))
    ensures var r := Decode(lib, [DigitChar(typ.Code())] + (NspText(WithSlash(nsp)) + t));
      r.Ok? ==> r.value.nsp != Normal(nsp)
  {
    NspOfPlainText(lib, typ, WithSlash(nsp), t);
    PathDiffers(lib, WithSlash(nsp));
  }

  /** A packet without data carries its namespace and nothing else, and arrives if the namespace does. */
  lemma ControlRoundTrip(lib: Lib, typ: PacketType, nsp: string)
    requires Shrinks(lib) && (typ == Connect || typ == Disconnect || typ == Error)
    ensures Decode(lib, EncodeText(Preprocessed(Packet(typ, nsp, NoData, None, 0, []))))
         == Ok(Packet(typ, Normal(nsp), Empty, None, 0, []))
       <==> PlainNsp(lib, WithSlash(nsp))
  {
    if PlainNsp(lib, WithSlash(nsp)) {
      ControlDelivered(lib, typ, nsp);
    } else {
      ControlChanged(lib, typ, nsp);
    }
  }

  lemma ControlChanged(lib: Lib, typ: PacketType, nsp: string)
    requires Shrinks(lib) && (typ == Connect || typ == Disconnect || typ == Error)
    requires !PlainNsp(lib, WithSlash(nsp))
    ensures Decode(lib, EncodeText(Preprocessed(Packet(typ, nsp, NoData, None, 0, []))))
         != Ok(Packet(typ, Normal(nsp), Empty, None, 0, []))
  {
    var field := NspText(WithSlash(nsp));
    PlainText(typ, nsp, NoData);
    assert field + "" == field && "" + field == field;
    PlainNspChanged(lib, typ, nsp, "");
  }

  lemma ControlDelivered(lib: Lib, typ: PacketType, nsp: string)
    requires PlainNsp(lib, WithSlash(nsp)) && (typ == Connect || typ == Disconnect || typ == Error)
    ensures Decode(lib, EncodeText(Preprocessed(Packet(typ, nsp, NoData, None, 0, []))))
         == Ok(Packet(typ, Normal(nsp), Empty, None, 0, []))
  {
    var field := NspText(WithSlash(nsp));
    PlainText(typ, nsp, NoData);
    assert field + "" == field && "" + field == field;
    BareControl(lib, typ, nsp);
  }

  lemma BareControl(lib: Lib, typ: PacketType, nsp: string)
    requires !typ.IsBinary() && PlainNsp(lib, WithSlash(nsp))
    ensures Decode(lib, [DigitChar(typ.Code())] + NspText(WithSlash(nsp)))
         == Ok(Packet(typ, Normal(nsp), Empty, None, 0, []))
  {
    DecodeType(lib, typ, NspText(WithSlash(nsp)));
    if NspText(WithSlash(nsp)) != "" {
      BareNsp(lib, Packet(typ, "/", Empty, None, 0, []), WithSlash(nsp));
    }
  }
}
