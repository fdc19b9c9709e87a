/** The default socket.io encoder and decoder: packets, text headers and the frame decoder. */
module Codec {
  import opened Common
  import opened Placeholder
  import Json

  datatype PacketType = Connect | Disconnect | Event | Ack | Error | BinaryEvent | BinaryAck
  {
    function Code(): (n: nat)
      ensures n <= 6
    {
      match this
      case Connect => 0
      case Disconnect => 1
      case Event => 2
      case Ack => 3
      case Error => 4
      case BinaryEvent => 5
      case BinaryAck => 6
    }

    predicate IsBinary() {
      this == BinaryEvent || this == BinaryAck
    }

    /** The type written once there are attachments. */
    function Promoted(): PacketType {
      match this
      case Event => BinaryEvent
      case Ack => BinaryAck
      case _ => this
    }
  }

  /** The packet type named by the first byte of a text frame; other bytes are out of range. */
  function TypeOf(c: char): (t: Option<PacketType>)
    ensures t.Some? <==> '0' <= c <= '6'
    ensures t.Some? ==> DigitChar(t.value.Code()) == c
  {
    match c
    case '0' => Some(Connect)
    case '1' => Some(Disconnect)
    case '2' => Some(Event)
    case '3' => Some(Ack)
    case '4' => Some(Error)
    case '5' => Some(BinaryEvent)
    case '6' => Some(BinaryAck)
    case _ => None
  }

  type Blob = seq<byte>

  /** One element of an outgoing argument list: a JSON value or a BinaryMarshaler. */
  datatype Elem = Val(v: Json.Value) | Bin(data: Blob)

  /** Data of an outgoing packet. */
  datatype Outgoing = NoData | List(items: seq<Elem>) | Scalar(v: Json.Value)

  /** Data of a received packet: none, raw list text, or what json.Unmarshal made of a text. */
  datatype Incoming = Empty | Raw(text: string) | Parsed(text: string)

  /** `buffer` has one slot per attachment; a slot is None until its frame has arrived. */
  datatype Packet<D> = Packet(
    typ: PacketType,
    nsp: string,
    data: D,
    id: Option<nat>,
    attachments: int,
    buffer: seq<Option<Blob>>)

  // ---- encoding ----

  /** The binary elements of a list, in order. */
  function Bins(items: seq<Elem>): seq<Blob> {
    if items == [] then []
    else (if items[0].Bin? then [items[0].data] else []) + Bins(items[1..])
  }

  /** The JSON elements of a list, in order. */
  function Vals(items: seq<Elem>): seq<Json.Value> {
    if items == [] then []
    else (if items[0].Val? then [items[0].v] else []) + Vals(items[1..])
  }

  /** The list as it is rendered: binary elements replaced by holes numbered from `n`. */
  function Plugged(items: seq<Elem>, n: nat): (r: seq<Json.Value>)
    ensures |r| == |items|
  {
    if items == [] then []
    else if items[0].Bin? then [Hole(n)] + Plugged(items[1..], n + 1)
    else [items[0].v] + Plugged(items[1..], n)
  }

  function AsVals(vs: seq<Json.Value>): (r: seq<Elem>)
    ensures |r| == |vs| && forall i | 0 <= i < |vs| :: r[i] == Val(vs[i])
  {
    seq(|vs|, i requires 0 <= i < |vs| => Val(vs[i]))
  }

  function Slots(bs: seq<Blob>): (r: seq<Option<Blob>>)
    ensures |r| == |bs| && forall i | 0 <= i < |bs| :: r[i] == Some(bs[i])
  {
    seq(|bs|, i requires 0 <= i < |bs| => Some(bs[i]))
  }

  function WithSlash(nsp: string): string {
    if nsp != "" && nsp[0] != '/' then "/" + nsp else nsp
  }

  /** The packet as preprocess leaves it. */
  function Preprocessed(p: Packet<Outgoing>): Packet<Outgoing> {
    var p := p.(nsp := WithSlash(p.nsp), attachments := 0);
    if !p.data.List? then p else
      var bins := Bins(p.data.items);
      p.(data := List(AsVals(Plugged(p.data.items, 0))),
         attachments := |bins|,
         buffer := Slots(bins),
         typ := if bins == [] then p.typ else p.typ.Promoted())
  }

  function CountText(n: int): string {
    if n > 0 then Decimal(n) + "-" else ""
  }

  function NspText(nsp: string): string {
    if nsp != "" && nsp != "/" then nsp + "," else ""
  }

  function IdText(id: Option<nat>): string {
    match id case Some(n) => Decimal(n) case None => ""
  }

  /** json.Encoder writes a newline after the value. */
  function DataText(d: Outgoing): string {
    match d
    case NoData => ""
    case List(items) => Json.Render(Json.Arr(Plugged(items, 0))) + "\n"
    case Scalar(v) => Json.Render(v) + "\n"
  }

  /** The text frame of a preprocessed packet. */
  function EncodeText(p: Packet<Outgoing>): string {
    [DigitChar(p.typ.Code())] + (CountText(p.attachments) + (NspText(p.nsp) + (IdText(p.id) + DataText(p.data))))
  }

  /** The packet variable that the caller passes by pointer and that Encode rewrites. */
  class PacketRef {
    var value: Packet<Outgoing>

    constructor (p: Packet<Outgoing>)
      ensures value == p
    {
      value := p;
    }
  }

  /** The loop of preprocess: replace every binary element and collect its bytes. */
  method PullBinaries(items: seq<Elem>) returns (d: seq<Elem>, buffer: seq<Option<Blob>>)
    ensures d == AsVals(Plugged(items, 0))
    ensures buffer == Slots(Bins(items))
  {
    d, buffer := items, [];
    var attachments := 0;
    for i := 0 to |items|
      invariant |d| == |items| && attachments == |buffer|
      invariant forall k | i <= k < |items| :: d[k] == items[k]
      invariant buffer == Slots(Bins(items[..i]))
      invariant d[..i] == AsVals(Plugged(items[..i], 0))
    {
      PullNext(items[..i], items[i]);
      TakeOneMore(items, i, items[i]);
      if d[i].Bin? {
        buffer := buffer + [Some(d[i].data)];
        TakeOneMore(d, i, Val(Hole(attachments)));
        d := d[i := Val(Hole(attachments))];
        attachments := attachments + 1;
      } else {
        TakeOneMore(d, i, d[i]);
      }
    }
    assert d[..|items|] == d && items[..|items|] == items;
  }

  lemma TakeOneMore(d: seq<Elem>, i: nat, e: Elem)
    requires i < |d|
    ensures d[i := e][..i + 1] == d[..i] + [e]
    ensures d[i] == e ==> d[..i + 1] == d[..i] + [e]
  {
  }

  /** Appending one element to the list. */
  lemma PullNext(items: seq<Elem>, e: Elem)
    ensures Slots(Bins(items + [e])) == Slots(Bins(items)) + if e.Bin? then [Some(e.data)] else []
    ensures AsVals(Plugged(items + [e], 0))
         == AsVals(Plugged(items, 0)) + [if e.Bin? then Val(Hole(|Bins(items)|)) else e]
  {
    PullSlots(items, e);
    PluggedSnoc(items, e, 0);
    AsValsSnoc(Plugged(items, 0), if e.Bin? then Hole(|Bins(items)|) else e.v);
  }

  lemma PullSlots(items: seq<Elem>, e: Elem)
    ensures Slots(Bins(items + [e])) == Slots(Bins(items)) + if e.Bin? then [Some(e.data)] else []
  {
    BinsSnoc(items, e);
    if e.Bin? { SlotsSnoc(Bins(items), e.data); }
  }

  lemma SlotsSnoc(bs: seq<Blob>, b: Blob)
    ensures Slots(bs + [b]) == Slots(bs) + [Some(b)]
  {
  }

  lemma AsValsSnoc(vs: seq<Json.Value>, v: Json.Value)
    ensures AsVals(vs + [v]) == AsVals(vs) + [Val(v)]
  {
  }

  lemma {:induction false} BinsSnoc(items: seq<Elem>, e: Elem)
    ensures Bins(items + [e]) == Bins(items) + if e.Bin? then [e.data] else []
  {
    if items != [] {
      BinsSnoc(items[1..], e);
      assert (items + [e])[1..] == items[1..] + [e];
    }
  }

  lemma {:induction false} PluggedSnoc(items: seq<Elem>, e: Elem, n: nat)
    ensures Plugged(items + [e], n)
         == Plugged(items, n) + [if e.Bin? then Hole(n + |Bins(items)|) else e.v]
  {
    if items != [] {
      PluggedSnoc(items[1..], e, if items[0].Bin? then n + 1 else n);
      assert (items + [e])[1..] == items[1..] + [e];
    }
  }

  method Preprocess(r: PacketRef)
    modifies r
    ensures r.value == Preprocessed(old(r.value))
  {
    if r.value.nsp != "" && r.value.nsp[0] != '/' {
      r.value := r.value.(nsp := "/" + r.value.nsp);
    }
    r.value := r.value.(attachments := 0);
    if r.value.data.List? {
      var d, buffer := PullBinaries(r.value.data.items);
      r.value := r.value.(data := List(d), buffer := buffer, attachments := |buffer|);
    }
    if r.value.attachments > 0 {
      match r.value.typ {
        case Event => r.value := r.value.(typ := BinaryEvent);
        case Ack => r.value := r.value.(typ := BinaryAck);
        case _ =>
      }
    }
  }

  /** Encode: the text frame, and the binary frames; the packet is left preprocessed. */
  method Encode(r: PacketRef) returns (text: string, bin: seq<Option<Blob>>)
    modifies r
    ensures r.value == Preprocessed(old(r.value))
    ensures text == EncodeText(r.value) && bin == r.value.buffer
  {
    Preprocess(r);
    var p := r.value;
    text := [DigitChar(p.typ.Code())];
    var count, nsp, id := "", "", "";
    if p.attachments > 0 {
      count := Decimal(p.attachments) + "-";
    }
    if p.nsp != "" && p.nsp != "/" {
      nsp := p.nsp + ",";
    }
    if p.id.Some? {
      id := Decimal(p.id.value);
    }
    text := text + count + nsp + id + DataText(p.data);
    CatAssoc([text[0]] + count + nsp, id, DataText(p.data));
    CatAssoc([text[0]] + count, nsp, id + DataText(p.data));
    CatAssoc([text[0]], count, nsp + (id + DataText(p.data)));
    bin := p.buffer;
  }

  // ---- decoding a text frame ----

  datatype DecodeError = UnknownPacket | BadNamespace | NotAList | BadJson

  /** Library calls of the decoder: the Path of a parsed URL, and whether a text is valid JSON. */
  datatype Lib = Lib(urlPath: string -> Option<string>, jsonOk: string -> bool)

  type Decoded = Result<Packet<Incoming>, DecodeError>

  function CommaIndex(s: string): (k: nat)
    ensures k <= |s| && ',' !in s[..k] && (k < |s| ==> s[k] == ',')
  {
    if s == "" || s[0] == ',' then 0 else
      var k := 1 + CommaIndex(s[1..]);
      assert s[..k] == [s[0]] + s[1..][..k - 1];
      k
  }

  /** Decoding makes slots for the attachments but fills none of them. */
  ghost predicate SlotsEmpty(r: Decoded) {
    r.Ok? ==> forall i | 0 <= i < |r.value.buffer| :: r.value.buffer[i] == None
  }

  function Decode(lib: Lib, s: string): (r: Decoded)
    ensures SlotsEmpty(r)
  {
    if s == "" then Err(UnknownPacket) else
      match TypeOf(s[0])
      case None => Err(UnknownPacket)
      case Some(t) => DecodeCount(lib, Packet(t, "/", Empty, None, 0, []), s[1..])
  }

  function DecodeCount(lib: Lib, p: Packet<Incoming>, s: string): (r: Decoded)
    ensures p.buffer == [] ==> SlotsEmpty(r)
  {
    if s == "" then Ok(p)
    else if !p.typ.IsBinary() then DecodeNsp(lib, p, s)
    else
      var k := DigitRun(s);
      if k < |s| && s[k] != '-' then Err(UnknownPacket) else
        var p := p.(attachments := WrapInt(Value(s[..k])));
        if k + 1 >= |s| then Ok(p) else DecodeNsp(lib, p, s[k + 1..])
  }

  function DecodeNsp(lib: Lib, p: Packet<Incoming>, s: string): (r: Decoded)
    requires s != ""
    ensures p.buffer == [] ==> SlotsEmpty(r)
  {
    if s[0] != '/' then DecodeId(lib, p, s) else
      var k := CommaIndex(s);
      match lib.urlPath(s[..k])
      case None => Err(BadNamespace)
      case Some(path) =>
        var p := p.(nsp := path);
        if k + 1 >= |s| then Ok(p) else DecodeId(lib, p, s[k + 1..])
  }

  function DecodeId(lib: Lib, p: Packet<Incoming>, s: string): (r: Decoded)
    requires s != ""
    ensures p.buffer == [] ==> SlotsEmpty(r)
  {
    if !IsDigit(s[0]) then DecodeData(lib, p, s) else
      var k := DigitRun(s);
      var p := p.(id := Some(WrapUint(Value(s[..k]))));
      if k >= |s| then Ok(p) else DecodeData(lib, p, s[k..])
  }

  function DecodeData(lib: Lib, p: Packet<Incoming>, s: string): (r: Decoded)
    requires s != ""
    ensures p.buffer == [] ==> SlotsEmpty(r)
  {
    match p.typ
    case Event | Ack => if s[0] != '[' then Err(NotAList) else Ok(p.(data := Raw(s)))
    case BinaryEvent | BinaryAck =>
      if s[0] != '[' then Err(NotAList) else
        var st := Strip(s);
        Ok(p.(data := Raw(st.text), buffer := seq(st.count, _ => None)))
    case _ => if lib.jsonOk(s) then Ok(p.(data := Parsed(s))) else Err(BadJson)
  }

  // decode as written: one index moving over the frame, one loop per numeric or text field.

  /** The attachment count from index `i`, wrapping like a Go int at every digit. */
  method ScanCount(s: string, i: nat) returns (j: nat, n: int, ok: bool)
    requires i <= |s|
    ensures j == i + DigitRun(s[i..]) <= |s|
    ensures n == WrapInt(Value(s[i..][..j - i]))
    ensures ok <==> j == |s| || s[j] == '-'
  {
    j, n := i, 0;
    while j < |s| && s[j] != '-'
      invariant i <= j <= |s| && AllDigits(s[i..j])
      invariant n == WrapInt(Value(s[i..j]))
    {
      if s[j] < '0' || s[j] > '9' {
        RunEnds(s, i, j);
        return j, n, false;
      }
      ValueSnoc(s[i..j], s[j]);
      WrapStep(Value(s[i..j]), DigitValue(s[j]));
      assert s[i..j] + [s[j]] == s[i..j + 1];
      n := WrapInt(n * 10 + DigitValue(s[j]));
      j := j + 1;
    }
    RunEnds(s, i, j);
    ok := true;
  }

  /** The end of the namespace that starts at index `i`. */
  method ScanNsp(s: string, i: nat) returns (j: nat)
    requires i < |s| && s[i] == '/'
    ensures j == i + CommaIndex(s[i..]) <= |s|
  {
    j := i + 1;
    while j < |s| && s[j] != ','
      invariant i < j <= |s| && ',' !in s[i..j]
    {
      assert s[i..j + 1] == s[i..j] + [s[j]];
      j := j + 1;
    }
    CommaEnds(s, i, j);
  }

  /** The packet id from index `i`, wrapping like a uint64 at every digit. */
  method ScanId(s: string, i: nat) returns (j: nat, id: nat)
    requires i < |s| && IsDigit(s[i])
    ensures j == i + DigitRun(s[i..]) <= |s|
    ensures id == WrapUint(Value(s[i..][..j - i]))
  {
    j, id := i + 1, DigitValue(s[i]);
    assert s[i..j] == "" + [s[i]];
    ValueSnoc("", s[i]);
    while j < |s| && IsDigit(s[j])
      invariant i < j <= |s| && AllDigits(s[i..j])
      invariant id == WrapUint(Value(s[i..j]))
    {
      ValueSnoc(s[i..j], s[j]);
      WrapStep(Value(s[i..j]), DigitValue(s[j]));
      assert s[i..j] + [s[j]] == s[i..j + 1];
      id := WrapUint(id * 10 + DigitValue(s[j]));
      j := j + 1;
    }
    RunEnds(s, i, j);
  }

  method DecodeFrame(lib: Lib, s: string) returns (r: Decoded)
    ensures r == Decode(lib, s)
  {
    if |s| < 1 { return Err(UnknownPacket); }
    var t := TypeOf(s[0]);
    if t.None? { return Err(UnknownPacket); }
    var p := Packet(t.value, "/", Empty, None, 0, []);
    var i := 1;
    if i >= |s| { return Ok(p); }
    if p.typ.IsBinary() {
      var j, n, ok := ScanCount(s, i);
      if !ok { return Err(UnknownPacket); }
      p := p.(attachments := n);
      i := j + 1;
      if i >= |s| { return Ok(p); }
      assert s[1..][j..] == s[i..];
    }
    r := DecodeFrom(lib, p, s, i);
  }

  /** decode from the namespace on. */
  method DecodeFrom(lib: Lib, p0: Packet<Incoming>, s: string, i0: nat) returns (r: Decoded)
    requires i0 < |s|
    ensures r == DecodeNsp(lib, p0, s[i0..])
  {
    var i, p := i0, p0;
    if s[i] == '/' {
      var j := ScanNsp(s, i);
      assert s[i..][..j - i] == s[i..j];
      var u := lib.urlPath(s[i..j]);
      if u.None? { return Err(BadNamespace); }
      p := p.(nsp := u.value);
      i := j + 1;
      if i >= |s| { return Ok(p); }
      assert s[i0..][j - i0 + 1..] == s[i..];
    }
    r := DecodeFromId(lib, p, s, i);
  }

  /** decode from the packet id on. */
  method DecodeFromId(lib: Lib, p0: Packet<Incoming>, s: string, i0: nat) returns (r: Decoded)
    requires i0 < |s|
    ensures r == DecodeId(lib, p0, s[i0..])
  {
    var i, p := i0, p0;
    if IsDigit(s[i]) {
      var j, id := ScanId(s, i);
      p := p.(id := Some(id));
      assert s[i..][j - i..] == s[j..];
      i := j;
      if i >= |s| { return Ok(p); }
    }
    r := DecodeData(lib, p, s[i..]);
  }

  lemma RunEnds(s: string, i: nat, j: nat)
    requires i <= j <= |s| && AllDigits(s[i..j]) && (j < |s| ==> !IsDigit(s[j]))
    ensures DigitRun(s[i..]) == j - i && s[i..][..j - i] == s[i..j]
  {
    assert s[i..][..j - i] == s[i..j];
    DigitRunUnique(s[i..], j - i);
  }

  lemma CommaEnds(s: string, i: nat, j: nat)
    requires i <= j <= |s| && ',' !in s[i..j] && (j < |s| ==> s[j] == ',')
    ensures CommaIndex(s[i..]) == j - i && s[i..][..j - i] == s[i..j]
  {
    assert s[i..][..j - i] == s[i..j];
    CommaIndexUnique(s[i..], j - i);
  }

  lemma {:induction false} CommaIndexUnique(s: string, k: nat)
    requires k <= |s| && ',' !in s[..k] && (k < |s| ==> s[k] == ',')
    ensures CommaIndex(s) == k
  {
    if k > 0 {
      assert s[..k] == [s[0]] + s[1..][..k - 1];
      CommaIndexUnique(s[1..], k - 1);
    }
  }

  // ---- the frame decoder ----

  datatype Frame = TextFrame(s: string) | BinFrame(b: Blob)

  /** What one Add does besides changing `lastp`. */
  datatype Output = Emitted(p: Packet<Incoming>) | Waiting | Refused(e: DecodeError)

  /** A frame once its text, if it has one, has been decoded. */
  datatype Arrival = Text(r: Decoded) | Binary(b: Blob)

  function Arrive(lib: Lib, f: Frame): Arrival {
    match f
    case TextFrame(s) => Text(Decode(lib, s))
    case BinFrame(b) => Binary(b)
  }

  /** Add, as a function of the partial packet `lastp` and the next frame. */
  function Step(lib: Lib, lastp: Option<Packet<Incoming>>, f: Frame): (Option<Packet<Incoming>>, Output)
    requires Sound(lastp)
  {
    Handle(lastp, Arrive(lib, f))
  }

  function Handle(lastp: Option<Packet<Incoming>>, a: Arrival): (Option<Packet<Incoming>>, Output)
    requires Sound(lastp)
  {
    match a
    case Binary(b) =>
      if lastp.None? then (lastp, Refused(UnknownPacket)) else
        var p := lastp.value;
        var q := p.(buffer := p.buffer[|p.buffer| - p.attachments := Some(b)], attachments := p.attachments - 1);
        if q.attachments == 0 then (None, Emitted(q)) else (Some(q), Waiting)
    case Text(r) => Accept(lastp, r)
  }

  /** Add on a decoded text frame: announced and found attachments must agree. */
  function Accept(lastp: Option<Packet<Incoming>>, r: Decoded): (Option<Packet<Incoming>>, Output) {
    match r
    case Err(e) => (lastp, Refused(e))
    case Ok(p) =>
      if |p.buffer| != p.attachments then (lastp, Refused(UnknownPacket))
      else if p.attachments == 0 then (None, Emitted(p))
      else (Some(p), Waiting)
  }

  /** The partial packet, when there is one, waits for at least one of its slots; the others are filled. */
  ghost predicate Sound(lastp: Option<Packet<Incoming>>) {
    lastp.Some? ==>
      var p := lastp.value;
      && 0 < p.attachments <= |p.buffer|
      && (forall i | 0 <= i < |p.buffer| :: p.buffer[i].Some? <==> i < |p.buffer| - p.attachments)
  }

  /** An emitted packet has every attachment it announced. */
  ghost predicate Complete(p: Packet<Incoming>) {
    p.attachments == 0 && forall i | 0 <= i < |p.buffer| :: p.buffer[i].Some?
  }

  lemma HandleSound(lastp: Option<Packet<Incoming>>, a: Arrival)
    requires Sound(lastp) && (a.Text? ==> SlotsEmpty(a.r))
    ensures Sound(Handle(lastp, a).0)
    ensures Handle(lastp, a).1.Emitted? ==> Complete(Handle(lastp, a).1.p) && Handle(lastp, a).0 == None
  {
  }

  lemma StepSound(lib: Lib, lastp: Option<Packet<Incoming>>, f: Frame)
    requires Sound(lastp)
    ensures Sound(Step(lib, lastp, f).0)
    ensures Step(lib, lastp, f).1.Emitted? ==> Complete(Step(lib, lastp, f).1.p) && Step(lib, lastp, f).0 == None
  {
    HandleSound(lastp, Arrive(lib, f));
  }

  const QUEUE_SIZE := 8

  class DefaultDecoder {
    const lib: Lib
    var packets: seq<Packet<Incoming>>
    var lastp: Option<Packet<Incoming>>

    ghost predicate Valid()
      reads this
    {
      && Sound(lastp)
      && |packets| <= QUEUE_SIZE
      && forall i | 0 <= i < |packets| :: Complete(packets[i])
    }

    constructor (lib: Lib)
      ensures Valid() && this.lib == lib && packets == [] && lastp == None
    {
      this.lib := lib;
      packets := [];
      lastp := None;
    }

    /** With the channel full, emit would block; with room, Add is Step and a push. */
    method Add(f: Frame) returns (err: Option<DecodeError>)
      requires Valid() && |packets| < QUEUE_SIZE
      modifies this
      ensures Valid()
      ensures lastp == Step(lib, old(lastp), f).0
      ensures var out := Step(lib, old(lastp), f).1;
        && packets == (if out.Emitted? then old(packets) + [out.p] else old(packets))
        && err == (if out.Refused? then Some(out.e) else None)
    {
      StepSound(lib, lastp, f);
      match f {
        case BinFrame(b) =>
          if lastp.None? { return Some(UnknownPacket); }
          var p := lastp.value;
          var i := |p.buffer| - p.attachments;
          lastp := Some(p.(buffer := p.buffer[i := Some(b)], attachments := p.attachments - 1));
        case TextFrame(s) =>
          var r := DecodeFrame(lib, s);
          if r.Err? { return Some(r.error); }
          if |r.value.buffer| != r.value.attachments { return Some(UnknownPacket); }
          lastp := Some(r.value);
      }
      if lastp.value.attachments == 0 {
        packets := packets + [lastp.value];
        lastp := None;
      }
      err := None;
    }

    /** The next decoded packet, if any. */
    method Yield() returns (p: Option<Packet<Incoming>>)
      requires Valid()
      modifies this`packets
      ensures Valid()
      ensures old(packets) == [] ==> p == None && packets == []
      ensures old(packets) != [] ==> p == Some(old(packets)[0]) && packets == old(packets)[1..]
    {
      if packets == [] { return None; }
      p := Some(packets[0]);
      packets := packets[1..];
    }

    /**
     * The message handler: Add, then yield. Starting from an empty queue it ends with an empty
     * queue, and yields exactly the packet that this very frame completed.
     */
    method OnMessage(f: Frame) returns (p: Option<Packet<Incoming>>)
      requires Valid() && packets == []
      modifies this
      ensures Valid() && packets == []
      ensures lastp == Step(lib, old(lastp), f).0
      ensures var out := Step(lib, old(lastp), f).1; p == if out.Emitted? then Some(out.p) else None
    {
      var _ := Add(f);
      p := Yield();
    }
  }

  // ---- ParseData ----

  datatype ParseError = NotBytes | NoEvent

  datatype Parts = Parts(event: string, data: string, bin: seq<Option<Blob>>)

  /** ParseData: the event name and the text of the remaining list. */
  function ParseData(p: Packet<Incoming>): Result<Parts, ParseError> {
    if !p.data.Raw? then Err(NotBytes) else
      var bin := if p.typ.IsBinary() then p.buffer else [];
      match p.typ
      case Event | BinaryEvent =>
        (match ExtractEvent(p.data.text)
         case None => Err(NoEvent)
         case Some((event, data)) => Ok(Parts(event, data, bin)))
      case Ack | BinaryAck => Ok(Parts("", p.data.text, bin))
      case _ => Ok(Parts("", "", []))
  }
}
