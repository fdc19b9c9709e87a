/** The text frames of the protocol, character by character, and what is read from and written to them. */
module CodecWire {
  import opened Common
  import opened Placeholder
  import opened Codec
  import opened CodecTheorems
  import opened EventTheorems
  import Json
  import JsonRead
  import MsgpackPacket

  // ---- numerals ----

  const DIGITS := "0123456789"

  /** Numerals are decimal, most significant digit first. */
  lemma NumeralIs(n: nat)
    ensures Decimal(n) == if n < 10 then [DIGITS[n]] else Decimal(n / 10) + [DIGITS[n % 10]]
  {
    assert forall d: nat | d < 10 :: DIGITS[d] == DigitChar(d) by {
      forall d: nat | d < 10 ensures DIGITS[d] == DigitChar(d) { DigitIs(d); }
    }
  }

  lemma DigitIs(d: nat)
    requires d < 10
    ensures DIGITS[d] == DigitChar(d) == (d + 48) as char
  {
  }

  /** What a run of digits is worth. */
  function Number(s: string): int
    requires AllDigits(s)
  {
    if s == "" then 0 else 10 * Number(s[..|s| - 1]) + (s[|s| - 1] as int - 48)
  }

  lemma {:induction false} NumberIs(s: string)
    requires AllDigits(s)
    ensures Number(s) == Value(s)
  {
    if s != "" {
      NumberIs(s[..|s| - 1]);
    }
  }

  // ---- the shape of a frame ----

  /** The fields of a frame as they stand in its text; an absent field is empty. */
  datatype Layout = Layout(
    typ: char,
    count: string, dash: bool,
    nsp: string, comma: bool,
    id: string,
    data: string)

  function Mark(there: bool, c: char): string {
    if there then [c] else ""
  }

  function Text(l: Layout): string {
    [l.typ] + (l.count + (Mark(l.dash, '-') + FromNsp(l)))
  }

  function FromNsp(l: Layout): string {
    l.nsp + (Mark(l.comma, ',') + (l.id + l.data))
  }

  predicate IsBinaryType(c: char) {
    c == '5' || c == '6'
  }

  /**
   * The texts that are frames: a count only with the binary types, and nothing after it without the
   * dash; a namespace from its slash to the first comma, and nothing after it without the comma; an
   * id of all the digits there are; the rest is data.
   */
  predicate WellFormed(l: Layout) {
    && '0' <= l.typ <= '6'
    && AllDigits(l.count) && AllDigits(l.id)
    && (!IsBinaryType(l.typ) ==> l.count == "" && !l.dash)
    && (IsBinaryType(l.typ) && !l.dash ==> FromNsp(l) == "")
    && (l.nsp != "" ==> l.nsp[0] == '/' && ',' !in l.nsp)
    && (l.comma ==> l.nsp != "")
    && (l.nsp != "" && !l.comma ==> l.id == "" && l.data == "")
    && (l.data != "" ==> !IsDigit(l.data[0]))
    && (l.nsp == "" && l.id == "" && l.data != "" ==> l.data[0] != '/')
  }

  // ---- what a frame means ----

  function TypeAt(c: char): PacketType
    requires '0' <= c <= '6'
  {
    if c == '0' then Connect
    else if c == '1' then Disconnect
    else if c == '2' then Event
    else if c == '3' then Ack
    else if c == '4' then Error
    else if c == '5' then BinaryEvent
    else BinaryAck
  }

  /** Of the data: a list for events and acknowledgements, any JSON text for the other types. */
  function DataMeaning(lib: Lib, c: char, data: string, p: Packet<Incoming>): Decoded {
    if data == "" then Ok(p)
    else if c == '2' || c == '3' then
      if data[0] == '[' then Ok(p.(data := Raw(data))) else Err(NotAList)
    else if IsBinaryType(c) then
      if data[0] == '[' then Ok(p.(data := Raw(Strip(data).text), buffer := NoneYet(Strip(data).count)))
      else Err(NotAList)
    else if lib.jsonOk(data) then Ok(p.(data := Parsed(data)))
    else Err(BadJson)
  }

  function Meaning(lib: Lib, l: Layout): Decoded
    requires WellFormed(l)
  {
    var attachments := if IsBinaryType(l.typ) then WrapInt(Number(l.count)) else 0;
    var id := if l.id == "" then None else Some(WrapUint(Number(l.id)));
    if l.nsp == "" then
      DataMeaning(lib, l.typ, l.data, Packet(TypeAt(l.typ), "/", Empty, id, attachments, []))
    else
      match lib.urlPath(l.nsp)
      case None => Err(BadNamespace)
      case Some(path) => DataMeaning(lib, l.typ, l.data, Packet(TypeAt(l.typ), path, Empty, id, attachments, []))
  }

  lemma DataRead(lib: Lib, c: char, data: string, p: Packet<Incoming>)
    requires '0' <= c <= '6' && p.typ == TypeAt(c) && p.buffer == [] && data != ""
    ensures DecodeData(lib, p, data) == DataMeaning(lib, c, data, p)
  {
    if IsBinaryType(c) && data[0] == '[' {
      var st := Strip(data);
      DecodeBinaryData(lib, p, data, st.count, st.text);
    }
  }

  lemma IdRead(lib: Lib, c: char, id: string, data: string, p: Packet<Incoming>)
    requires '0' <= c <= '6' && p.typ == TypeAt(c) && p.buffer == [] && p.id == None
    requires AllDigits(id) && (data != "" ==> !IsDigit(data[0])) && id + data != ""
    ensures DecodeId(lib, p, id + data)
         == DataMeaning(lib, c, data, p.(id := if id == "" then None else Some(WrapUint(Number(id)))))
  {
    var s := id + data;
    if id == "" {
      assert s == data;
      DataRead(lib, c, data, p);
    } else {
      assert s[..|id|] == id && s[|id|..] == data;
      DigitRunUnique(s, |id|);
      NumberIs(id);
      if data != "" { DataRead(lib, c, data, p.(id := Some(WrapUint(Number(id))))); }
    }
  }

  lemma NspRead(lib: Lib, l: Layout, p: Packet<Incoming>)
    requires WellFormed(l) && p.typ == TypeAt(l.typ) && p.buffer == [] && p.id == None && p.nsp == "/"
    requires FromNsp(l) != ""
    ensures var id := if l.id == "" then None else Some(WrapUint(Number(l.id)));
      DecodeNsp(lib, p, FromNsp(l)) ==
        if l.nsp == "" then DataMeaning(lib, l.typ, l.data, p.(id := id))
        else match lib.urlPath(l.nsp)
             case None => Err(BadNamespace)
             case Some(path) => DataMeaning(lib, l.typ, l.data, p.(nsp := path, id := id))
  {
    var t := l.id + l.data;
    if l.nsp == "" {
      assert FromNsp(l) == t;
      IdRead(lib, l.typ, l.id, l.data, p);
    } else {
      NspSplit(l.nsp, l.comma, t);
      var u := lib.urlPath(l.nsp);
      if u.Some? && t != "" { IdRead(lib, l.typ, l.id, l.data, p.(nsp := u.value)); }
    }
  }

  lemma NspSplit(nsp: string, comma: bool, t: string)
    requires nsp != "" && ',' !in nsp && (!comma ==> t == "")
    ensures var s := nsp + (Mark(comma, ',') + t);
      && CommaIndex(s) == |nsp| && s[..|nsp|] == nsp
      && (t == "" ==> |nsp| + 1 >= |s|) && (t != "" ==> |nsp| + 1 < |s| && s[|nsp| + 1..] == t)
  {
    var s := nsp + (Mark(comma, ',') + t);
    assert s[..|nsp|] == nsp;
    CommaIndexUnique(s, |nsp|);
  }

  lemma CountStep(lib: Lib, p: Packet<Incoming>, s: string)
    requires p.typ.IsBinary() && s != ""
    requires DigitRun(s) == |s| || s[DigitRun(s)] == '-'
    ensures var k := DigitRun(s);
      var q := p.(attachments := WrapInt(Value(s[..k])));
      DecodeCount(lib, p, s) == if k + 1 >= |s| then Ok(q) else DecodeNsp(lib, q, s[k + 1..])
  {
  }

  lemma CountSplit(l: Layout)
    requires WellFormed(l) && IsBinaryType(l.typ)
    ensures var s := l.count + (Mark(l.dash, '-') + FromNsp(l));
      && DigitRun(s) == |l.count| && s[..|l.count|] == l.count && Number(l.count) == Value(l.count)
      && (l.dash ==> s[|l.count|] == '-' && s[|l.count| + 1..] == FromNsp(l))
      && (!l.dash ==> FromNsp(l) == "" && s == l.count)
  {
    var s := l.count + (Mark(l.dash, '-') + FromNsp(l));
    var k := |l.count|;
    assert s[..k] == l.count;
    DigitRunUnique(s, k);
    NumberIs(l.count);
    if l.dash { assert s[k + 1..] == FromNsp(l); }
  }

  lemma CountRead(lib: Lib, l: Layout, p: Packet<Incoming>)
    requires WellFormed(l) && IsBinaryType(l.typ) && p.typ == TypeAt(l.typ)
    ensures var s := l.count + (Mark(l.dash, '-') + FromNsp(l));
      var q := p.(attachments := WrapInt(Number(l.count)));
      s != "" ==> DecodeCount(lib, p, s) == if FromNsp(l) == "" then Ok(q) else DecodeNsp(lib, q, FromNsp(l))
  {
    var s := l.count + (Mark(l.dash, '-') + FromNsp(l));
    BinaryTypes(l.typ);
    CountSplit(l);
    if s != "" { CountStep(lib, p, s); }
  }

  lemma TypeRead(lib: Lib, c: char, s: string)
    requires '0' <= c <= '6'
    ensures Decode(lib, [c] + s) == DecodeCount(lib, Packet(TypeAt(c), "/", Empty, None, 0, []), s)
  {
    TypeThen(lib, [c] + s);
    assert ([c] + s)[1..] == s;
  }

  lemma TypeThen(lib: Lib, t: string)
    requires t != "" && '0' <= t[0] <= '6'
    ensures Decode(lib, t) == DecodeCount(lib, Packet(TypeAt(t[0]), "/", Empty, None, 0, []), t[1..])
  {
    assert TypeOf(t[0]) == Some(TypeAt(t[0]));
  }

  lemma PlainText(l: Layout)
    requires WellFormed(l) && !IsBinaryType(l.typ)
    ensures Text(l) == [l.typ] + FromNsp(l)
  {
    assert "" + ("" + FromNsp(l)) == FromNsp(l);
  }

  lemma PlainTail(lib: Lib, p: Packet<Incoming>, s: string)
    requires !p.typ.IsBinary()
    ensures DecodeCount(lib, p, s) == if s == "" then Ok(p) else DecodeNsp(lib, p, s)
  {
  }

  lemma BinaryTypes(c: char)
    requires '0' <= c <= '6'
    ensures TypeAt(c).IsBinary() <==> IsBinaryType(c)
  {
  }

  lemma NothingFollows(l: Layout)
    requires FromNsp(l) == ""
    ensures l.nsp == "" && l.id == "" && l.data == ""
  {
    assert |FromNsp(l)| == |l.nsp| + (|Mark(l.comma, ',')| + (|l.id| + |l.data|));
  }

  lemma PlainDecodeIs(lib: Lib, l: Layout)
    requires WellFormed(l) && !IsBinaryType(l.typ)
    ensures Decode(lib, Text(l)) == Meaning(lib, l)
  {
    var p := Packet(TypeAt(l.typ), "/", Empty, None, 0, []);
    PlainText(l);
    TypeRead(lib, l.typ, FromNsp(l));
    BinaryTypes(l.typ);
    PlainTail(lib, p, FromNsp(l));
    if FromNsp(l) == "" { NothingFollows(l); } else { NspRead(lib, l, p); }
  }

  lemma BinaryDecodeIs(lib: Lib, l: Layout)
    requires WellFormed(l) && IsBinaryType(l.typ)
    ensures Decode(lib, Text(l)) == Meaning(lib, l)
  {
    var s := l.count + (Mark(l.dash, '-') + FromNsp(l));
    var p := Packet(TypeAt(l.typ), "/", Empty, None, 0, []);
    TypeRead(lib, l.typ, s);
    CountRead(lib, l, p);
    if FromNsp(l) != "" { NspRead(lib, l, p.(attachments := WrapInt(Number(l.count)))); }
  }

  /** The decoder gives every frame its meaning, whichever of its fields are there. */
  lemma DecodeIs(lib: Lib, l: Layout)
    requires WellFormed(l)
    ensures Decode(lib, Text(l)) == Meaning(lib, l)
  {
    if IsBinaryType(l.typ) { BinaryDecodeIs(lib, l); } else { PlainDecodeIs(lib, l); }
  }

  // ---- every text ----

  /** Digits up to a dash or the end. */
  predicate HasCount(t: string) {
    DigitRun(t) == |t| || t[DigitRun(t)] == '-'
  }

  predicate IsFrame(s: string) {
    s != "" && '0' <= s[0] <= '6' && (IsBinaryType(s[0]) ==> HasCount(s[1..]))
  }

  function ReadId(c: char, count: string, dash: bool, nsp: string, comma: bool, t: string): Layout {
    Layout(c, count, dash, nsp, comma, t[..DigitRun(t)], t[DigitRun(t)..])
  }

  function ReadNsp(c: char, count: string, dash: bool, t: string): Layout {
    if t == "" || t[0] != '/' then ReadId(c, count, dash, "", false, t)
    else
      var k := CommaIndex(t);
      if k == |t| then ReadId(c, count, dash, t, false, "") else ReadId(c, count, dash, t[..k], true, t[k + 1..])
  }

  function Fields(s: string): Layout
    requires IsFrame(s)
  {
    var t := s[1..];
    if !IsBinaryType(s[0]) then ReadNsp(s[0], "", false, t)
    else
      var k := DigitRun(t);
      if k == |t| then ReadNsp(s[0], t, false, "") else ReadNsp(s[0], t[..k], true, t[k + 1..])
  }

  lemma ReadIdFits(c: char, count: string, dash: bool, nsp: string, comma: bool, t: string)
    ensures var l := ReadId(c, count, dash, nsp, comma, t);
      l.id + l.data == t && AllDigits(l.id) && (l.data != "" ==> !IsDigit(l.data[0]))
  {
  }

  /** The fields from the namespace on are fit for the fields before them. */
  ghost predicate Fits(l: Layout, c: char, count: string, dash: bool, t: string) {
    && FromNsp(l) == t && l.typ == c && l.count == count && l.dash == dash
    && (HeadFits(c, count, dash, t) ==> WellFormed(l))
  }

  ghost predicate HeadFits(c: char, count: string, dash: bool, t: string) {
    && '0' <= c <= '6' && AllDigits(count)
    && (!IsBinaryType(c) ==> count == "" && !dash)
    && (IsBinaryType(c) && !dash ==> t == "")
  }

  lemma NoNspFits(c: char, count: string, dash: bool, t: string)
    requires t == "" || t[0] != '/'
    ensures Fits(ReadId(c, count, dash, "", false, t), c, count, dash, t)
  {
    ReadIdFits(c, count, dash, "", false, t);
  }

  lemma NspFits(c: char, count: string, dash: bool, nsp: string, t: string)
    requires nsp != "" && nsp[0] == '/' && ',' !in nsp
    ensures Fits(ReadId(c, count, dash, nsp, true, t), c, count, dash, nsp + ("," + t))
  {
    ReadIdFits(c, count, dash, nsp, true, t);
  }

  lemma LastNspFits(c: char, count: string, dash: bool, nsp: string)
    requires nsp != "" && nsp[0] == '/' && ',' !in nsp
    ensures Fits(ReadId(c, count, dash, nsp, false, ""), c, count, dash, nsp)
  {
  }

  lemma ReadNspFits(c: char, count: string, dash: bool, t: string)
    ensures Fits(ReadNsp(c, count, dash, t), c, count, dash, t)
  {
    if t == "" || t[0] != '/' {
      NoNspFits(c, count, dash, t);
    } else {
      var k := CommaIndex(t);
      if k < |t| {
        NspFits(c, count, dash, t[..k], t[k + 1..]);
        assert t == t[..k] + ("," + t[k + 1..]);
      } else {
        assert t[..k] == t;
        LastNspFits(c, count, dash, t);
      }
    }
  }

  lemma FieldsRead(c: char, count: string, dash: bool, t: string)
    requires HeadFits(c, count, dash, t)
    ensures var l := ReadNsp(c, count, dash, t);
      WellFormed(l) && Text(l) == [c] + (count + (Mark(dash, '-') + t))
  {
    ReadNspFits(c, count, dash, t);
  }

  lemma PlainFieldsFit(s: string)
    requires IsFrame(s) && !IsBinaryType(s[0])
    ensures WellFormed(Fields(s)) && Text(Fields(s)) == s
  {
    var t := s[1..];
    FieldsRead(s[0], "", false, t);
    assert "" + ("" + t) == t;
    assert s == [s[0]] + t;
  }

  lemma CountedFieldsFit(s: string)
    requires IsFrame(s) && IsBinaryType(s[0]) && DigitRun(s[1..]) < |s[1..]|
    ensures WellFormed(Fields(s)) && Text(Fields(s)) == s
  {
    var t := s[1..];
    var k := DigitRun(t);
    assert s == [s[0]] + t;
    assert t == t[..k] + ("-" + t[k + 1..]);
    FieldsRead(s[0], t[..k], true, t[k + 1..]);
  }

  lemma BareCountFits(s: string)
    requires IsFrame(s) && IsBinaryType(s[0]) && DigitRun(s[1..]) == |s[1..]|
    ensures WellFormed(Fields(s)) && Text(Fields(s)) == s
  {
    var t := s[1..];
    assert t[..|t|] == t && t + ("" + "") == t;
    assert s == [s[0]] + t;
    FieldsRead(s[0], t, false, "");
  }

  lemma FieldsFit(s: string)
    requires IsFrame(s)
    ensures WellFormed(Fields(s)) && Text(Fields(s)) == s
  {
    if !IsBinaryType(s[0]) {
      PlainFieldsFit(s);
    } else if DigitRun(s[1..]) == |s[1..]| {
      BareCountFits(s);
    } else {
      CountedFieldsFit(s);
    }
  }

  lemma FrameMeaning(lib: Lib, s: string)
    requires IsFrame(s)
    ensures WellFormed(Fields(s)) && Text(Fields(s)) == s && Decode(lib, s) == Meaning(lib, Fields(s))
  {
    FieldsFit(s);
    DecodeIs(lib, Fields(s));
  }

  lemma NotAFrame(lib: Lib, s: string)
    requires !IsFrame(s)
    ensures Decode(lib, s) == Err(UnknownPacket)
  {
  }

  /** Every text is a frame with a meaning, or is refused as an unknown packet. */
  lemma EveryText(lib: Lib, s: string)
    ensures IsFrame(s) ==> WellFormed(Fields(s)) && Text(Fields(s)) == s && Decode(lib, s) == Meaning(lib, Fields(s))
    ensures !IsFrame(s) ==> Decode(lib, s) == Err(UnknownPacket)
  {
    if IsFrame(s) { FrameMeaning(lib, s); } else { NotAFrame(lib, s); }
  }

  // ---- what the decoder refuses ----

  /**
   * A frame whose namespace and data are there: an event or acknowledgement of either kind needs a
   * list, every other packet needs JSON, and nothing else is refused.
   */
  lemma DataRefused(lib: Lib, l: Layout)
    requires WellFormed(l) && l.data != "" && (l.nsp != "" ==> lib.urlPath(l.nsp).Some?)
    ensures '2' <= l.typ <= '3' || '5' <= l.typ <= '6' ==>
      Decode(lib, Text(l)) == Err(NotAList) || (Decode(lib, Text(l)).Ok? && l.data[0] == '[')
    ensures '2' <= l.typ <= '3' || '5' <= l.typ <= '6' ==> (Decode(lib, Text(l)).Ok? <==> l.data[0] == '[')
    ensures '0' <= l.typ <= '1' || l.typ == '4' ==> (Decode(lib, Text(l)).Ok? <==> lib.jsonOk(l.data))
    ensures '0' <= l.typ <= '1' || l.typ == '4' ==> !lib.jsonOk(l.data) ==> Decode(lib, Text(l)) == Err(BadJson)
  {
    DecodeIs(lib, l);
  }

  /** A namespace that ends the frame, with no comma after it, is the namespace all the same. */
  lemma BareNamespace(lib: Lib, c: char, nsp: string)
    requires '0' <= c <= '4' && nsp != "" && nsp[0] == '/' && ',' !in nsp
    ensures Decode(lib, [c] + nsp) ==
      match lib.urlPath(nsp)
      case None => Err(BadNamespace)
      case Some(path) => Ok(Packet(TypeAt(c), path, Empty, None, 0, []))
  {
    var l := Layout(c, "", false, nsp, false, "", "");
    assert nsp + "" == nsp && "" + nsp == nsp;
    assert Text(l) == [c] + nsp;
    DecodeIs(lib, l);
  }

  lemma BareNamespaceAfterCount(lib: Lib, c: char, count: string, nsp: string)
    requires IsBinaryType(c) && AllDigits(count) && nsp != "" && nsp[0] == '/' && ',' !in nsp
    ensures Decode(lib, [c] + (count + ("-" + nsp))) ==
      match lib.urlPath(nsp)
      case None => Err(BadNamespace)
      case Some(path) => Ok(Packet(TypeAt(c), path, Empty, None, WrapInt(Number(count)), []))
  {
    var l := Layout(c, count, true, nsp, false, "", "");
    assert FromNsp(l) == nsp;
    DecodeIs(lib, l);
  }

  /** A frame that is refused, whatever it holds, leaves the partial packet alone. */
  lemma RefusedKeeps(lib: Lib, lastp: Option<Packet<Incoming>>, f: Frame)
    requires Sound(lastp) && Step(lib, lastp, f).1.Refused?
    ensures Step(lib, lastp, f).0 == lastp
  {
  }

  /**
   * When a frame is refused and why: a text that does not decode, with its error; a text that does not
   * hold the slots it announces, or a binary frame that nothing waits for, as an unknown packet.
   */
  lemma RefusedExactly(lib: Lib, lastp: Option<Packet<Incoming>>, f: Frame)
    requires Sound(lastp)
    ensures var out := Step(lib, lastp, f).1;
      match f
      case BinFrame(_) => out.Refused? == (lastp == None) && (out.Refused? ==> out.e == UnknownPacket)
      case TextFrame(s) =>
        match Decode(lib, s)
        case Err(e) => out == Refused(e)
        case Ok(p) =>
          if |p.buffer| != p.attachments then out == Refused(UnknownPacket)
          else if p.attachments == 0 then out == Emitted(p)
          else out == Waiting && Step(lib, lastp, f).0 == Some(p)
  {
  }

  /**
   * What ParseData gives: nothing but an error without a list; for an event its name and the rest of
   * the list, or an error without a name; for an acknowledgement its list; nothing of other packets.
   * Buffers go with the binary types only.
   */
  lemma ParseDataIs(p: Packet<Incoming>)
    ensures !p.data.Raw? ==> ParseData(p) == Err(NotBytes)
    ensures p.data.Raw? && (p.typ == Event || p.typ == BinaryEvent) ==>
      match ExtractEvent(p.data.text)
      case None => ParseData(p) == Err(NoEvent)
      case Some((name, rest)) => ParseData(p) == Ok(Parts(name, rest, if p.typ == Event then [] else p.buffer))
    ensures p.data.Raw? && p.typ == Ack ==> ParseData(p) == Ok(Parts("", p.data.text, []))
    ensures p.data.Raw? && p.typ == BinaryAck ==> ParseData(p) == Ok(Parts("", p.data.text, p.buffer))
    ensures p.data.Raw? && (p.typ == Connect || p.typ == Disconnect || p.typ == Error) ==>
      ParseData(p) == Ok(Parts("", "", []))
  {
  }

  // ---- what the encoder writes ----

  /** The character of a packet's type; events and acknowledgements have one of their own with binaries. */
  function CharOf(typ: PacketType, binaries: bool): char {
    match typ
    case Connect => '0'
    case Disconnect => '1'
    case Event => if binaries then '5' else '2'
    case Ack => if binaries then '6' else '3'
    case Error => '4'
    case BinaryEvent => '5'
    case BinaryAck => '6'
  }

  /** The fields of the text frame of a packet as it is handed to Encode. */
  function Sent(p: Packet<Outgoing>): Layout {
    var n := if p.data.List? then |Bins(p.data.items)| else 0;
    var nsp := if p.nsp == "" || p.nsp == "/" then "" else if p.nsp[0] == '/' then p.nsp else "/" + p.nsp;
    Layout(CharOf(p.typ, n > 0),
           if n > 0 then Decimal(n) else "", n > 0,
           nsp, nsp != "",
           if p.id.Some? then Decimal(p.id.value) else "",
           DataText(p.data))
  }

  lemma SentFields(p: Packet<Outgoing>)
    ensures var q, l := Preprocessed(p), Sent(p);
      && DigitChar(q.typ.Code()) == l.typ
      && CountText(q.attachments) == l.count + Mark(l.dash, '-')
      && NspText(q.nsp) == l.nsp + Mark(l.comma, ',')
      && IdText(q.id) == l.id
  {
  }

  lemma SentDataText(p: Packet<Outgoing>)
    ensures DataText(Preprocessed(p).data) == DataText(p.data)
  {
    if p.data.List? { PluggedVals(Plugged(p.data.items, 0), 0); }
  }

  /** Encode writes exactly these fields, for every packet. */
  lemma EncodeIs(p: Packet<Outgoing>)
    ensures EncodeText(Preprocessed(p)) == Text(Sent(p))
  {
    var l := Sent(p);
    SentFields(p);
    SentDataText(p);
    CatAssoc(l.nsp, Mark(l.comma, ','), l.id + l.data);
    CatAssoc(l.count, Mark(l.dash, '-'), FromNsp(l));
  }

  /** The first character of the frames of a list packet. */
  lemma ListChar(typ: PacketType, nsp: string, id: Option<nat>, items: seq<Elem>)
    requires typ == Event || typ == Ack
    ensures var f := ListFrames(typ, nsp, id, items)[0];
      f.TextFrame? && f.s != ""
      && (typ == Event ==> f.s[0] == if Bins(items) == [] then '2' else '5')
      && (typ == Ack ==> f.s[0] == if Bins(items) == [] then '3' else '6')
  {
    EncodeIs(Packet(typ, nsp, List(items), id, 0, []));
  }

  lemma EventChar(nsp: string, id: Option<nat>, name: string, args: seq<Elem>)
    ensures var f := EventFrames(nsp, id, name, args)[0];
      f.TextFrame? && f.s != "" && f.s[0] == if Bins(args) == [] then '2' else '5'
  {
    ListChar(Event, nsp, id, EventItems(name, args));
    EventWire(name, args);
  }

  /** The type a frame is decoded with is the one its first character stands for. */
  lemma DecodedType(lib: Lib, s: string)
    requires Decode(lib, s).Ok?
    ensures s != "" && '0' <= s[0] <= '6' && Decode(lib, s).value.typ == TypeAt(s[0])
  {
    if IsFrame(s) {
      FrameMeaning(lib, s);
      MeaningType(lib, Fields(s));
      assert Text(Fields(s))[0] == Fields(s).typ;
    } else {
      NotAFrame(lib, s);
    }
  }

  lemma MeaningType(lib: Lib, l: Layout)
    requires WellFormed(l)
    ensures Meaning(lib, l).Ok? ==> Meaning(lib, l).value.typ == TypeAt(l.typ)
  {
  }

  /** The numbers that msgpack packets carry are the same types. */
  lemma MsgpackTypes(typ: PacketType)
    ensures typ.Code() as int == CharOf(typ, false) as int - 48
    ensures MsgpackPacket.IsEvent(typ.Code()) <==> typ == Event || typ == BinaryEvent
    ensures MsgpackPacket.HasNoList(typ.Code()) <==> typ == Connect || typ == Disconnect || typ == Error
  {
  }

  // ---- namespaces ----

  /** A slash goes before a namespace that does not begin with one; any other is sent as it is. */
  lemma SentNamespace(p: Packet<Outgoing>)
    ensures p.nsp == "" ==> Preprocessed(p).nsp == ""
    ensures p.nsp != "" && p.nsp[0] == '/' ==> Preprocessed(p).nsp == p.nsp
    ensures p.nsp != "" && p.nsp[0] != '/' ==> Preprocessed(p).nsp == "/" + p.nsp
  {
  }

  /** The namespace a packet should arrive with. */
  function Arriving(nsp: string): string {
    if nsp == "" then "/" else if nsp[0] == '/' then nsp else "/" + nsp
  }

  lemma ArrivingIs(nsp: string)
    ensures Normal(nsp) == Arriving(nsp)
  {
  }

  /** And does arrive with, when url.Parse leaves it alone and it has no comma. */
  lemma ListNamespace(lib: Lib, typ: PacketType, nsp: string, id: Option<nat>, items: seq<Elem>)
    requires (typ == Event || typ == Ack) && ValidId(id) && |Bins(items)| < TWO63 && Countable(items)
    requires ',' !in nsp && lib.urlPath(Arriving(nsp)) == Some(Arriving(nsp))
    ensures var got := Packets(Feed(lib, None, ListFrames(typ, nsp, id, items)).1);
      |got| == 1 && got[0].nsp == Arriving(nsp)
  {
    FreshDelivery(lib, typ, nsp, id, items);
    ArrivingIs(nsp);
  }

  // ---- placeholders and lists ----

  lemma KeysAre()
    ensures KEY_PLACEHOLDER == "_placeholder" && KEY_NUM == "num"
  {
  }

  lemma QuotePlain(s: string)
    requires Json.AllPlain(s)
    ensures Json.Quote(s) == "\"" + s + "\""
  {
    PlainEscape(s);
  }

  /** The text that stands for the binary argument of this number: both keys, true, and the number. */
  lemma PlaceholderIs(n: nat)
    ensures Json.Render(Hole(n))
         == "{" + ("\"" + KEY_PLACEHOLDER + "\"" + ":" + "true")
          + ("," + ("\"" + KEY_NUM + "\"" + ":")) + (Decimal(n) + "}")
  {
    HoleIsHole(n);
    HoleText(Hole(n));
    KeysPlain();
    QuotePlain(KEY_PLACEHOLDER);
    QuotePlain(KEY_NUM);
    HoleHeadIs(Hole(n).members[0]);
  }

  lemma KeysPlain()
    ensures Json.AllPlain(KEY_PLACEHOLDER) && Json.AllPlain(KEY_NUM)
  {
  }

  lemma HoleHeadIs(m: Json.Member)
    requires m.value == Json.Bool(true)
    ensures HoleHead(m) == "{" + (Json.Quote(m.key) + ":" + "true") + ("," + (Json.Quote(KEY_NUM) + ":"))
  {
  }

  /** Binary arguments are numbered from zero in their order; the others stay as they are. */
  lemma {:induction false} PluggedAt(items: seq<Elem>, n: nat, i: nat)
    requires i < |items|
    ensures Plugged(items, n)[i] == if items[i].Bin? then Hole(n + |Bins(items[..i])|) else items[i].v
  {
    if i > 0 {
      PluggedAt(items[1..], if items[0].Bin? then n + 1 else n, i - 1);
      assert items[..i][1..] == items[1..][..i - 1];
    }
  }

  /** A reader of JSON makes of a list's text the list, with only the bytes that are no characters replaced. */
  lemma ListReadBack(vs: seq<Json.Value>)
    ensures JsonRead.ReadValue(Json.Render(Json.Arr(vs)) + "\n") == Some((Json.Arr(JsonRead.CleanItems(vs)), "\n"))
  {
    JsonRead.ValueRead(Json.Arr(vs), "\n");
  }

  /** So the data of an event that arrives says what its JSON arguments are. */
  lemma EventDataReads(lib: Lib, nsp: string, id: Option<nat>, name: string, args: seq<Elem>)
    requires PlainNsp(lib, WithSlash(nsp)) && ValidId(id) && |Bins(args)| < TWO63
    requires PlainName(name) && Deliverable(args)
    ensures var got := Packets(Feed(lib, None, EventFrames(nsp, id, name, args)).1);
      && |got| == 1 && ParseData(got[0]).Ok?
      && JsonRead.ReadValue(ParseData(got[0]).value.data) == Some((Json.Arr(JsonRead.CleanItems(Vals(args))), "\n"))
  {
    MessageDelivery(lib, Call(nsp, id, name, args));
    ListReadBack(Vals(args));
  }
}
