/** The payload formats byte by byte: what is read from any input, well-formed or not. */
module PayloadWire {
  import opened Common
  import opened Payload
  import opened PayloadTheorems
  import Base64

  // ---- lengths ----

  predicate AllBelow10(ds: Bytes) {
    forall i | 0 <= i < |ds| :: ds[i] < 10
  }

  /** A decimal length as the readers add it up, wrapping at every digit. */
  function LengthOf(ds: Bytes): int
    decreases |ds|
  {
    if ds == [] then 0 else WrapInt(LengthOf(ds[..|ds| - 1]) * 10 + ds[|ds| - 1])
  }

  lemma {:induction false} LengthIsFold(ds: Bytes)
    ensures Fold(ds, 0) == LengthOf(ds)
    decreases |ds|
  {
    if ds != [] {
      var before := ds[..|ds| - 1];
      LengthIsFold(before);
      FoldSnoc(before, ds[|ds| - 1], 0);
      assert ds == before + [ds[|ds| - 1]];
    }
  }

  /** The digits as they stand in a payload: as they are, or as characters. */
  function Written(ds: Bytes, zero: byte): (r: Bytes)
    requires AllBelow10(ds) && zero <= 48
    ensures |r| == |ds|
  {
    Shifted(ds, zero)
  }

  lemma LengthRead(ds: Bytes, zero: byte, stop: byte, rest: Bytes)
    requires AllBelow10(ds) && zero <= 48 && (stop < zero || stop > zero + 9)
    ensures ScanLength(Written(ds, zero) + ([stop] + rest), zero, stop, 0) == Read(|ds| + 1, rest, Ok(LengthOf(ds)))
  {
    ScanDigits(ds, zero, stop, rest, 0);
    LengthIsFold(ds);
  }

  lemma {:induction false} LengthCut(ds: Bytes, zero: byte, stop: byte, acc: int)
    requires AllBelow10(ds) && zero <= 48 && (stop < zero || stop > zero + 9)
    ensures ScanLength(Written(ds, zero), zero, stop, acc) == Read(|ds|, [], Err(Eof))
    decreases |ds|
  {
    if ds != [] {
      assert Written(ds, zero)[1..] == Written(ds[1..], zero);
      LengthCut(ds[1..], zero, stop, WrapInt(acc * 10 + ds[0]));
    }
  }

  lemma {:induction false} LengthBad(ds: Bytes, zero: byte, stop: byte, b: byte, rest: Bytes, acc: int)
    requires AllBelow10(ds) && zero <= 48 && (stop < zero || stop > zero + 9)
    requires b != stop && (b < zero || b > zero + 9)
    ensures ScanLength(Written(ds, zero) + ([b] + rest), zero, stop, acc) == Read(|ds| + 1, rest, Err(InvalidPayload))
    decreases |ds|
  {
    var s := Written(ds, zero) + ([b] + rest);
    if ds == [] {
      assert s == [b] + rest && s[1..] == rest;
    } else {
      assert s[1..] == Written(ds[1..], zero) + ([b] + rest);
      LengthBad(ds[1..], zero, stop, b, rest, WrapInt(acc * 10 + ds[0]));
    }
  }

  // ---- XHR2 ----

  /** What is read into a packet's data: all of it, or what is there and zeros; an error only from nothing. */
  function DataRead(len: int, body: Bytes): Read<Bytes> {
    if len < 0 then Read(0, body, Err(Panic))
    else if len == 0 then Read(0, body, Ok([]))
    else if body == [] then Read(0, body, Err(Eof))
    else if len <= |body| then Read(len, body[len..], Ok(body[..len]))
    else Read(|body|, [], Ok(body + Zeros(len - |body|)))
  }

  function Packed(n: int, msgType: MessageType, pktType: byte, d: Read<Bytes>): Read<Packet> {
    Read(n + d.n, d.rest,
         match d.r case Ok(data) => Ok(Packet(msgType, pktType, data)) case Err(e) => Err(e))
  }

  lemma IntoIs(body: Bytes, len: nat)
    ensures ReadInto(body, len) == DataRead(len, body)
  {
    if 0 < len <= |body| {
      assert body[..len] + Zeros(0) == body[..len];
    } else if len > |body| > 0 {
      assert body[..|body|] == body && body[|body|..] == [];
    }
  }

  function TypeOfChar(t: byte): byte {
    if t >= 48 then t - 48 else t + 208
  }

  lemma TypeIs(t: byte)
    ensures SubByte(t, ZERO) == TypeOfChar(t)
  {
  }

  lemma Xhr2FromHead(s: Bytes, n: int, m: MessageType, t: byte, len: int, body: Bytes)
    requires HeadXhr2(s) == Read(n, body, Ok(Head(m, t, len)))
    ensures DecodeXhr2(s) == Packed(n, m, t, DataRead(len, body))
  {
    if len >= 0 { IntoIs(body, len); }
  }

  lemma TextFromHead(s: Bytes, n: int, t: byte, len: int, body: Bytes)
    requires HeadText(s) == Read(n, body, Ok(Head(StringMessage, t, len)))
    ensures var d := DataRead(len, body); DecodeText(s) == Packed(n + len - d.n, StringMessage, t, d)
  {
    if len >= 0 { IntoIs(body, len); }
  }

  lemma Xhr2Head(kind: byte, s: Bytes)
    ensures ([kind] + s)[1..] == s
  {
  }

  lemma Xhr2Framed(s: Bytes, kind: byte, n: int, total: int, len: int, t: byte, body: Bytes)
    requires total == n + 2
    requires kind <= 1 && s != [] && s[0] == kind && ScanLength(s[1..], 0, STOP, 0) == Read(n, [t] + body, Ok(len))
    ensures DecodeXhr2(s) ==
      Packed(total, if kind == 0 then StringMessage else BinaryMessage, if kind == 0 then TypeOfChar(t) else t,
             DataRead(WrapInt(len - 1), body))
  {
    HeadXhr2From(s, n, len, t, body);
    TypeIs(t);
    Xhr2FromHead(s, n + 2, if kind == 0 then StringMessage else BinaryMessage,
                 if kind == 0 then TypeOfChar(t) else t, WrapInt(len - 1), body);
  }

  /** A whole head, of either kind; the type byte of a string packet is a character. */
  lemma Xhr2Read(kind: byte, ds: Bytes, len: int, t: byte, body: Bytes)
    requires kind <= 1 && AllBelow10(ds) && len == LengthOf(ds)
    ensures DecodeXhr2([kind] + (ds + ([255] + ([t] + body)))) ==
      Packed(|ds| + 3, if kind == 0 then StringMessage else BinaryMessage, if kind == 0 then TypeOfChar(t) else t,
             DataRead(WrapInt(len - 1), body))
  {
    var more := ds + ([255] + ([t] + body));
    assert Written(ds, 0) == ds;
    LengthRead(ds, 0, 255, [t] + body);
    Xhr2Head(kind, more);
    Xhr2Framed([kind] + more, kind, |ds| + 1, |ds| + 3, len, t, body);
  }

  /** Every other input: the end of the payload, or an invalid one. */
  lemma Xhr2Refused(kind: byte, ds: Bytes, b: byte, rest: Bytes)
    requires AllBelow10(ds)
    ensures DecodeXhr2([]) == Read(0, [], Err(Eof))
    ensures kind > 1 ==> DecodeXhr2([kind] + rest) == Read(1, rest, Err(InvalidPayload))
    ensures kind <= 1 ==> DecodeXhr2([kind] + ds) == Read(1 + |ds|, [], Err(Eof))
    ensures kind <= 1 && 9 < b < 255 ==>
      DecodeXhr2([kind] + (ds + ([b] + rest))) == Read(2 + |ds|, rest, Err(InvalidPayload))
    ensures kind <= 1 ==> DecodeXhr2([kind] + (ds + [255])) == Read(2 + |ds|, [], Err(Eof))
  {
    assert Written(ds, 0) == ds;
    Xhr2Head(kind, rest);
    Xhr2Head(kind, ds);
    Xhr2Head(kind, ds + ([b] + rest));
    Xhr2Head(kind, ds + [255]);
    LengthCut(ds, 0, 255, 0);
    if 9 < b < 255 { LengthBad(ds, 0, 255, b, rest, 0); }
    LengthRead(ds, 0, 255, []);
    assert [255] + [] == [255];
  }

  // ---- text ----

  /** Digits as the characters '0' to '9'. */
  function Chars(ds: Bytes): (r: Bytes)
    requires AllBelow10(ds)
    ensures |r| == |ds|
  {
    seq(|ds|, i requires 0 <= i < |ds| => ds[i] + 48)
  }

  lemma CharsAre(ds: Bytes)
    requires AllBelow10(ds)
    ensures Chars(ds) == Written(ds, 48)
  {
  }

  lemma StringFramed(s: Bytes, n: int, total: int, len: int, t: byte, body: Bytes)
    requires total == n + 1
    requires t != 98 && ScanLength(s, ZERO, COLON, 0) == Read(n, [t] + body, Ok(len))
    ensures var d := DataRead(WrapInt(len - 1), body);
      DecodeText(s) == Packed(total + WrapInt(len - 1) - d.n, StringMessage, TypeOfChar(t), d)
  {
    HeadTextFrom(s, n, len, t, body);
    TypeIs(t);
    TextFromHead(s, n + 1, TypeOfChar(t), WrapInt(len - 1), body);
  }

  /** A string packet: the byte after the colon is its type, whatever it is but 'b'. */
  lemma StringRead(ds: Bytes, len: int, t: byte, body: Bytes)
    requires AllBelow10(ds) && len == LengthOf(ds) && t != 98
    ensures var d := DataRead(WrapInt(len - 1), body);
      DecodeText(Chars(ds) + ([58] + ([t] + body)))
      == Packed(|ds| + 2 + WrapInt(len - 1) - d.n, StringMessage, TypeOfChar(t), d)
  {
    CharsAre(ds);
    LengthRead(ds, 48, 58, [t] + body);
    StringFramed(Chars(ds) + ([58] + ([t] + body)), |ds| + 1, |ds| + 2, len, t, body);
  }

  /** What one Read of base64 text gives: at most 1024 characters of it, in fours. */
  function Base64Read(l: nat, body: Bytes): Read<Bytes>
    requires l % 3 == 0 && l > 0
  {
    var k := if l / 3 * 4 < 1024 then l / 3 * 4 else 1024;
    var s := if k < |body| then body[..k] else body;
    var rest := if k < |body| then body[k..] else [];
    if s == [] then Read(0, rest, Err(Eof))
    else if |s| < 4 then Read(0, rest, Err(UnexpectedEof))
    else
      match Base64.Decode(s[..|s| - |s| % 4])
      case None => Read(0, rest, Err(CorruptInput))
      case Some(d) => Read(|d|, rest, Ok(d + Zeros(l - |d|)))
  }

  lemma Base64ReadIs(l: nat, body: Bytes)
    requires l % 3 == 0 && l > 0
    ensures ReadBase64(body, l) == Base64Read(l, body)
  {
    var k := Min(Min(l / 3 * 4, BASE64_BUFFER), |body|);
    CutAt(body, k);
    assert k / 4 * 4 == k - k % 4;
  }

  lemma CutAt(body: Bytes, k: nat)
    requires k <= |body|
    ensures var s := if k < |body| then body[..k] else body;
      && s == body[..k] && s[..k - k % 4] == body[..k - k % 4] && |s| == k
      && body[k..] == if k < |body| then body[k..] else []
  {
    assert body[..|body|] == body;
  }

  /** What is read into a binary packet; a length of -1 to -3 counts as none. */
  function EncodedRead(len: int, body: Bytes): Read<Bytes> {
    if len <= -4 then Read(0, body, Err(Panic))
    else if len < 4 then Read(0, body, Ok([]))
    else Base64Read(len / 4 * 3, body)
  }

  lemma BinaryFromHead(s: Bytes, n: int, t: byte, len: int, body: Bytes)
    requires HeadText(s) == Read(n, body, Ok(Head(BinaryMessage, t, len)))
    ensures var d := EncodedRead(len, body); DecodeText(s) == Packed(n + len - d.n, BinaryMessage, t, d)
  {
    assert len >= 0 ==> Quarter(len) * 3 == len / 4 * 3;
    if len >= 4 { Base64ReadIs(len / 4 * 3, body); }
  }

  lemma BinaryFramed(s: Bytes, n: int, total: int, len: int, t: byte, body: Bytes)
    requires total == n + 2
    requires ScanLength(s, ZERO, COLON, 0) == Read(n, [LETTER_B] + ([t] + body), Ok(len))
    ensures var d := EncodedRead(WrapInt(len - 2), body);
      DecodeText(s) == Packed(total + WrapInt(len - 2) - d.n, BinaryMessage, TypeOfChar(t), d)
  {
    HeadTextFrom(s, n, len, LETTER_B, [t] + body);
    assert ([t] + body)[1..] == body;
    TypeIs(t);
    BinaryFromHead(s, n + 2, TypeOfChar(t), WrapInt(len - 2), body);
  }

  /** A binary packet: 'b', the type, and base64. */
  lemma BinaryRead(ds: Bytes, len: int, t: byte, body: Bytes)
    requires AllBelow10(ds) && len == LengthOf(ds)
    ensures var d := EncodedRead(WrapInt(len - 2), body);
      DecodeText(Chars(ds) + ([58] + ([98] + ([t] + body))))
      == Packed(|ds| + 3 + WrapInt(len - 2) - d.n, BinaryMessage, TypeOfChar(t), d)
  {
    CharsAre(ds);
    LengthRead(ds, 48, 58, [98] + ([t] + body));
    BinaryFramed(Chars(ds) + ([58] + ([98] + ([t] + body))), |ds| + 1, |ds| + 3, len, t, body);
  }

  /** Every other input. */
  lemma TextRefused(ds: Bytes, b: byte, rest: Bytes)
    requires AllBelow10(ds)
    ensures DecodeText(Chars(ds)) == Read(|ds|, [], Err(Eof))
    ensures b < 48 || b > 58 ==> DecodeText(Chars(ds) + ([b] + rest)) == Read(|ds| + 1, rest, Err(InvalidPayload))
    ensures DecodeText(Chars(ds) + [58]) == Read(|ds| + 1, [], Err(Eof))
    ensures DecodeText(Chars(ds) + ([58] + [98])) == Read(|ds| + 2, [], Err(Eof))
  {
    CharsAre(ds);
    LengthCut(ds, 48, 58, 0);
    if b < 48 || b > 58 { LengthBad(ds, 48, 58, b, rest, 0); }
    LengthRead(ds, 48, 58, []);
    LengthRead(ds, 48, 58, [98]);
    assert [58] + [] == [58] && [98][1..] == [];
  }

  // ---- lists ----

  /** Reading ends cleanly at the end of the input, and at any other error with that error. */
  lemma ListRead(s: Bytes, xhr2: bool)
    ensures var d := if xhr2 then DecodeXhr2(s) else DecodeText(s);
      match d.r
      case Err(e) => ReadFrom(s, xhr2) == Loaded(d.n, [], if e == Eof then None else Some(e))
      case Ok(p) =>
        var more := ReadFrom(d.rest, xhr2);
        ReadFrom(s, xhr2) == Loaded(d.n + more.n, [p] + more.packets, more.err)
  {
  }

  // ---- writing ----

  /** The decimal digits of a number, most significant first, with no zero in front. */
  lemma {:induction false} DigitsAre(n: nat)
    ensures AllBelow10(Digits(n)) && (n < TWO63 ==> LengthOf(Digits(n)) == n)
    ensures n > 0 ==> Digits(n)[0] != 0
  {
    if n >= 10 {
      DigitsAre(n / 10);
      assert Digits(n)[..|Digits(n)| - 1] == Digits(n / 10);
    }
  }

  /** Packets of either kind as they are written. */
  lemma WrittenIs(p: Packet)
    ensures p.msgType == StringMessage ==>
      && EncodeXhr2(p) == [0] + (Digits(|p.data| + 1) + ([255] + ([(p.pktType + 48) % 256] + p.data)))
      && EncodeText(p) == Chars(Digits(|p.data| + 1)) + ([58] + ([(p.pktType + 48) % 256] + p.data))
    ensures p.msgType == BinaryMessage ==>
      && EncodeXhr2(p) == [1] + (Digits(|p.data| + 1) + ([255] + ([p.pktType] + p.data)))
      && var e := Base64.Encode(p.data);
         EncodeText(p) == Chars(Digits(|e| + 2)) + ([58] + ([98] + ([(p.pktType + 48) % 256] + e)))
  {
    var e, t := Base64.Encode(p.data), (p.pktType + 48) % 256;
    assert [255, t] + p.data == [255] + ([t] + p.data);
    assert [255, p.pktType] + p.data == [255] + ([p.pktType] + p.data);
    assert [58, t] + p.data == [58] + ([t] + p.data);
    assert [58, 98, t] + e == [58] + ([98] + ([t] + e));
    CharsAre(Digits(|p.data| + 1));
    CharsAre(Digits(|e| + 2));
  }
}
