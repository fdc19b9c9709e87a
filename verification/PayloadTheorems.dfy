/** Payload round trips, packet by packet and for whole lists. */
module PayloadTheorems {
  import opened Common
  import opened Payload
  import Base64

  /** A Go slice has fewer than 2^63 bytes; so has its base64 text, with its two header bytes. */
  predicate Fits(p: Packet) {
    |p.data| < 0x2000_0000_0000_0000
  }

  // ---- lengths ----

  /** Folding digits with wrap-around at each step, as both head readers do. */
  function Fold(ds: Bytes, acc: int): int {
    if ds == [] then acc else Fold(ds[1..], WrapInt(acc * 10 + ds[0]))
  }

  lemma {:induction false} FoldSnoc(ds: Bytes, d: byte, acc: int)
    ensures Fold(ds + [d], acc) == WrapInt(Fold(ds, acc) * 10 + d)
  {
    if ds != [] {
      FoldSnoc(ds[1..], d, WrapInt(acc * 10 + ds[0]));
      assert (ds + [d])[1..] == ds[1..] + [d];
    } else {
      assert (ds + [d])[1..] == [];
    }
  }

  /** No intermediate value of a length below 2^63 overflows: the reader gets back what was written. */
  lemma {:induction false} FoldDigits(n: nat)
    requires n < TWO63
    ensures Fold(Digits(n), 0) == n
  {
    if n >= 10 {
      FoldDigits(n / 10);
      FoldSnoc(Digits(n / 10), n % 10, 0);
    }
  }

  lemma {:induction false} ScanDigits(ds: Bytes, zero: byte, stop: byte, rest: Bytes, acc: int)
    requires forall i | 0 <= i < |ds| :: ds[i] < 10
    requires zero <= 200 && (stop < zero || stop > zero + 9)
    ensures ScanLength(Shifted(ds, zero) + ([stop] + rest), zero, stop, acc) == Read(|ds| + 1, rest, Ok(Fold(ds, acc)))
    decreases |ds|
  {
    var s := Shifted(ds, zero) + ([stop] + rest);
    if ds == [] {
      assert s == [stop] + rest && s[1..] == rest;
    } else {
      assert s[1..] == Shifted(ds[1..], zero) + ([stop] + rest);
      ScanDigits(ds[1..], zero, stop, rest, WrapInt(acc * 10 + ds[0]));
    }
  }

  lemma ScanNumber(n: nat, zero: byte, stop: byte, rest: Bytes)
    requires n < TWO63 && zero <= 200 && (stop < zero || stop > zero + 9)
    ensures ScanLength(Shifted(Digits(n), zero) + ([stop] + rest), zero, stop, 0) == Read(|Digits(n)| + 1, rest, Ok(n))
  {
    ScanDigits(Digits(n), zero, stop, rest, 0);
    FoldDigits(n);
  }

  lemma SubAdd(a: byte, b: byte)
    ensures SubByte(AddByte(a, b), b) == a
  {
  }

  lemma TypeLetter(a: byte)
    ensures AddByte(a, ZERO) == LETTER_B <==> a == 50
  {
  }

  lemma ReadAll(d: Bytes, rest: Bytes)
    ensures ReadInto(d + rest, |d|) == Read(|d|, rest, Ok(d))
  {
    if d == [] {
      assert d + rest == rest;
    } else {
      assert (d + rest)[..|d|] == d && (d + rest)[|d|..] == rest;
      assert d + Zeros(0) == d;
    }
  }

  // ---- XHR2 ----

  /** The rest of the head, once the length has been scanned. */
  lemma HeadXhr2From(s: Bytes, n: int, len: int, t: byte, more: Bytes)
    requires s != [] && s[0] <= 1 && ScanLength(s[1..], 0, STOP, 0) == Read(n, [t] + more, Ok(len))
    ensures HeadXhr2(s) == Read(n + 2, more,
      if s[0] == 0 then Ok(Head(StringMessage, SubByte(t, ZERO), WrapInt(len - 1)))
      else Ok(Head(BinaryMessage, t, WrapInt(len - 1))))
  {
    assert ([t] + more)[1..] == more;
  }

  lemma HeadOfXhr2(p: Packet, rest: Bytes)
    requires Fits(p)
    ensures HeadXhr2(EncodeXhr2(p) + rest)
         == Read(|EncodeXhr2(p)| - |p.data|, p.data + rest, Ok(Head(p.msgType, p.pktType, |p.data|)))
  {
    var kind: byte := if p.msgType.StringMessage? then 0 else 1;
    var t := if p.msgType.StringMessage? then AddByte(p.pktType, ZERO) else p.pktType;
    var ds := Digits(|p.data| + 1);
    assert Shifted(ds, 0) == ds;
    Xhr2Layout(kind, ds, t, p.data, rest);
    ScanNumber(|p.data| + 1, 0, STOP, [t] + (p.data + rest));
    HeadXhr2From(EncodeXhr2(p) + rest, |ds| + 1, |p.data| + 1, t, p.data + rest);
    SubAdd(p.pktType, ZERO);
    WrapSmall(|p.data|);
  }

  lemma Xhr2Layout(kind: byte, ds: Bytes, t: byte, data: Bytes, rest: Bytes)
    ensures var s := [kind] + (ds + ([STOP, t] + data)) + rest;
      && s != [] && s[0] == kind
      && s[1..] == ds + ([STOP] + ([t] + (data + rest)))
  {
    CatAssoc([kind], ds + ([STOP, t] + data), rest);
    CatAssoc(ds, [STOP, t] + data, rest);
    assert [STOP, t] + data + rest == [STOP] + ([t] + (data + rest));
  }

  /** One packet of either kind, any type byte, any data: read back exactly, up to the next packet. */
  lemma Xhr2RoundTrip(p: Packet, rest: Bytes)
    requires Fits(p)
    ensures DecodeXhr2(EncodeXhr2(p) + rest) == Read(|EncodeXhr2(p)|, rest, Ok(p))
  {
    HeadOfXhr2(p, rest);
    ReadAll(p.data, rest);
  }

  lemma NothingLeft(xhr2: bool)
    ensures ReadFrom([], xhr2) == Loaded(0, [], None)
  {
  }

  /** A list of packets: the same list, and the count of all bytes on the wire. */
  lemma {:induction false} Xhr2ListRoundTrip(ps: seq<Packet>)
    requires forall i | 0 <= i < |ps| :: Fits(ps[i])
    ensures ReadFrom(WriteTo(ps, true), true) == Loaded(|WriteTo(ps, true)|, ps, None)
    decreases |ps|
  {
    if ps == [] {
      NothingLeft(true);
    } else {
      Xhr2RoundTrip(ps[0], WriteTo(ps[1..], true));
      Xhr2ListRoundTrip(ps[1..]);
      assert [ps[0]] + ps[1..] == ps;
    }
  }

  // ---- text ----

  lemma TextLayout(ds: Bytes, head: Bytes, data: Bytes, rest: Bytes)
    ensures ds + ([COLON] + head + data) + rest == ds + ([COLON] + (head + (data + rest)))
  {
    CatAssoc(ds, [COLON] + head + data, rest);
    CatAssoc([COLON] + head, data, rest);
    CatAssoc([COLON], head, data + rest);
  }

  /** Scanning the length of a packet whose type bytes are `head`. */
  lemma ScanWritten(n: nat, lead: Bytes, head: Bytes, data: Bytes, rest: Bytes)
    requires n < TWO63 && lead == [COLON] + head
    ensures ScanLength(Shifted(Digits(n), ZERO) + (lead + data) + rest, ZERO, COLON, 0)
         == Read(|Digits(n)| + 1, head + (data + rest), Ok(n))
  {
    TextLayout(Shifted(Digits(n), ZERO), head, data, rest);
    ScanNumber(n, ZERO, COLON, head + (data + rest));
  }

  lemma HeadTextFrom(s: Bytes, n: int, len: int, t: byte, more: Bytes)
    requires ScanLength(s, ZERO, COLON, 0) == Read(n, [t] + more, Ok(len))
    ensures t != LETTER_B ==>
      HeadText(s) == Read(n + 1, more, Ok(Head(StringMessage, SubByte(t, ZERO), WrapInt(len - 1))))
    ensures t == LETTER_B && more != [] ==>
      HeadText(s) == Read(n + 2, more[1..], Ok(Head(BinaryMessage, SubByte(more[0], ZERO), WrapInt(len - 2))))
    ensures t == LETTER_B && more == [] ==> HeadText(s).r == Err(Eof)
  {
    assert ([t] + more)[1..] == more;
    if more != [] { assert ([t] + more)[2..] == more[1..]; }
  }

  lemma HeadOfString(p: Packet, rest: Bytes)
    requires Fits(p) && p.msgType == StringMessage && p.pktType != 50
    ensures HeadText(EncodeText(p) + rest)
         == Read(|EncodeText(p)| - |p.data|, p.data + rest, Ok(Head(StringMessage, p.pktType, |p.data|)))
  {
    var t := AddByte(p.pktType, ZERO);
    var ds := Digits(|p.data| + 1);
    ScanWritten(|p.data| + 1, [COLON, t], [t], p.data, rest);
    TypeLetter(p.pktType);
    HeadTextFrom(EncodeText(p) + rest, |ds| + 1, |p.data| + 1, t, p.data + rest);
    SubAdd(p.pktType, ZERO);
    WrapSmall(|p.data|);
  }

  lemma StringRoundTrip(p: Packet, rest: Bytes)
    requires Fits(p) && p.msgType == StringMessage && p.pktType != 50
    ensures DecodeText(EncodeText(p) + rest) == Read(|EncodeText(p)|, rest, Ok(p))
  {
    HeadOfString(p, rest);
    ReadAll(p.data, rest);
  }

  /** Type byte 50 is written as the letter that marks binary packets. */
  lemma StringMistaken(p: Packet, rest: Bytes)
    requires Fits(p) && p.msgType == StringMessage && p.pktType == 50
    ensures var r := DecodeText(EncodeText(p) + rest).r; r.Ok? ==> r.value.msgType == BinaryMessage
  {
    HeadMistaken(p.data, rest);
  }

  lemma HeadMistaken(data: Bytes, rest: Bytes)
    requires |data| + 1 < TWO63
    ensures var h := HeadText(Shifted(Digits(|data| + 1), ZERO) + ([COLON, LETTER_B] + data) + rest).r;
      h.Ok? ==> h.value.msgType == BinaryMessage
  {
    var n := |data| + 1;
    ScanWritten(n, [COLON, LETTER_B], [LETTER_B], data, rest);
    LetterIsBinary(Shifted(Digits(n), ZERO) + ([COLON, LETTER_B] + data) + rest, |Digits(n)| + 1, n, data + rest);
  }

  lemma LetterIsBinary(s: Bytes, n: int, len: int, more: Bytes)
    requires ScanLength(s, ZERO, COLON, 0) == Read(n, [LETTER_B] + more, Ok(len))
    ensures HeadText(s).r.Ok? ==> HeadText(s).r.value.msgType == BinaryMessage
  {
    HeadTextFrom(s, n, len, LETTER_B, more);
  }

  lemma HeadOfEncoded(t: byte, e: Bytes, rest: Bytes)
    requires |e| + 2 < TWO63
    ensures var ds := Shifted(Digits(|e| + 2), ZERO);
      HeadText(ds + ([COLON, LETTER_B, t] + e) + rest)
      == Read(|ds| + 3, e + rest, Ok(Head(BinaryMessage, SubByte(t, ZERO), |e|)))
  {
    var ds := Shifted(Digits(|e| + 2), ZERO);
    var more := [t] + (e + rest);
    ScanWritten(|e| + 2, [COLON, LETTER_B, t], [LETTER_B, t], e, rest);
    assert [LETTER_B, t] + (e + rest) == [LETTER_B] + more;
    HeadTextFrom(ds + ([COLON, LETTER_B, t] + e) + rest, |ds| + 1, |e| + 2, LETTER_B, more);
    assert more[1..] == e + rest;
    WrapSmall(|e|);
  }

  lemma HeadOfBinary(p: Packet, rest: Bytes)
    requires Fits(p) && p.msgType == BinaryMessage
    ensures var e := Base64.Encode(p.data);
      HeadText(EncodeText(p) + rest)
      == Read(|EncodeText(p)| - |e|, e + rest, Ok(Head(BinaryMessage, p.pktType, |e|)))
  {
    HeadOfEncoded(AddByte(p.pktType, ZERO), Base64.Encode(p.data), rest);
    SubAdd(p.pktType, ZERO);
  }

  const ONE_READ := 768   // what one Read of the base64 decoder yields at most

  /** What arrives of binary data: at most the first 768 bytes, then zeros up to a multiple of 3. */
  function Arrives(d: Bytes): Bytes {
    var k := Min(|d|, ONE_READ);
    d[..k] + Zeros((|d| + 2) / 3 * 3 - k)
  }

  lemma EncodedLens(n: nat)
    ensures var e := Base64.EncodedLen(n);
      && e / 4 * 3 == (n + 2) / 3 * 3 && e / 4 * 3 / 3 * 4 == e && e / 4 * 3 % 3 == 0
      && (n > 0 ==> e >= 4) && (e <= BASE64_BUFFER <==> n <= ONE_READ)
  {
  }

  /** One Read, given what the consumed characters decode to. */
  lemma ReadChunk(s: Bytes, l: nat, k: nat, d: Bytes)
    requires l % 3 == 0 && l > 0 && 4 <= k <= |s| && k % 4 == 0
    requires k == Min(l / 3 * 4, BASE64_BUFFER) && Base64.Decode(s[..k]) == Some(d)
    ensures |d| <= l && ReadBase64(s, l) == Read(|d|, s[k..], Ok(d + Zeros(l - |d|)))
  {
    assert k / 4 * 4 == k;
  }

  /** The lengths of one Read of encoded data. */
  lemma ReadLens(n: nat, e: nat, l: nat, k: nat)
    requires n > 0 && e == Base64.EncodedLen(n) && l == e / 4 * 3 && k == Min(e, BASE64_BUFFER)
    ensures l % 3 == 0 && l > 0 && l == (n + 2) / 3 * 3
    ensures 4 <= k <= e && k % 4 == 0 && k == Min(l / 3 * 4, BASE64_BUFFER)
  {
    EncodedLens(n);
  }

  lemma ReadOfBinary(d: Bytes, rest: Bytes, e: Bytes, l: nat, k: nat)
    requires d != [] && e == Base64.Encode(d) && l == |e| / 4 * 3 && k == Min(|e|, BASE64_BUFFER)
    ensures l % 3 == 0 && l > 0
    ensures ReadBase64(e + rest, l) == Read(Min(|d|, ONE_READ), e[k..] + rest, Ok(Arrives(d)))
  {
    ReadLens(|d|, |e|, l, k);
    var kept := d[..Min(|d|, ONE_READ)];
    ChunkDecodes(d, k, kept);
    ReadKept(e, rest, l, k, kept);
    ArrivesIs(d, l, kept);
  }

  lemma ReadKept(e: Bytes, rest: Bytes, l: nat, k: nat, kept: Bytes)
    requires l % 3 == 0 && l > 0 && 4 <= k <= |e| && k % 4 == 0
    requires k == Min(l / 3 * 4, BASE64_BUFFER) && Base64.Decode(e[..k]) == Some(kept)
    ensures |kept| <= l && ReadBase64(e + rest, l) == Read(|kept|, e[k..] + rest, Ok(kept + Zeros(l - |kept|)))
  {
    SplitChunk(e, rest, k);
    ReadChunk(e + rest, l, k, kept);
  }

  lemma ArrivesIs(d: Bytes, l: nat, kept: Bytes)
    requires l == (|d| + 2) / 3 * 3 && kept == d[..Min(|d|, ONE_READ)] && |kept| <= l
    ensures Arrives(d) == kept + Zeros(l - |kept|)
  {
  }

  lemma SplitChunk(e: Bytes, rest: Bytes, k: nat)
    requires k <= |e|
    ensures (e + rest)[..k] == e[..k] && (e + rest)[k..] == e[k..] + rest
  {
  }

  lemma ChunkDecodes(d: Bytes, k: nat, kept: Bytes)
    requires k == Min(|Base64.Encode(d)|, BASE64_BUFFER) && k % 4 == 0 && kept == d[..Min(|d|, ONE_READ)]
    ensures Base64.Decode(Base64.Encode(d)[..k]) == Some(kept)
  {
    EncodedLens(|d|);
    Base64.DecodeEncode(kept);
    if |Base64.Encode(d)| <= BASE64_BUFFER {
      assert Base64.Encode(d)[..k] == Base64.Encode(d) && kept == d;
    } else {
      Base64.EncodePrefix(d, 256);
    }
  }

  /** Decoding a binary packet of any size: the announced count, but only what one Read yields. */
  lemma BinaryDecoded(p: Packet, rest: Bytes)
    requires Fits(p) && p.msgType == BinaryMessage
    ensures var e := Base64.Encode(p.data);
      DecodeText(EncodeText(p) + rest)
      == Read(|EncodeText(p)|, e[Min(|e|, BASE64_BUFFER)..] + rest, Ok(p.(data := Arrives(p.data))))
  {
    HeadOfBinary(p, rest);
    if p.data == [] {
      assert [] + rest == rest && Arrives([]) == [];
    } else {
      var e := Base64.Encode(p.data);
      ReadOfBinary(p.data, rest, e, |e| / 4 * 3, Min(|e|, BASE64_BUFFER));
    }
  }

  /** The packets that survive text form. */
  predicate TextSafe(p: Packet) {
    match p.msgType
    case StringMessage => p.pktType != 50
    case BinaryMessage => |p.data| % 3 == 0 && |p.data| <= ONE_READ
  }

  lemma ArrivesWhole(d: Bytes)
    ensures Arrives(d) == d && |Base64.Encode(d)| <= BASE64_BUFFER <==> |d| % 3 == 0 && |d| <= ONE_READ
  {
    EncodedLens(|d|);
    if |d| <= ONE_READ {
      PaddedToThree(d);
    }
  }

  /** Padding with zeros up to a multiple of three adds nothing exactly at a multiple of three. */
  lemma PaddedToThree(d: Bytes)
    requires |d| <= ONE_READ
    ensures Arrives(d) == d <==> |d| % 3 == 0
  {
    assert d[..|d|] == d && d + Zeros(0) == d;
    assert |Arrives(d)| == (|d| + 2) / 3 * 3;
  }

  /**
   * One packet in text form is read back exactly, up to the start of the next packet, if and
   * only if it is a string whose type is not 50, or binary data of a length divisible by 3 that
   * fits one Read of the base64 decoder.
   */
  lemma TextRoundTrip(p: Packet, rest: Bytes)
    requires Fits(p)
    ensures DecodeText(EncodeText(p) + rest) == Read(|EncodeText(p)|, rest, Ok(p)) <==> TextSafe(p)
  {
    if p.msgType == StringMessage {
      if p.pktType != 50 { StringRoundTrip(p, rest); } else { StringMistaken(p, rest); }
    } else {
      BinaryDecoded(p, rest);
      ArrivesWhole(p.data);
      var e := Base64.Encode(p.data);
      if |e| <= BASE64_BUFFER {
        assert e[|e|..] + rest == rest;
      } else {
        assert |e[BASE64_BUFFER..] + rest| > |rest|;
      }
    }
  }

  // ---- text, whole lists ----

  /** What readFrom makes of a payload that starts with a packet which does not survive. */
  lemma UnsafeFirst(p: Packet, rest: Bytes, n: int, more: seq<Packet>)
    requires Fits(p) && !TextSafe(p)
    ensures ReadFrom(EncodeText(p) + rest, false) != Loaded(n, [p] + more, None)
  {
    var s := EncodeText(p) + rest;
    if p.msgType == StringMessage {
      StringMistaken(p, rest);
    } else {
      UnsafeBinary(p, rest);
    }
    FirstDecides(s, DecodeText(s), p, n, more);
  }

  lemma UnsafeBinary(p: Packet, rest: Bytes)
    requires Fits(p) && p.msgType == BinaryMessage && !TextSafe(p)
    ensures var d := DecodeText(EncodeText(p) + rest);
      d.r == Ok(p) ==> ReadFrom(d.rest, false).err.Some?
  {
    BinaryDecoded(p, rest);
    ArrivesWhole(p.data);
    if Arrives(p.data) == p.data {
      ZerosRefused(p.data, rest);
    }
  }

  lemma FirstDecides(s: Bytes, d: Read<Packet>, p: Packet, n: int, more: seq<Packet>)
    requires d == DecodeText(s) && (d.r == Ok(p) ==> ReadFrom(d.rest, false).err.Some?)
    ensures ReadFrom(s, false) != Loaded(n, [p] + more, None)
  {
    var l := ReadFrom(s, false);
    if d.r.Ok? {
      assert l.packets[0] == d.r.value;
    }
  }

  /** Data whose missing part is all zeros arrives whole, but what one Read left is no packet. */
  lemma ZerosRefused(d: Bytes, rest: Bytes)
    requires Arrives(d) == d && |Base64.Encode(d)| > BASE64_BUFFER
    ensures ReadFrom(Base64.Encode(d)[BASE64_BUFFER..] + rest, false).err == Some(InvalidPayload)
  {
    EncodedLens(|d|);
    assert d[ONE_READ] == Arrives(d)[ONE_READ] == 0;
    Base64.SymbolAt(d, 256);
    NoLength(Base64.Encode(d)[BASE64_BUFFER..] + rest);
  }

  lemma NoLength(s: Bytes)
    requires s != [] && s[0] == 65
    ensures ReadFrom(s, false).err == Some(InvalidPayload)
  {
    assert ScanLength(s, ZERO, COLON, 0) == Read(1, s[1..], Err(InvalidPayload));
  }

  lemma LoadedCons(n: int, p: Packet, l: Loaded, m: int, ps: seq<Packet>)
    ensures Prepend(n, p, l) == Loaded(n + m, [p] + ps, None) <==> l == Loaded(m, ps, None)
  {
    assert ([p] + l.packets)[1..] == l.packets && ([p] + ps)[1..] == ps;
  }

  /**
   * A list of packets in text form is read back as the same list, with the count of all bytes on
   * the wire, if and only if every packet of it survives on its own.
   */
  lemma {:induction false} TextListRoundTrip(ps: seq<Packet>)
    requires forall i | 0 <= i < |ps| :: Fits(ps[i])
    ensures ReadFrom(WriteTo(ps, false), false) == Loaded(|WriteTo(ps, false)|, ps, None)
       <==> forall i | 0 <= i < |ps| :: TextSafe(ps[i])
    decreases |ps|
  {
    if ps == [] {
      NothingLeft(false);
    } else {
      var p, more := ps[0], WriteTo(ps[1..], false);
      assert [p] + ps[1..] == ps;
      if TextSafe(p) {
        TextRoundTrip(p, more);
        TextListRoundTrip(ps[1..]);
        LoadedCons(|EncodeText(p)|, p, ReadFrom(more, false), |more|, ps[1..]);
        assert forall i | 1 <= i < |ps| :: ps[i] == ps[1..][i - 1];
      } else {
        UnsafeFirst(p, more, |WriteTo(ps, false)|, ps[1..]);
      }
    }
  }
}
