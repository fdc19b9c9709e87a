/** The readers and writers of payload.go as they run: loops over a reader and growing buffers. */
module PayloadIo {
  import opened Common
  import opened Payload
  import opened PayloadTheorems
  import Base64

  /** An in-memory byteReader that returns all requested bytes when they are available. */
  class ByteReader {
    const input: Bytes
    var pos: nat

    ghost predicate Valid()
      reads this
    {
      pos <= |input|
    }

    ghost function Rest(): Bytes
      requires Valid()
      reads this
    {
      input[pos..]
    }

    constructor (input: Bytes)
      ensures Valid() && Rest() == input
    {
      this.input := input;
      pos := 0;
    }

    method ReadByte() returns (b: Option<byte>)
      requires Valid()
      modifies this
      ensures Valid()
      ensures old(Rest()) == [] ==> b == None && Rest() == []
      ensures old(Rest()) != [] ==> b == Some(old(Rest())[0]) && Rest() == old(Rest())[1..]
    {
      if pos == |input| { return None; }
      b := Some(input[pos]);
      pos := pos + 1;
    }

    /** Up to `k` bytes. */
    method Read(k: nat) returns (d: Bytes)
      requires Valid()
      modifies this
      ensures Valid()
      ensures d == old(Rest())[..Min(k, |old(Rest())|)]
      ensures Rest() == old(Rest())[Min(k, |old(Rest())|)..]
    {
      var m := Min(k, |input| - pos);
      d := input[pos..pos + m];
      pos := pos + m;
    }
  }

  /** The digit loop of both decodeHead methods. */
  method ReadLength(r: ByteReader, zero: byte, stop: byte) returns (n: int, length: int, err: Option<Error>)
    requires r.Valid()
    modifies r
    ensures r.Valid()
    ensures var spec := ScanLength(old(r.Rest()), zero, stop, 0);
      && n == spec.n && r.Rest() == spec.rest
      && (if err == None then spec.r == Ok(length) else spec.r == Err(err.value))
  {
    n, length := 0, 0;
    while true
      invariant r.Valid()
      invariant var spec, here := ScanLength(old(r.Rest()), zero, stop, 0), ScanLength(r.Rest(), zero, stop, length);
        spec.n == n + here.n && spec.rest == here.rest && spec.r == here.r
      decreases |r.Rest()|
    {
      var b := r.ReadByte();
      if b == None { return n, 0, Some(Eof); }
      n := n + 1;
      if b.value == stop { return n, length, None; }
      if b.value < zero || b.value > zero + 9 { return n, 0, Some(InvalidPayload); }
      length := WrapInt(length * 10 + (b.value - zero));
    }
  }

  /** packet2.decodeHead */
  method ReadXhr2Head(r: ByteReader) returns (n: int, h: Result<Head, Error>)
    requires r.Valid()
    modifies r
    ensures r.Valid()
    ensures Payload.Read(n, r.Rest(), h) == HeadXhr2(old(r.Rest()))
  {
    n := 0;
    var b := r.ReadByte();
    if b == None { return n, Err(Eof); }
    n := n + 1;
    if b.value > 1 { return n, Err(InvalidPayload); }
    var m := if b.value == 0 then StringMessage else BinaryMessage;
    var k, length, err := ReadLength(r, 0, STOP);
    n := n + k;
    if err != None { return n, Err(err.value); }
    b := r.ReadByte();
    if b == None { return n, Err(Eof); }
    n := n + 1;
    var t := if m.StringMessage? then SubByte(b.value, ZERO) else b.value;
    h := Ok(Head(m, t, WrapInt(length - 1)));
  }

  /** Read into a fresh slice of `l` bytes. */
  method ReadData(r: ByteReader, l: nat) returns (n: int, d: Result<Bytes, Error>)
    requires r.Valid()
    modifies r
    ensures r.Valid()
    ensures Payload.Read(n, r.Rest(), d) == ReadInto(old(r.Rest()), l)
  {
    if l == 0 { return 0, Ok([]); }
    var got := r.Read(l);
    if got == [] { return 0, Err(Eof); }
    return |got|, Ok(got + Zeros(l - |got|));
  }

  /** Read through a base64 stream decoder into a fresh slice of `l` bytes. */
  method ReadEncoded(r: ByteReader, l: nat) returns (n: int, d: Result<Bytes, Error>)
    requires r.Valid() && l % 3 == 0 && l > 0
    modifies r
    ensures r.Valid()
    ensures Payload.Read(n, r.Rest(), d) == ReadBase64(old(r.Rest()), l)
  {
    var s := r.Read(Min(l / 3 * 4, BASE64_BUFFER));
    if s == [] { return 0, Err(Eof); }
    if |s| < 4 { return 0, Err(UnexpectedEof); }
    assert s[..|s| / 4 * 4] == old(r.Rest())[..|s| / 4 * 4];
    var got := Base64.Decode(s[..|s| / 4 * 4]);
    if got == None { return 0, Err(CorruptInput); }
    return |got.value|, Ok(got.value + Zeros(l - |got.value|));
  }

  /** packet2.decode */
  method ReadXhr2(r: ByteReader) returns (n: int, p: Result<Packet, Error>)
    requires r.Valid()
    modifies r
    ensures r.Valid()
    ensures Payload.Read(n, r.Rest(), p) == DecodeXhr2(old(r.Rest()))
  {
    var h;
    n, h := ReadXhr2Head(r);
    if h.Err? { return n, Err(h.error); }
    if h.value.length < 0 { return n, Err(Panic); }
    var k, d := ReadData(r, h.value.length);
    n := n + k;
    if d.Err? { return n, Err(d.error); }
    p := Ok(Packet(h.value.msgType, h.value.pktType, d.value));
  }

  /** Packet.decodeHead */
  method ReadTextHead(r: ByteReader) returns (n: int, h: Result<Head, Error>)
    requires r.Valid()
    modifies r
    ensures r.Valid()
    ensures Payload.Read(n, r.Rest(), h) == HeadText(old(r.Rest()))
  {
    var length, err;
    n, length, err := ReadLength(r, ZERO, COLON);
    if err != None { return n, Err(err.value); }
    var b := r.ReadByte();
    if b == None { return n, Err(Eof); }
    n := n + 1;
    if b.value != LETTER_B {
      return n, Ok(Head(StringMessage, SubByte(b.value, ZERO), WrapInt(length - 1)));
    }
    b := r.ReadByte();
    if b == None { return n, Err(Eof); }
    n := n + 1;
    return n, Ok(Head(BinaryMessage, SubByte(b.value, ZERO), WrapInt(length - 2)));
  }

  /** Packet.decode */
  method ReadText(r: ByteReader) returns (n: int, p: Result<Packet, Error>)
    requires r.Valid()
    modifies r
    ensures r.Valid()
    ensures Payload.Read(n, r.Rest(), p) == DecodeText(old(r.Rest()))
  {
    var h;
    n, h := ReadTextHead(r);
    if h.Err? { return n, Err(h.error); }
    var head := h.value;
    n := n + head.length;
    var l := if head.msgType.BinaryMessage? then Quarter(head.length) * 3 else head.length;
    if l < 0 { return n, Err(Panic); }
    if l == 0 { return n, Ok(Packet(head.msgType, head.pktType, [])); }
    var k, d;
    if head.msgType.BinaryMessage? { k, d := ReadEncoded(r, l); } else { k, d := ReadData(r, l); }
    if d.Err? { return n, Err(d.error); }
    p := Ok(Packet(head.msgType, head.pktType, d.value));
  }

  /** What has been loaded so far, followed by what is still to be loaded. */
  function Onto(n: int, ps: seq<Packet>, l: Loaded): Loaded {
    Loaded(n + l.n, ps + l.packets, l.err)
  }

  /** Payload.readFrom */
  method ReadPayload(r: ByteReader, xhr2: bool) returns (n: int, packets: seq<Packet>, err: Option<Error>)
    requires r.Valid()
    modifies r
    ensures r.Valid()
    ensures Loaded(n, packets, err) == ReadFrom(old(r.Rest()), xhr2)
  {
    n, packets := 0, [];
    while true
      invariant r.Valid()
      invariant ReadFrom(old(r.Rest()), xhr2) == Onto(n, packets, ReadFrom(r.Rest(), xhr2))
      decreases |r.Rest()|
    {
      ghost var here := r.Rest();
      var k, p;
      if xhr2 { k, p := ReadXhr2(r); } else { k, p := ReadText(r); }
      LoadNext(here, xhr2, Payload.Read(k, r.Rest(), p));
      n := n + k;
      if p.Err? {
        return n, packets, if p.error == Eof then None else Some(p.error);
      }
      OntoNext(n - k, packets, k, p.value, ReadFrom(r.Rest(), xhr2));
      packets := packets + [p.value];
    }
  }

  lemma LoadNext(s: Bytes, xhr2: bool, d: Payload.Read<Packet>)
    requires d == if xhr2 then DecodeXhr2(s) else DecodeText(s)
    ensures d.r.Err? ==> ReadFrom(s, xhr2) == Loaded(d.n, [], if d.r.error == Eof then None else Some(d.r.error))
    ensures d.r.Ok? ==> |d.rest| < |s| && ReadFrom(s, xhr2) == Prepend(d.n, d.r.value, ReadFrom(d.rest, xhr2))
  {
  }

  lemma OntoNext(n: int, ps: seq<Packet>, k: int, p: Packet, l: Loaded)
    ensures Onto(n, ps, Prepend(k, p, l)) == Onto(n + k, ps + [p], l)
  {
    CatAssoc(ps, [p], l.packets);
  }

  /** The first digit loop of packet2.WriteTo: least significant digit first. */
  method LowDigits(n: nat) returns (lb: Bytes)
    requires n > 0
    ensures Reversed(lb) == Digits(n)
  {
    var length := n;
    lb := [];
    while length > 0
      invariant Digits(n) == if length == 0 then Reversed(lb) else Digits(length) + Reversed(lb)
    {
      ReversedSnoc(lb, length % 10);
      if length >= 10 {
        CatAssoc(Digits(length / 10), [length % 10], Reversed(lb));
      }
      lb := lb + [length % 10];
      length := length / 10;
    }
  }

  /** The second: the digits turned round. */
  method TurnRound(lb: Bytes) returns (buf: Bytes)
    ensures buf == Reversed(lb)
  {
    buf := [];
    var i := |lb|;
    assert lb[..i] == lb;
    while i > 0
      invariant 0 <= i <= |lb|
      invariant buf + Reversed(lb[..i]) == Reversed(lb)
    {
      assert lb[..i] == lb[..i - 1] + [lb[i - 1]];
      ReversedSnoc(lb[..i - 1], lb[i - 1]);
      CatAssoc(buf, [lb[i - 1]], Reversed(lb[..i - 1]));
      buf := buf + [lb[i - 1]];
      i := i - 1;
    }
  }

  function Reversed(s: Bytes): Bytes {
    if s == [] then [] else Reversed(s[1..]) + [s[0]]
  }

  lemma {:induction false} ReversedSnoc(s: Bytes, x: byte)
    ensures Reversed(s + [x]) == [x] + Reversed(s)
  {
    if s != [] {
      ReversedSnoc(s[1..], x);
      assert (s + [x])[1..] == s[1..] + [x];
      CatAssoc([x], Reversed(s[1..]), [s[0]]);
    }
  }

  /** packet2.WriteTo */
  method WriteXhr2(p: Packet) returns (w: Bytes, n: nat)
    ensures w == EncodeXhr2(p) && n == |w|
  {
    w := [if p.msgType.StringMessage? then 0 else 1];
    n := 1;
    var lb := LowDigits(|p.data| + 1);
    var buf := TurnRound(lb);
    var b := if p.msgType.StringMessage? then AddByte(p.pktType, ZERO) else p.pktType;
    CatAssoc([w[0]], Digits(|p.data| + 1) + [STOP, b], p.data);
    CatAssoc(Digits(|p.data| + 1), [STOP, b], p.data);
    buf := buf + [STOP, b];
    w := w + buf + p.data;
    n := n + |buf| + |p.data|;
  }

  /** Packet.encodeHead: the length to announce, the bytes after it, and the data to write. */
  method EncodeHead(p: Packet) returns (length: nat, div: Bytes, dst: Bytes)
    ensures p.msgType.StringMessage? ==>
      length == |p.data| + 1 && div == [COLON, AddByte(p.pktType, ZERO)] && dst == p.data
    ensures p.msgType.BinaryMessage? ==>
      && dst == Base64.Encode(p.data) && length == Base64.EncodedLen(|p.data|) + 2
      && div == [COLON, LETTER_B, AddByte(p.pktType, ZERO)]
  {
    length, dst := |p.data|, p.data;
    match p.msgType {
      case StringMessage =>
        div := [COLON, AddByte(p.pktType, ZERO)];
        length := length + 1;
      case BinaryMessage =>
        length := Base64.EncodedLen(length);
        div := [COLON, LETTER_B, AddByte(p.pktType, ZERO)];
        dst := Base64.Encode(p.data);
        length := length + 2;
    }
  }

  /** Packet.WriteTo: the decimal length, the bytes after it, the data. */
  method WriteText(p: Packet) returns (w: Bytes, n: nat)
    ensures w == EncodeText(p) && n == |w|
  {
    var length, div, data := EncodeHead(p);
    w := Shifted(Digits(length), ZERO);
    n := |w|;
    CatAssoc(w, div, data);
    w := w + div;
    n := n + |div|;
    w := w + data;
    n := n + |data|;
  }

  /** Payload.WriteTo */
  method WritePayload(ps: seq<Packet>, xhr2: bool) returns (w: Bytes, n: nat)
    ensures w == WriteTo(ps, xhr2) && n == |w|
  {
    w, n := [], 0;
    for i := 0 to |ps|
      invariant w + WriteTo(ps[i..], xhr2) == WriteTo(ps, xhr2) && n == |w|
    {
      var one, k;
      if xhr2 { one, k := WriteXhr2(ps[i]); } else { one, k := WriteText(ps[i]); }
      assert ps[i..][0] == ps[i] && ps[i..][1..] == ps[i + 1..];
      CatAssoc(w, one, WriteTo(ps[i + 1..], xhr2));
      w := w + one;
      n := n + k;
    }
  }

  /** Writing a payload and reading it again: the same packets, both counts the bytes on the wire. */
  method Exchange(ps: seq<Packet>, xhr2: bool) returns (written: nat, n: int, got: seq<Packet>, err: Option<Error>)
    requires forall i | 0 <= i < |ps| :: Fits(ps[i]) && (xhr2 || TextSafe(ps[i]))
    ensures got == ps && err == None && written == n
  {
    var w;
    w, written := WritePayload(ps, xhr2);
    if xhr2 { Xhr2ListRoundTrip(ps); } else { TextListRoundTrip(ps); }
    var r := new ByteReader(w);
    n, got, err := ReadPayload(r, xhr2);
  }
}
