/** engine.io payloads: packets written one after another, in text (with base64) or XHR2 form. */
module Payload {
  import opened Common
  import Base64

  type Bytes = seq<byte>

  datatype MessageType = StringMessage | BinaryMessage

  datatype Packet = Packet(msgType: MessageType, pktType: byte, data: Bytes)

  const ZERO: byte := 48    // '0'
  const COLON: byte := 58   // ':'
  const LETTER_B: byte := 98 // 'b'
  const STOP: byte := 255

  // ---- lengths ----

  /** The decimal digits of a number, most significant first. */
  function Digits(n: nat): (r: Bytes)
    ensures r != [] && forall i | 0 <= i < |r| :: r[i] < 10
  {
    if n < 10 then [n] else Digits(n / 10) + [n % 10]
  }

  function Shifted(ds: Bytes, shift: byte): (r: Bytes)
    requires forall i | 0 <= i < |ds| :: ds[i] < 10
    requires shift <= 200
    ensures |r| == |ds| && forall i | 0 <= i < |ds| :: r[i] == ds[i] + shift
  {
    seq(|ds|, i requires 0 <= i < |ds| => ds[i] + shift)
  }

  function AddByte(a: byte, b: byte): byte {
    (a + b) % 256
  }

  function SubByte(a: byte, b: byte): byte {
    (a - b) % 256
  }

  // ---- writing ----

  function EncodeXhr2(p: Packet): Bytes {
    var kind: byte := if p.msgType.StringMessage? then 0 else 1;
    var t := if p.msgType.StringMessage? then AddByte(p.pktType, ZERO) else p.pktType;
    [kind] + (Digits(|p.data| + 1) + ([STOP, t] + p.data))
  }

  function EncodeText(p: Packet): Bytes {
    var t := AddByte(p.pktType, ZERO);
    match p.msgType
    case StringMessage => Shifted(Digits(|p.data| + 1), ZERO) + ([COLON, t] + p.data)
    case BinaryMessage =>
      var e := Base64.Encode(p.data);
      Shifted(Digits(|e| + 2), ZERO) + ([COLON, LETTER_B, t] + e)
  }

  // ---- reading ----

  /** Panic stands for make with a negative length. */
  datatype Error = Eof | InvalidPayload | UnexpectedEof | CorruptInput | Panic

  /** The result of a read: the count it reports, the input left, and a value or an error. */
  datatype Read<T> = Read(n: int, rest: Bytes, r: Result<T, Error>)

  /** Digits up to the stop byte; the length wraps like a Go int. */
  function ScanLength(s: Bytes, zero: byte, stop: byte, acc: int): (r: Read<int>)
    ensures |r.rest| <= |s| && r.n == |s| - |r.rest|
    ensures r.r.Ok? ==> |r.rest| < |s|
  {
    if s == [] then Read(0, s, Err(Eof))
    else if s[0] == stop then Read(1, s[1..], Ok(acc))
    else if s[0] < zero || s[0] > zero + 9 then Read(1, s[1..], Err(InvalidPayload))
    else
      var r := ScanLength(s[1..], zero, stop, WrapInt(acc * 10 + (s[0] - zero)));
      r.(n := r.n + 1)
  }

  datatype Head = Head(msgType: MessageType, pktType: byte, length: int)

  /** packet2.decodeHead */
  function HeadXhr2(s: Bytes): (r: Read<Head>)
    ensures |r.rest| <= |s| && r.n == |s| - |r.rest|
    ensures r.r.Ok? ==> |r.rest| < |s|
  {
    if s == [] then Read(0, s, Err(Eof))
    else if s[0] > 1 then Read(1, s[1..], Err(InvalidPayload))
    else
      var m := if s[0] == 0 then StringMessage else BinaryMessage;
      var l := ScanLength(s[1..], 0, STOP, 0);
      if l.r.Err? then Read(1 + l.n, l.rest, Err(l.r.error))
      else if l.rest == [] then Read(1 + l.n, l.rest, Err(Eof))
      else
        var t := if m.StringMessage? then SubByte(l.rest[0], ZERO) else l.rest[0];
        Read(2 + l.n, l.rest[1..], Ok(Head(m, t, WrapInt(l.r.value - 1))))
  }

  /** Packet.decodeHead */
  function HeadText(s: Bytes): (r: Read<Head>)
    ensures |r.rest| <= |s| && r.n == |s| - |r.rest|
    ensures r.r.Ok? ==> |r.rest| < |s|
  {
    var l := ScanLength(s, ZERO, COLON, 0);
    if l.r.Err? then Read(l.n, l.rest, Err(l.r.error))
    else if l.rest == [] then Read(l.n, l.rest, Err(Eof))
    else if l.rest[0] != LETTER_B then
      Read(l.n + 1, l.rest[1..], Ok(Head(StringMessage, SubByte(l.rest[0], ZERO), WrapInt(l.r.value - 1))))
    else if l.rest[1..] == [] then Read(l.n + 1, l.rest[1..], Err(Eof))
    else
      Read(l.n + 2, l.rest[2..], Ok(Head(BinaryMessage, SubByte(l.rest[1], ZERO), WrapInt(l.r.value - 2))))
  }

  function Zeros(n: nat): (r: Bytes)
    ensures |r| == n && forall i | 0 <= i < n :: r[i] == 0
  {
    seq(n, _ => 0)
  }

  function Min(a: int, b: int): int {
    if a < b then a else b
  }

  /** One Read into a zeroed slice of `l` bytes: what is there, up to `l`; a short read is no error. */
  function ReadInto(s: Bytes, l: nat): (r: Read<Bytes>)
    ensures |r.rest| <= |s|
  {
    if l == 0 then Read(0, s, Ok([]))
    else if s == [] then Read(0, s, Err(Eof))
    else
      var k := Min(l, |s|);
      Read(k, s[k..], Ok(s[..k] + Zeros(l - k)))
  }

  /** packet2.decode */
  function DecodeXhr2(s: Bytes): (r: Read<Packet>)
    ensures |r.rest| <= |s| && (r.r.Ok? ==> |r.rest| < |s|)
  {
    var h := HeadXhr2(s);
    if h.r.Err? then Read(h.n, h.rest, Err(h.r.error))
    else if h.r.value.length < 0 then Read(h.n, h.rest, Err(Panic))
    else
      var d := ReadInto(h.rest, h.r.value.length);
      Read(h.n + d.n, d.rest,
           match d.r
           case Ok(data) => Ok(Packet(h.r.value.msgType, h.r.value.pktType, data))
           case Err(e) => Err(e))
  }

  /** Go's integer division by 4, which truncates toward zero. */
  function Quarter(l: int): int {
    if l >= 0 then l / 4 else -(-l / 4)
  }

  /** The internal buffer of the base64 stream decoder bounds what one Read consumes. */
  const BASE64_BUFFER := 1024

  /** One Read of the base64 stream decoder into a zeroed slice of `l` bytes, `l` a positive multiple of 3. */
  function ReadBase64(s: Bytes, l: nat): (r: Read<Bytes>)
    requires l % 3 == 0 && l > 0
    ensures |r.rest| <= |s|
  {
    var k := Min(Min(l / 3 * 4, BASE64_BUFFER), |s|);
    if k == 0 then Read(0, s, Err(Eof))
    else if k < 4 then Read(0, s[k..], Err(UnexpectedEof))
    else
      match Base64.Decode(s[..k / 4 * 4])
      case None => Read(0, s[k..], Err(CorruptInput))
      case Some(d) => Read(|d|, s[k..], Ok(d + Zeros(l - |d|)))
  }

  /** Packet.decode: the count adds the announced length, whatever was read. */
  function DecodeText(s: Bytes): (r: Read<Packet>)
    ensures |r.rest| <= |s| && (r.r.Ok? ==> |r.rest| < |s|)
  {
    var h := HeadText(s);
    if h.r.Err? then Read(h.n, h.rest, Err(h.r.error))
    else
      var n := h.n + h.r.value.length;
      var l := if h.r.value.msgType.BinaryMessage? then Quarter(h.r.value.length) * 3 else h.r.value.length;
      if l < 0 then Read(n, h.rest, Err(Panic))
      else
        var d :=
          if l == 0 then Read(0, h.rest, Ok([]))
          else if h.r.value.msgType.BinaryMessage? then ReadBase64(h.rest, l)
          else ReadInto(h.rest, l);
        Read(n, d.rest,
             match d.r
             case Ok(data) => Ok(Packet(h.r.value.msgType, h.r.value.pktType, data))
             case Err(e) => Err(e))
  }

  /** What ReadFrom returns: the byte count, the packets, and an error unless the input just ended. */
  datatype Loaded = Loaded(n: int, packets: seq<Packet>, err: Option<Error>)

  function Prepend(n: int, p: Packet, l: Loaded): Loaded {
    Loaded(n + l.n, [p] + l.packets, l.err)
  }

  /** Payload.readFrom: decode until the input ends; Eof is a clean end. */
  function ReadFrom(s: Bytes, xhr2: bool): Loaded
    decreases |s|
  {
    var d := if xhr2 then DecodeXhr2(s) else DecodeText(s);
    match d.r
    case Err(e) => Loaded(d.n, [], if e == Eof then None else Some(e))
    case Ok(p) => Prepend(d.n, p, ReadFrom(d.rest, xhr2))
  }

  function EncodeOne(p: Packet, xhr2: bool): Bytes {
    if xhr2 then EncodeXhr2(p) else EncodeText(p)
  }

  /** Payload.WriteTo */
  function WriteTo(ps: seq<Packet>, xhr2: bool): Bytes {
    if ps == [] then [] else EncodeOne(ps[0], xhr2) + WriteTo(ps[1..], xhr2)
  }
}
