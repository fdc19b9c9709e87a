/** MessagePack values and the bytes of the format for them, form by form, apart from how they are skipped. */
module MsgpackValues {
  import opened Common
  import opened Msgpack
  import opened MsgpackPacket

  /** Which of its forms an object is written in: the short one, or a length of 8, 16 or 32 bits. */
  datatype Width = Fix | W8 | W16 | W32

  /** Numbers by their size in bytes; the payload is what the format calls the number's bytes. */
  datatype Value =
    | Nil
    | Bool(b: bool)
    | Small(n: nat)                          // 0 to 127 in one byte
    | SmallNegative(n: nat)                  // -32 to -1 in one byte, as -n
    | Unsigned(payload: Bytes)
    | Signed(payload: Bytes)
    | Float32(payload: Bytes)
    | Float64(payload: Bytes)
    | String(s: Bytes, w: Width)
    | Binary(s: Bytes, w: Width)
    | FixExt(kind: byte, s: Bytes)
    | Ext(kind: byte, s: Bytes, w: Width)
    | Array(items: seq<Value>, w: Width)
    | Map(pairs: seq<Value>, w: Width)       // keys and their values in turn

  /** A length fits its form. */
  predicate Holds8(n: nat, w: Width) {
    match w case Fix => false case W8 => n < 256 case W16 => n < 65536 case W32 => n < 4294967296
  }

  predicate HoldsFix(n: nat, fixMax: nat, w: Width) {
    match w case Fix => n <= fixMax case W8 => false case W16 => n < 65536 case W32 => n < 4294967296
  }

  predicate Valid(v: Value)
    decreases v, 0
  {
    match v
    case Nil => true
    case Bool(_) => true
    case Small(n) => n < 128
    case SmallNegative(n) => 1 <= n <= 32
    case Unsigned(p) => |p| == 1 || |p| == 2 || |p| == 4 || |p| == 8
    case Signed(p) => |p| == 1 || |p| == 2 || |p| == 4 || |p| == 8
    case Float32(p) => |p| == 4
    case Float64(p) => |p| == 8
    case String(s, w) => if w == W8 then |s| < 256 else HoldsFix(|s|, 31, w)
    case Binary(s, w) => Holds8(|s|, w)
    case FixExt(_, s) => |s| == 1 || |s| == 2 || |s| == 4 || |s| == 8 || |s| == 16
    case Ext(_, s, w) => Holds8(|s|, w)
    case Array(items, w) => HoldsFix(|items|, 15, w) && AllValid(items)
    case Map(pairs, w) => |pairs| % 2 == 0 && HoldsFix(|pairs| / 2, 15, w) && AllValid(pairs)
  }

  predicate AllValid(vs: seq<Value>)
    decreases vs, 1
  {
    vs == [] || (Valid(vs[0]) && AllValid(vs[1..]))
  }

  /** A number in `k` bytes, most significant first. */
  function Bytes1(n: nat, k: nat): (r: Bytes)
    ensures |r| == k
  {
    if k == 0 then [] else Bytes1(n / 256, k - 1) + [n % 256]
  }

  /** The byte that names a sized form, and the length after it. */
  function Sized(fix: byte, lead8: byte, lead16: byte, lead32: byte, n: nat, w: Width): Bytes {
    match w
    case Fix => [(fix + n) % 256]
    case W8 => [lead8] + Bytes1(n, 1)
    case W16 => [lead16] + Bytes1(n, 2)
    case W32 => [lead32] + Bytes1(n, 4)
  }

  /** The lead byte of a number by the size of its payload. */
  function LeadFor(size: nat, one: byte, two: byte, four: byte, eight: byte): byte {
    if size == 1 then one else if size == 2 then two else if size == 4 then four else eight
  }

  /** The bytes of a value (the MessagePack specification, "Formats"). */
  function Write(v: Value): (r: Bytes)
    requires Valid(v)
    ensures r != []
    decreases v, 0
  {
    match v
    case Nil => [0xc0]
    case Bool(b) => if b then [0xc3] else [0xc2]
    case Small(n) => [n]
    case SmallNegative(n) => [256 - n]
    case Unsigned(p) => [LeadFor(|p|, 0xcc, 0xcd, 0xce, 0xcf)] + p
    case Signed(p) => [LeadFor(|p|, 0xd0, 0xd1, 0xd2, 0xd3)] + p
    case Float32(p) => [0xca] + p
    case Float64(p) => [0xcb] + p
    case String(s, w) => Sized(0xa0, 0xd9, 0xda, 0xdb, |s|, w) + s
    case Binary(s, w) => Sized(0, 0xc4, 0xc5, 0xc6, |s|, w) + s
    case FixExt(kind, s) => [if |s| == 16 then 0xd8 else LeadFor(|s|, 0xd4, 0xd5, 0xd6, 0xd7), kind] + s
    case Ext(kind, s, w) => Sized(0, 0xc7, 0xc8, 0xc9, |s|, w) + ([kind] + s)
    case Array(items, w) => Sized(0x90, 0, 0xdc, 0xdd, |items|, w) + WriteAll(items)
    case Map(pairs, w) => Sized(0x80, 0, 0xde, 0xdf, |pairs| / 2, w) + WriteAll(pairs)
  }

  function WriteAll(vs: seq<Value>): Bytes
    requires AllValid(vs)
    decreases vs, 1
  {
    if vs == [] then [] else Write(vs[0]) + WriteAll(vs[1..])
  }

  // ---- lengths ----

  lemma Bytes16(n: nat)
    requires n < 65536
    ensures Bytes1(n, 2) == [n / 256, n % 256]
  {
    assert Bytes1(n / 256, 1) == [n / 256] by { assert Bytes1(n / 65536, 0) == []; }
  }

  lemma Bytes32(n: nat)
    requires n < 4294967296
    ensures Bytes1(n, 4) == [n / 16777216, n / 65536 % 256, n / 256 % 256, n % 256]
  {
    var h := n / 65536;
    Bytes16(h);
    assert n / 256 / 256 == h;
    assert Bytes1(n / 256, 3) == Bytes1(h, 2) + [n / 256 % 256];
    assert h / 256 == n / 16777216;
  }

  lemma Num16Is(n: nat, rest: Bytes)
    requires n < 65536
    ensures Num16(Bytes1(n, 2) + rest) == n
  {
    Bytes16(n);
  }

  lemma Num32Is(n: nat, rest: Bytes)
    requires n < 4294967296
    ensures Num32(Bytes1(n, 4) + rest) == n
  {
    Bytes32(n);
    var b := Bytes1(n, 4) + rest;
    assert Num16(b) == n / 65536;
    assert Num16(b[2..]) == n % 65536;
  }

  // ---- every value is one object ----

  lemma NumberIsObject(v: Value)
    requires Valid(v) && (v.Unsigned? || v.Signed? || v.Float32? || v.Float64? || v.FixExt?)
    ensures Objects(Write(v), 1)
  {
    LeafIsObject(Write(v));
  }

  lemma SmallIsObject(v: Value)
    requires Valid(v) && (v.Nil? || v.Bool? || v.Small? || v.SmallNegative?)
    ensures Objects(Write(v), 1)
  {
    LeafIsObject(Write(v));
  }

  lemma SizedLeaf(head: Bytes, rest: Bytes, n: nat)
    requires head != [] && ExtentOf(head + rest) == Some(Extent(|head| + |rest|, 0))
    ensures Objects(head + rest, 1)
  {
    LeafIsObject(head + rest);
  }

  lemma SizedExtent(fix: byte, lead8: byte, lead16: byte, lead32: byte, n: nat, w: Width, rest: Bytes)
    requires n < 4294967296 && (w == W8 ==> n < 256) && (w == W16 ==> n < 65536)
    ensures var b := Sized(fix, lead8, lead16, lead32, n, w) + rest;
      && (w == W8 ==> b[0] == lead8 && b[1] == n)
      && (w == W16 ==> b[0] == lead16 && Num16(b[1..]) == n)
      && (w == W32 ==> b[0] == lead32 && Num32(b[1..]) == n)
      && (w == Fix ==> b[0] == (fix + n) % 256)
  {
    var b := Sized(fix, lead8, lead16, lead32, n, w) + rest;
    match w
    case Fix =>
    case W8 => assert Bytes1(n, 1) == [n % 256] by { assert Bytes1(n / 256, 0) == []; }
    case W16 =>
      Num16Is(n, rest);
      assert b[1..] == Bytes1(n, 2) + rest;
    case W32 =>
      Num32Is(n, rest);
      assert b[1..] == Bytes1(n, 4) + rest;
  }

  lemma FixStringIsObject(s: Bytes)
    requires |s| <= 31
    ensures Objects(Write(String(s, Fix)), 1)
  {
    LeafIsObject(Write(String(s, Fix)));
  }

  lemma StringIsObject(s: Bytes, w: Width)
    requires Valid(String(s, w))
    ensures Objects(Write(String(s, w)), 1)
  {
    if w == Fix {
      FixStringIsObject(s);
    } else {
      SizedExtent(0xa0, 0xd9, 0xda, 0xdb, |s|, w, s);
      LeafIsObject(Write(String(s, w)));
    }
  }

  lemma BinaryIsObject(s: Bytes, w: Width)
    requires Valid(Binary(s, w))
    ensures Objects(Write(Binary(s, w)), 1)
  {
    SizedExtent(0, 0xc4, 0xc5, 0xc6, |s|, w, s);
    LeafIsObject(Write(Binary(s, w)));
  }

  lemma ExtIsObject(kind: byte, s: Bytes, w: Width)
    requires Valid(Ext(kind, s, w))
    ensures Objects(Write(Ext(kind, s, w)), 1)
  {
    SizedExtent(0, 0xc7, 0xc8, 0xc9, |s|, w, [kind] + s);
    LeafIsObject(Write(Ext(kind, s, w)));
  }

  /** A head that announces objects, and these objects. */
  lemma NestIsObject(head: Bytes, body: Bytes, n: nat)
    requires head != [] && ExtentOf(head + body) == Some(Extent(|head|, n)) && Objects(body, n)
    ensures Objects(head + body, 1)
  {
    var b := head + body;
    assert b[|head|..] == body;
    SkipByOne(ExtentOf, b, 1, Extent(|head|, n), body);
  }

  lemma ArrayExtent(n: nat, w: Width, body: Bytes)
    requires HoldsFix(n, 15, w)
    ensures var head := Sized(0x90, 0, 0xdc, 0xdd, n, w); ExtentOf(head + body) == Some(Extent(|head|, n))
  {
    SizedExtent(0x90, 0, 0xdc, 0xdd, n, w, body);
  }

  lemma MapExtent(n: nat, w: Width, body: Bytes)
    requires HoldsFix(n, 15, w)
    ensures var head := Sized(0x80, 0, 0xde, 0xdf, n, w); ExtentOf(head + body) == Some(Extent(|head|, 2 * n))
  {
    SizedExtent(0x80, 0, 0xde, 0xdf, n, w, body);
  }

  lemma ArrayIsObject(n: nat, w: Width, body: Bytes)
    requires HoldsFix(n, 15, w) && Objects(body, n)
    ensures Objects(Sized(0x90, 0, 0xdc, 0xdd, n, w) + body, 1)
  {
    ArrayExtent(n, w, body);
    NestIsObject(Sized(0x90, 0, 0xdc, 0xdd, n, w), body, n);
  }

  lemma MapIsObject(n: nat, w: Width, body: Bytes)
    requires HoldsFix(n, 15, w) && Objects(body, 2 * n)
    ensures Objects(Sized(0x80, 0, 0xde, 0xdf, n, w) + body, 1)
  {
    MapExtent(n, w, body);
    NestIsObject(Sized(0x80, 0, 0xde, 0xdf, n, w), body, 2 * n);
  }

  lemma ObjectsJoin(a: Bytes, m: nat, b: Bytes, n: nat)
    requires Objects(a, m) && Objects(b, n)
    ensures Objects(a + b, m + n)
  {
    SkipObjects(a, m, b);
    SkipMore(ExtentOf, a + b, m, n);
  }

  /** Whatever its form, the bytes of a value are exactly one object. */
  lemma {:induction false} ValueIsObject(v: Value)
    requires Valid(v)
    ensures Objects(Write(v), 1)
    decreases v, 0
  {
    match v
    case String(s, w) => StringIsObject(s, w);
    case Binary(s, w) => BinaryIsObject(s, w);
    case Ext(kind, s, w) => ExtIsObject(kind, s, w);
    case Array(items, w) =>
      ValuesAreObjects(items);
      ArrayIsObject(|items|, w, WriteAll(items));
    case Map(pairs, w) =>
      ValuesAreObjects(pairs);
      MapIsObject(|pairs| / 2, w, WriteAll(pairs));
    case Nil | Bool(_) | Small(_) | SmallNegative(_) => SmallIsObject(v);
    case Unsigned(_) | Signed(_) | Float32(_) | Float64(_) | FixExt(_, _) => NumberIsObject(v);
  }

  lemma {:induction false} ValuesAreObjects(vs: seq<Value>)
    requires AllValid(vs)
    ensures Objects(WriteAll(vs), |vs|)
    decreases vs, 1
  {
    if vs == [] {
      assert SkipBy(ExtentOf, [], 0) == Some([]);
    } else {
      ValueIsObject(vs[0]);
      ValuesAreObjects(vs[1..]);
      ObjectsJoin(Write(vs[0]), 1, WriteAll(vs[1..]), |vs| - 1);
    }
  }

  /** So a value among others is skipped as a whole, and nothing of what follows with it. */
  lemma SkipsValue(v: Value, rest: Bytes)
    requires Valid(v)
    ensures Skip(Write(v) + rest, 1) == Some(rest)
  {
    ValueIsObject(v);
    SkipObjects(Write(v), 1, rest);
  }

  /** The one lead byte the format leaves unused begins no object. */
  lemma UnusedLead(b: Bytes)
    requires b != [] && b[0] == 0xc1
    ensures Skip(b, 1) == None
  {
  }

  // ---- what the library's append functions write ----

  lemma Be16Is(n: nat)
    requires n < TWO16
    ensures Be16(n) == Bytes1(n, 2)
  {
    Bytes16(n);
  }

  lemma LowByte(x: nat, low: nat)
    ensures (256 * x + low) / 256 == x + low / 256 && (256 * x + low) % 256 == low % 256
  {
  }

  lemma OneByteLess(x: nat, low: nat, k: nat)
    ensures Bytes1(256 * x + low, k + 1) == Bytes1(x + low / 256, k) + [low % 256]
  {
    LowByte(x, low);
  }

  lemma Be32Is(n: nat)
    requires n < TWO32
    ensures Be32(n) == Bytes1(n, 4)
  {
    var hi, lo := n / TWO16, n % TWO16;
    OneByteLess(256 * hi, lo, 3);
    OneByteLess(hi, lo / 256, 2);
    Bytes16(hi);
    assert 256 * (256 * hi) + lo == n && lo / 256 / 256 == 0 && lo / 256 % 256 == lo / 256;
    assert Be32(n) == Be16(hi) + Be16(lo);
  }

  lemma Shorter(low: nat)
    requires low < 4294967296
    ensures low / 256 / 256 == low / 65536 && low / 65536 / 256 == low / 16777216 && low / 16777216 / 256 == 0
    ensures low / 65536 < 65536 && low / 16777216 < 256
  {
  }

  /** The last four bytes of a number. */
  lemma FourBytesLess(h: nat, low: nat, k: nat)
    requires low < 4294967296
    ensures Bytes1(4294967296 * h + low, k + 4) == Bytes1(h, k) + Bytes1(low, 4)
  {
    Shorter(low);
    OneByteLess(16777216 * h, low, k + 3);
    OneByteLess(65536 * h, low / 256, k + 2);
    OneByteLess(256 * h, low / 65536, k + 1);
    OneByteLess(h, low / 16777216, k);
    FourBytes(low);
    Chain(Bytes1(h, k), low / 16777216, low / 65536, low / 256, low);
  }

  lemma FourBytes(low: nat)
    requires low < 4294967296
    ensures Bytes1(low, 4) == [low / 16777216 % 256, low / 65536 % 256, low / 256 % 256, low % 256]
  {
    Bytes32(low);
    Shorter(low);
  }

  lemma Chain(a: Bytes, w: nat, x: nat, y: nat, z: nat)
    ensures a + [w % 256] + [x % 256] + [y % 256] + [z % 256] == a + [w % 256, x % 256, y % 256, z % 256]
  {
  }

  lemma Be64Is(n: nat)
    requires n < TWO64
    ensures Be64(n) == Bytes1(n, 8)
  {
    FourBytesLess(n / TWO32, n % TWO32, 4);
    Be32Is(n / TWO32);
    Be32Is(n % TWO32);
  }

  function ShortWidth(n: nat, fixMax: nat): Width {
    if n <= fixMax then Fix else if n < 65536 then W16 else W32
  }

  /** A string, a list and a map in the shortest of their forms. */
  function ShortString(s: Bytes): Value {
    String(s, if |s| <= 31 then Fix else if |s| < 256 then W8 else ShortWidth(|s|, 31))
  }

  function ShortArray(items: seq<Value>): Value {
    Array(items, ShortWidth(|items|, 15))
  }

  function ShortNumber(n: nat): Value
    requires n < TWO64
  {
    if n < 128 then Small(n)
    else Unsigned(Bytes1(n, if n < 256 then 1 else if n < 65536 then 2 else if n < 4294967296 then 4 else 8))
  }

  lemma StringIs(s: Bytes)
    requires |s| < TWO32
    ensures Valid(ShortString(s)) && Str(s) == Write(ShortString(s))
  {
    var n := |s|;
    if 31 < n < 256 { assert Bytes1(n, 1) == [n] by { assert Bytes1(n / 256, 0) == []; } }
    else if 256 <= n < TWO16 { Be16Is(n); }
    else if n >= TWO16 { Be32Is(n); }
  }

  lemma ArrayHeadIs(n: nat)
    requires n < TWO32
    ensures Header(ARRAYS, n) == Sized(0x90, 0, 0xdc, 0xdd, n, ShortWidth(n, 15))
  {
    if 15 < n < TWO16 { Be16Is(n); } else if n >= TWO16 { Be32Is(n); }
  }

  lemma MapHeadIs(n: nat)
    requires n < TWO32
    ensures Header(MAPS, n) == Sized(0x80, 0, 0xde, 0xdf, n, ShortWidth(n, 15))
  {
    if 15 < n < TWO16 { Be16Is(n); } else if n >= TWO16 { Be32Is(n); }
  }

  lemma NumberIs(n: nat)
    requires n < TWO64
    ensures Valid(ShortNumber(n)) && Uint(n) == Write(ShortNumber(n))
  {
    if 128 <= n < 256 { assert Bytes1(n, 1) == [n] by { assert Bytes1(n / 256, 0) == []; } }
    else if 256 <= n < TWO16 { Be16Is(n); }
    else if TWO16 <= n < TWO32 { Be32Is(n); }
    else if n >= TWO32 { Be64Is(n); }
  }

  // ---- packets as values ----

  function IdValue(id: Option<nat>): Value
    requires id.Some? ==> id.value < TWO64
  {
    match id case None => Nil case Some(n) => ShortNumber(n)
  }

  /** "type", "nsp", "data" and "id" as bytes. */
  const TYPE: Bytes := [116, 121, 112, 101]
  const NSP: Bytes := [110, 115, 112]
  const DATA: Bytes := [100, 97, 116, 97]
  const ID: Bytes := [105, 100]

  /** A packet as a map of its four fields. */
  function PacketValue(typ: byte, nsp: Bytes, data: Value, id: Option<nat>): Value
    requires id.Some? ==> id.value < TWO64
  {
    Map([ShortString(TYPE), ShortNumber(typ), ShortString(NSP), ShortString(nsp),
         ShortString(DATA), data, ShortString(ID), IdValue(id)], Fix)
  }

  lemma KeyIs()
    ensures Valid(ShortString(TYPE)) && Write(ShortString(TYPE)) == [0xa4, 0x74, 0x79, 0x70, 0x65]
    ensures Valid(ShortString(NSP)) && Write(ShortString(NSP)) == [0xa3, 0x6e, 0x73, 0x70]
    ensures Valid(ShortString(DATA)) && Write(ShortString(DATA)) == [0xa4, 0x64, 0x61, 0x74, 0x61]
    ensures Valid(ShortString(ID)) && Write(ShortString(ID)) == [0xa2, 0x69, 0x64]
  {
  }

  lemma IdIs(id: Option<nat>)
    requires id.Some? ==> id.value < TWO64
    ensures Valid(IdValue(id)) && IdBytes(id) == Write(IdValue(id))
  {
    if id.Some? { NumberIs(id.value); }
  }

  lemma {:induction false} EachValid(vs: seq<Value>)
    requires forall i | 0 <= i < |vs| :: Valid(vs[i])
    ensures AllValid(vs)
  {
    if vs != [] { EachValid(vs[1..]); }
  }

  lemma FirstFour(vs: seq<Value>)
    requires |vs| >= 4 && AllValid(vs)
    ensures Valid(vs[0]) && Valid(vs[1]) && Valid(vs[2]) && Valid(vs[3]) && AllValid(vs[4..])
    ensures WriteAll(vs) == (Write(vs[0]) + Write(vs[1])) + ((Write(vs[2]) + Write(vs[3])) + WriteAll(vs[4..]))
  {
    SecondValid(vs);
    var more := vs[2..];
    SecondValid(more);
    assert more[2..] == vs[4..] && more[0] == vs[2] && more[1] == vs[3];
  }

  lemma LastFour(vs: seq<Value>)
    requires |vs| == 4 && AllValid(vs)
    ensures Valid(vs[0]) && Valid(vs[1]) && Valid(vs[2]) && Valid(vs[3])
    ensures WriteAll(vs) == (Write(vs[0]) + Write(vs[1])) + (Write(vs[2]) + Write(vs[3]))
  {
    FirstFour(vs);
    var a, b := Write(vs[0]) + Write(vs[1]), Write(vs[2]) + Write(vs[3]);
    assert vs[4..] == [] && b + [] == b;
  }

  lemma FourPairs(vs: seq<Value>)
    requires |vs| == 8 && AllValid(vs) && AllValid(vs[4..]) && forall i | 0 <= i < 8 :: Valid(vs[i])
    ensures WriteAll(vs) ==
      (Write(vs[0]) + Write(vs[1])) + ((Write(vs[2]) + Write(vs[3]))
      + ((Write(vs[4]) + Write(vs[5])) + (Write(vs[6]) + Write(vs[7]))))
  {
    FirstFour(vs);
    var more := vs[4..];
    LastFour(more);
    assert more[0] == vs[4] && more[1] == vs[5] && more[2] == vs[6] && more[3] == vs[7];
  }

  lemma MapOfFour(pairs: seq<Value>)
    requires |pairs| == 8 && AllValid(pairs)
    ensures Valid(Map(pairs, Fix)) && Write(Map(pairs, Fix)) == [0x84] + WriteAll(pairs)
  {
  }

  lemma PacketIs(typ: byte, nsp: Bytes, data: Value, id: Option<nat>)
    requires |nsp| < TWO32 && Valid(data) && (id.Some? ==> id.value < TWO64)
    ensures Valid(PacketValue(typ, nsp, data, id))
    ensures Write(PacketValue(typ, nsp, data, id))
         == [0x84] + ((Write(ShortString(TYPE)) + Uint(typ))
                    + ((Write(ShortString(NSP)) + Str(nsp))
                    + ((Write(ShortString(DATA)) + Write(data))
                    + (Write(ShortString(ID)) + IdBytes(id)))))
  {
    var a, b, c, d := ShortString(TYPE), ShortString(NSP), ShortString(DATA), ShortString(ID);
    var va, vb, vd := ShortNumber(typ), ShortString(nsp), IdValue(id);
    KeyIs();
    NumberIs(typ);
    StringIs(nsp);
    IdIs(id);
    var pairs := [a, va, b, vb, c, data, d, vd];
    EachValid(pairs);
    EachValid(pairs[4..]);
    FourPairs(pairs);
    MapOfFour(pairs);
  }

  /** MarshalMsg writes the packet as this map. */
  lemma MarshalIs(typ: byte, nsp: Bytes, data: Value, id: Option<nat>)
    requires |nsp| < TWO32 && Valid(data) && (id.Some? ==> id.value < TWO64)
    ensures Valid(PacketValue(typ, nsp, data, id))
    ensures Marshal(typ, nsp, Write(data), id) == Write(PacketValue(typ, nsp, data, id))
  {
    PacketIs(typ, nsp, data, id);
    KeyIs();
    MarshalText(typ, nsp, Write(data), id);
  }

  lemma MarshalText(typ: byte, nsp: Bytes, data: Bytes, id: Option<nat>)
    requires |nsp| < TWO32 && (id.Some? ==> id.value < TWO64)
    ensures Marshal(typ, nsp, data, id)
         == [0x84] + (([0xa4, 0x74, 0x79, 0x70, 0x65] + Uint(typ))
                    + (([0xa3, 0x6e, 0x73, 0x70] + Str(nsp))
                    + (([0xa4, 0x64, 0x61, 0x74, 0x61] + data)
                    + ([0xa2, 0x69, 0x64] + IdBytes(id)))))
  {
    var rest := ([0xa3, 0x6e, 0x73, 0x70] + Str(nsp))
              + (([0xa4, 0x64, 0x61, 0x74, 0x61] + data) + ([0xa2, 0x69, 0x64] + IdBytes(id)));
    Glue([0x84], [0xa4, 0x74, 0x79, 0x70, 0x65], [0x84, 0xa4, 0x74, 0x79, 0x70, 0x65], Uint(typ), rest);
  }

  function Texts(vs: seq<Value>): (r: seq<Bytes>)
    requires AllValid(vs)
    ensures |r| == |vs|
  {
    if vs == [] then [] else [Write(vs[0])] + Texts(vs[1..])
  }

  lemma {:induction false} TextsAreObjects(vs: seq<Value>)
    requires AllValid(vs)
    ensures Concat(Texts(vs)) == WriteAll(vs)
    ensures forall i | 0 <= i < |vs| :: Objects(Texts(vs)[i], 1)
  {
    if vs != [] {
      ValueIsObject(vs[0]);
      TextsAreObjects(vs[1..]);
      assert Texts(vs)[1..] == Texts(vs[1..]);
    }
  }

  /** The list an event is sent as. */
  function EventValue(name: Bytes, args: seq<Value>): Value {
    ShortArray([ShortString(name)] + args)
  }

  lemma EventListIs(name: Bytes, args: seq<Value>)
    requires |name| < TWO32 && |args| + 1 < TWO32 && AllValid(args)
    ensures Valid(EventValue(name, args)) && EventList(name, Texts(args)) == Write(EventValue(name, args))
  {
    var all := [ShortString(name)] + args;
    StringIs(name);
    TextsAreObjects(args);
    ArrayHeadIs(|all|);
    OneMore(ShortString(name), args);
  }

  lemma OneMore(v: Value, vs: seq<Value>)
    requires Valid(v) && AllValid(vs)
    ensures AllValid([v] + vs)
    ensures WriteAll([v] + vs) == Write(v) + WriteAll(vs)
  {
    assert ([v] + vs)[1..] == vs;
  }

  lemma ListIs(args: seq<Value>)
    requires |args| < TWO32 && AllValid(args)
    ensures Valid(ShortArray(args)) && Header(ARRAYS, |args|) + Concat(Texts(args)) == Write(ShortArray(args))
  {
    TextsAreObjects(args);
    ArrayHeadIs(|args|);
  }

  /**
   * Events with arguments of any kind: what MarshalMsg writes is the map of the packet, Add reads the
   * packet back, an empty namespace as that of the root, and ParseData gives the name and the list of
   * the arguments.
   */
  lemma EventOfValues(typ: byte, nsp: Bytes, id: Option<nat>, name: Bytes, args: seq<Value>)
    requires IsEvent(typ) && |nsp| < TWO32 && (id.Some? ==> id.value < TWO64)
    requires |name| < TWO32 && |args| + 1 < TWO32 && AllValid(args)
    ensures Valid(EventValue(name, args)) && Valid(PacketValue(typ, nsp, EventValue(name, args), id))
    ensures Valid(ShortArray(args))
    ensures var list := Write(EventValue(name, args));
      var p := Packet(typ, if nsp == [] then [47] else nsp, Some(list), id);
      && Decode(Write(PacketValue(typ, nsp, EventValue(name, args), id))) == Some(p)
      && ParseData(p) == Ok((name, Write(ShortArray(args))))
  {
    EventListIs(name, args);
    MarshalIs(typ, nsp, EventValue(name, args), id);
    ListIs(args);
    TextsAreObjects(args);
    EventRoundTrip(typ, nsp, id, name, Texts(args), Write(EventValue(name, args)));
  }

  /** The same for acknowledgements, which keep their whole list. */
  lemma AckOfValues(typ: byte, nsp: Bytes, id: Option<nat>, args: seq<Value>)
    requires (typ == 3 || typ == 6) && |nsp| < TWO32 && (id.Some? ==> id.value < TWO64)
    requires |args| < TWO32 && AllValid(args)
    ensures Valid(ShortArray(args)) && Valid(PacketValue(typ, nsp, ShortArray(args), id))
    ensures var list := Write(ShortArray(args));
      var p := Packet(typ, if nsp == [] then [47] else nsp, Some(list), id);
      Decode(Write(PacketValue(typ, nsp, ShortArray(args), id))) == Some(p) && ParseData(p) == Ok(([], list))
  {
    ListIs(args);
    MarshalIs(typ, nsp, ShortArray(args), id);
    TextsAreObjects(args);
    AckRoundTrip(typ, nsp, id, Texts(args), Write(ShortArray(args)));
  }

  // ---- reading any value ----

  /** The number that bytes stand for, most significant first. */
  function BigEndian(p: Bytes): nat {
    if p == [] then 0 else BigEndian(p[..|p| - 1]) * 256 + p[|p| - 1]
  }

  /** The unsigned number of a value, if it is one. */
  function NumberOf(v: Value): Option<nat> {
    match v
    case Small(n) => Some(n)
    case Unsigned(p) => Some(BigEndian(p))
    case _ => None
  }

  lemma Num16OfBytes(p: Bytes, rest: Bytes)
    requires |p| == 2
    ensures Num16(p + rest) == BigEndian(p)
  {
    assert p[..1][..0] == [] && BigEndian(p[..1][..0]) == 0;
    assert BigEndian(p[..1]) == p[0];
  }

  lemma BigEndianJoin2(p: Bytes)
    requires |p| >= 2
    ensures BigEndian(p) == BigEndian(p[..|p| - 2]) * 65536 + BigEndian(p[|p| - 2..])
  {
    var q := p[..|p| - 1];
    var two := p[|p| - 2..];
    assert q[..|q| - 1] == p[..|p| - 2];
    Num16OfBytes(two, []);
    assert two + [] == two;
  }

  lemma Num32OfBytes(p: Bytes, rest: Bytes)
    requires |p| == 4
    ensures Num32(p + rest) == BigEndian(p)
  {
    BigEndianJoin2(p);
    Num16OfBytes(p[..2], p[2..] + rest);
    Num16OfBytes(p[2..], rest);
    assert p + rest == p[..2] + (p[2..] + rest);
    assert (p + rest)[2..] == p[2..] + rest;
  }

  lemma Num64OfBytes(p: Bytes, rest: Bytes)
    requires |p| == 8
    ensures Num64(p + rest) == BigEndian(p)
  {
    BigEndianJoin2(p);
    var q := p[..6];
    BigEndianJoin2(q);
    assert q[..4] == p[..4] && q[4..] == p[4..6];
    Num32OfBytes(p[..4], p[4..] + rest);
    BigEndianJoin2(p[4..]);
    assert p[4..][..2] == p[4..6] && p[4..][2..] == p[6..];
    Num32OfBytes(p[4..], rest);
    assert p + rest == p[..4] + (p[4..] + rest);
    assert (p + rest)[4..] == p[4..] + rest;
  }

  lemma UnsignedRead(p: Bytes, rest: Bytes)
    requires Valid(Unsigned(p))
    ensures ReadUint(Write(Unsigned(p)) + rest) == Some((BigEndian(p), rest))
  {
    var b := Write(Unsigned(p)) + rest;
    assert b[1..] == p + rest && b[1 + |p|..] == rest;
    if |p| == 1 {
      assert p[..0] == [] && BigEndian(p[..0]) == 0;
    } else if |p| == 2 {
      Num16OfBytes(p, rest);
    } else if |p| == 4 {
      Num32OfBytes(p, rest);
    } else {
      Num64OfBytes(p, rest);
    }
  }

  /** Only unsigned numbers are read as unsigned numbers. */
  lemma NumberRead(v: Value, rest: Bytes)
    requires Valid(v)
    ensures ReadUint(Write(v) + rest) == match NumberOf(v) case None => None case Some(n) => Some((n, rest))
  {
    match v
    case Unsigned(p) => UnsignedRead(p, rest);
    case Small(n) => assert (Write(v) + rest)[1..] == rest;
    case _ => LeadOf(v, rest);
  }

  /** The first byte tells the kind of value. */
  lemma LeadOf(v: Value, rest: Bytes)
    requires Valid(v)
    ensures LeadIs(v, (Write(v) + rest)[0])
  {
    assert (Write(v) + rest)[0] == Write(v)[0];
    match v
    case String(_, _) | Binary(_, _) | Ext(_, _, _) => BytesLead(v);
    case Array(_, _) | Map(_, _) => NestLead(v);
    case Nil | Bool(_) | Small(_) | SmallNegative(_) => SmallLead(v);
    case Unsigned(_) | Signed(_) | Float32(_) | Float64(_) | FixExt(_, _) => NumberLead(v);
  }

  predicate LeadIs(v: Value, c: byte) {
    && (c < 0x80 <==> v.Small?) && (0xe0 <= c <==> v.SmallNegative?)
    && (c == 0xc0 <==> v.Nil?) && (0xcc <= c <= 0xcf <==> v.Unsigned?)
    && (0xa0 <= c < 0xc0 || 0xd9 <= c <= 0xdb <==> v.String?)
    && (0xc4 <= c <= 0xc6 <==> v.Binary?)
    && (0x90 <= c < 0xa0 || 0xdc <= c <= 0xdd <==> v.Array?)
    && (0x80 <= c < 0x90 || 0xde <= c <= 0xdf <==> v.Map?)
  }

  lemma BytesLead(v: Value)
    requires Valid(v) && (v.String? || v.Binary? || v.Ext?)
    ensures LeadIs(v, Write(v)[0])
  {
    match v
    case String(s, w) => SizedLead(0xa0, 0xd9, 0xda, 0xdb, |s|, w, s);
    case Binary(s, w) => SizedLead(0, 0xc4, 0xc5, 0xc6, |s|, w, s);
    case Ext(kind, s, w) => SizedLead(0, 0xc7, 0xc8, 0xc9, |s|, w, [kind] + s);
  }

  lemma NestLead(v: Value)
    requires Valid(v) && (v.Array? || v.Map?)
    ensures LeadIs(v, Write(v)[0])
  {
    match v
    case Array(items, w) => SizedLead(0x90, 0, 0xdc, 0xdd, |items|, w, WriteAll(items));
    case Map(pairs, w) => SizedLead(0x80, 0, 0xde, 0xdf, |pairs| / 2, w, WriteAll(pairs));
  }

  lemma SmallLead(v: Value)
    requires Valid(v) && (v.Nil? || v.Bool? || v.Small? || v.SmallNegative?)
    ensures LeadIs(v, Write(v)[0])
  {
  }

  lemma NumberLead(v: Value)
    requires Valid(v) && (v.Unsigned? || v.Signed? || v.Float32? || v.Float64? || v.FixExt?)
    ensures LeadIs(v, Write(v)[0])
  {
  }

  lemma SizedLead(fix: byte, lead8: byte, lead16: byte, lead32: byte, n: nat, w: Width, body: Bytes)
    ensures (Sized(fix, lead8, lead16, lead32, n, w) + body)[0] ==
      match w case Fix => (fix + n) % 256 case W8 => lead8 case W16 => lead16 case W32 => lead32
  {
  }

  lemma AnyStringRead(s: Bytes, w: Width, rest: Bytes)
    requires Valid(String(s, w))
    ensures ReadStr(Write(String(s, w)) + rest) == Some((s, rest))
  {
    var head := Sized(0xa0, 0xd9, 0xda, 0xdb, |s|, w);
    CatAssoc(head, s, rest);
    SizedExtent(0xa0, 0xd9, 0xda, 0xdb, |s|, w, s + rest);
    assert (head + (s + rest))[|head|..] == s + rest;
    assert (s + rest)[..|s|] == s && (s + rest)[|s|..] == rest;
  }

  /** Only strings are read as strings. */
  lemma StringRead(v: Value, rest: Bytes)
    requires Valid(v)
    ensures ReadStr(Write(v) + rest) == if v.String? then Some((v.s, rest)) else None
  {
    if v.String? { AnyStringRead(v.s, v.w, rest); } else { LeadOf(v, rest); }
  }

  lemma BinaryKeyRead(s: Bytes, w: Width, rest: Bytes)
    requires Valid(Binary(s, w))
    ensures ReadKey(Write(Binary(s, w)) + rest) == Some((s, rest))
  {
    var head := Sized(0, 0xc4, 0xc5, 0xc6, |s|, w);
    var b := Write(Binary(s, w)) + rest;
    CatAssoc(head, s, rest);
    SizedExtent(0, 0xc4, 0xc5, 0xc6, |s|, w, s + rest);
    assert b == head + (s + rest);
    assert b[|head|..|head| + |s|] == s && b[|head| + |s|..] == rest;
  }

  /** A map key is a string or binary. */
  lemma KeyRead(v: Value, rest: Bytes)
    requires Valid(v)
    ensures ReadKey(Write(v) + rest) == if v.String? || v.Binary? then Some((v.s, rest)) else None
  {
    LeadOf(v, rest);
    if v.Binary? { BinaryKeyRead(v.s, v.w, rest); } else { StringRead(v, rest); }
  }

  // ---- any map as a packet ----

  /** The packet after one more field of it; None if its value is of the wrong kind. */
  function SetField(z: Packet, key: Bytes, v: Value): Option<Packet>
    requires Valid(v)
  {
    if key == TYPE then
      var n :- NumberOf(v);
      if n < 256 then Some(z.(typ := n)) else None
    else if key == NSP then
      if v.String? then Some(z.(nsp := v.s)) else None
    else if key == DATA then Some(z.(data := Some(Write(v))))
    else if key == ID then
      if v.Nil? then Some(z.(id := None)) else
        var n :- NumberOf(v);
        Some(z.(id := Some(n)))
    else Some(z)
  }

  /** A key must be a string or binary. */
  function AfterPair(z: Packet, key: Value, v: Value): Option<Packet>
    requires Valid(v)
  {
    if key.String? || key.Binary? then SetField(z, key.s, v) else None
  }

  function SetFields(z: Packet, pairs: seq<Value>): Option<Packet>
    requires |pairs| % 2 == 0 && AllValid(pairs)
    decreases |pairs|
  {
    if pairs == [] then Some(z)
    else
      var key, v, more := pairs[0], pairs[1], pairs[2..];
      SecondValid(pairs);
      var z :- AfterPair(z, key, v);
      SetFields(z, more)
  }

  lemma SecondValid(vs: seq<Value>)
    requires |vs| >= 2 && AllValid(vs)
    ensures Valid(vs[0]) && Valid(vs[1]) && AllValid(vs[2..])
    ensures WriteAll(vs) == (Write(vs[0]) + Write(vs[1])) + WriteAll(vs[2..])
  {
    assert vs[1..][0] == vs[1] && vs[1..][1..] == vs[2..];
    CatAssoc(Write(vs[0]), Write(vs[1]), WriteAll(vs[2..]));
  }

  lemma ValueFieldRead(z: Packet, key: Bytes, v: Value, rest: Bytes)
    requires Valid(v)
    ensures ReadField(z, key, Write(v) + rest)
         == match SetField(z, key, v) case None => None case Some(y) => Some((y, rest))
  {
    var b := Write(v) + rest;
    NumberRead(v, rest);
    StringRead(v, rest);
    SkipsValue(v, rest);
    LeadOf(v, rest);
    assert b[..|Write(v)|] == Write(v);
    if v.Nil? { assert b[1..] == rest; }
  }

  ghost predicate ReadsPairs(entry: (Packet, Bytes) -> Option<(Packet, Bytes)>) {
    forall z: Packet, k: Value, v: Value, more: Bytes | Valid(k) && Valid(v) ::
      entry(z, Write(k) + (Write(v) + more))
      == match AfterPair(z, k, v) case None => None case Some(y) => Some((y, more))
  }

  lemma {:induction false} PairsReadBy(
    entry: (Packet, Bytes) -> Option<(Packet, Bytes)>, z: Packet, pairs: seq<Value>, rest: Bytes)
    requires ReadsPairs(entry) && |pairs| % 2 == 0 && AllValid(pairs)
    ensures FieldsBy(entry, z, |pairs| / 2, WriteAll(pairs) + rest)
         == match SetFields(z, pairs) case None => None case Some(y) => Some((y, rest))
    decreases |pairs|
  {
    if pairs == [] {
      assert [] + rest == rest;
    } else {
      SecondValid(pairs);
      PairsText(pairs, rest);
      var s, more := AfterPair(z, pairs[0], pairs[1]), WriteAll(pairs[2..]) + rest;
      assert entry(z, Write(pairs[0]) + (Write(pairs[1]) + more))
          == match s case None => None case Some(y) => Some((y, more));
      if s.Some? { PairsReadBy(entry, s.value, pairs[2..], rest); }
    }
  }

  lemma PairsRead(z: Packet, pairs: seq<Value>, rest: Bytes)
    requires |pairs| % 2 == 0 && AllValid(pairs)
    ensures ReadFields(z, |pairs| / 2, WriteAll(pairs) + rest)
         == match SetFields(z, pairs) case None => None case Some(y) => Some((y, rest))
  {
    forall z: Packet, k: Value, v: Value, more: Bytes | Valid(k) && Valid(v)
      ensures ReadEntry(z, Write(k) + (Write(v) + more))
           == match AfterPair(z, k, v) case None => None case Some(y) => Some((y, more))
    {
      PairRead(z, k, v, more);
    }
    PairsReadBy(ReadEntry, z, pairs, rest);
  }

  lemma PairsText(pairs: seq<Value>, rest: Bytes)
    requires |pairs| >= 2 && AllValid(pairs) && Valid(pairs[0]) && Valid(pairs[1]) && AllValid(pairs[2..])
    ensures WriteAll(pairs) + rest == Write(pairs[0]) + (Write(pairs[1]) + (WriteAll(pairs[2..]) + rest))
  {
    SecondValid(pairs);
    var a, b, more := Write(pairs[0]), Write(pairs[1]), WriteAll(pairs[2..]);
    CatAssoc(a + b, more, rest);
    CatAssoc(a, b, more + rest);
  }

  lemma PairRead(z: Packet, k: Value, v: Value, more: Bytes)
    requires Valid(k) && Valid(v)
    ensures ReadEntry(z, Write(k) + (Write(v) + more))
         == match AfterPair(z, k, v) case None => None case Some(y) => Some((y, more))
  {
    KeyRead(k, Write(v) + more);
    if k.String? || k.Binary? { ValueFieldRead(z, k.s, v, more); }
  }

  lemma SizedHeadRead(f: Family, n: nat, w: Width, body: Bytes)
    requires f == ARRAYS || f == MAPS
    requires HoldsFix(n, 15, w)
    ensures ReadHeader(f, Sized(if f == ARRAYS then 0x90 else 0x80, 0, if f == ARRAYS then 0xdc else 0xde,
                                if f == ARRAYS then 0xdd else 0xdf, n, w) + body) == Some((n, body))
  {
    var fix: byte := if f == ARRAYS then 0x90 else 0x80;
    var lead16: byte := if f == ARRAYS then 0xdc else 0xde;
    var lead32: byte := if f == ARRAYS then 0xdd else 0xdf;
    var head := Sized(fix, 0, lead16, lead32, n, w);
    SizedExtent(fix, 0, lead16, lead32, n, w, body);
    assert (head + body)[|head|..] == body;
  }

  lemma NoHead(f: Family, v: Value, rest: Bytes)
    requires Valid(v) && ((f == ARRAYS && !v.Array?) || (f == MAPS && !v.Map?))
    ensures ReadHeader(f, Write(v) + rest) == None
  {
    LeadOf(v, rest);
  }

  /** What ReadMapHeaderBytes makes of any value. */
  lemma MapHeadRead(v: Value, rest: Bytes)
    requires Valid(v)
    ensures ReadHeader(MAPS, Write(v) + rest)
         == if v.Map? then Some((|v.pairs| / 2, WriteAll(v.pairs) + rest)) else None
  {
    if v.Map? {
      CatAssoc(Sized(0x80, 0, 0xde, 0xdf, |v.pairs| / 2, v.w), WriteAll(v.pairs), rest);
      SizedHeadRead(MAPS, |v.pairs| / 2, v.w, WriteAll(v.pairs) + rest);
    } else {
      NoHead(MAPS, v, rest);
    }
  }

  lemma ArrayHeadRead(v: Value)
    requires Valid(v)
    ensures ReadHeader(ARRAYS, Write(v)) == if v.Array? then Some((|v.items|, WriteAll(v.items))) else None
  {
    if v.Array? {
      SizedHeadRead(ARRAYS, |v.items|, v.w, WriteAll(v.items));
    } else {
      NoHead(ARRAYS, v, []);
      assert Write(v) + [] == Write(v);
    }
  }

  /**
   * UnmarshalMsg on any value at all: it must be a map, its keys strings or binary, and the values of
   * the known keys of their kinds; then each entry in turn sets its field.
   */
  lemma UnmarshalIs(z: Packet, v: Value, rest: Bytes)
    requires Valid(v)
    ensures Unmarshal(z, Write(v) + rest) ==
      if !v.Map? then None
      else match SetFields(z, v.pairs) case None => None case Some(y) => Some((y, rest))
  {
    MapHeadRead(v, rest);
    if v.Map? { PairsRead(z, v.pairs, rest); }
  }

  /** Add starts from a packet of type 0 without anything, and names an unnamed namespace "/". */
  lemma DecodeIs(v: Value, rest: Bytes)
    requires Valid(v)
    ensures Decode(Write(v) + rest) ==
      if !v.Map? then None
      else match SetFields(Packet(0, [], None, None), v.pairs)
           case None => None
           case Some(y) => Some(y.(nsp := if y.nsp == [] then [47] else y.nsp))
  {
    UnmarshalIs(Packet(0, [], None, None), v, rest);
  }

  /** The elements of a list after its first; of any other value none. */
  function Rest(v: Value): seq<Value> {
    if v.Array? && v.items != [] then v.items[1..] else []
  }

  lemma RestValid(v: Value)
    requires Valid(v)
    ensures AllValid(Rest(v)) && Valid(ShortArray(Rest(v)))
  {
    if v.Array? && v.items != [] { assert AllValid(v.items); }
  }

  /** ParseData on any packet whose data is the bytes of a value, or missing. */
  lemma ParseDataIs(typ: byte, nsp: Bytes, id: Option<nat>, v: Value)
    requires Valid(v) && Valid(ShortArray(Rest(v)))
    ensures ParseData(Packet(typ, nsp, None, id)) == if typ in {0, 1, 4} then Ok(([], [])) else Err(NotBytes)
    ensures ParseData(Packet(typ, nsp, Some(Write(v)), id)) ==
      if typ in {0, 1, 4} then Ok(([], []))
      else if !v.Array? then Err(NotAList)
      else if typ !in {2, 5} then Ok(([], Write(v)))
      else if v.items == [] || !v.items[0].String? then Err(NotAString)
      else Ok((v.items[0].s, Write(ShortArray(Rest(v)))))
  {
    ArrayHeadRead(v);
    if IsEvent(typ) { ParseEventIs(v); }
  }

  lemma ParseEventIs(v: Value)
    requires Valid(v) && Valid(ShortArray(Rest(v)))
    ensures ParseEvent(Write(v)) ==
      if !v.Array? then Err(NotAList)
      else if v.items == [] || !v.items[0].String? then Err(NotAString)
      else Ok((v.items[0].s, Write(ShortArray(Rest(v)))))
  {
    ArrayHeadRead(v);
    if v.Array? {
      var items := v.items;
      if items == [] {
        assert ReadStr([]) == None;
      } else {
        assert WriteAll(items) == Write(items[0]) + WriteAll(items[1..]);
        FirstItem(items[0], items[1..]);
        ParseEventFrom(Write(v), |items|, WriteAll(items), items[0], WriteAll(items[1..]));
      }
    }
  }

  lemma ParseEventFrom(b: Bytes, n: nat, body: Bytes, first: Value, more: Bytes)
    requires 0 < n < TWO32 && ReadHeader(ARRAYS, b) == Some((n, body))
    requires ReadStr(body) == if first.String? then Some((first.s, more)) else None
    ensures ParseEvent(b) == if first.String? then Ok((first.s, Header(ARRAYS, n - 1) + more)) else Err(NotAString)
  {
    assert (n - 1) % TWO32 == n - 1;
  }

  lemma FirstItem(first: Value, more: seq<Value>)
    requires Valid(first) && AllValid(more) && |more| < TWO32 && Valid(ShortArray(more))
    ensures ReadStr(Write(first) + WriteAll(more)) == if first.String? then Some((first.s, WriteAll(more))) else None
    ensures Header(ARRAYS, |more|) + WriteAll(more) == Write(ShortArray(more))
  {
    StringRead(first, WriteAll(more));
    ShortHead(more);
  }

  lemma ShortHead(items: seq<Value>)
    requires |items| < TWO32 && AllValid(items)
    ensures Valid(ShortArray(items)) && Header(ARRAYS, |items|) + WriteAll(items) == Write(ShortArray(items))
  {
    ArrayHeadIs(|items|);
  }

  /** No value that is cut short is taken for an object. */
  lemma CutShort(v: Value, k: nat)
    requires Valid(v) && k < |Write(v)|
    ensures Skip(Write(v)[..k], 1) == None
  {
    var b := Write(v);
    var cut, rest := b[..k], b[k..];
    assert cut + rest == b;
    ValueIsObject(v);
    if Skip(cut, 1).Some? { SkipFrame(cut, 1, rest); }
  }

  /** Nor for a number, if it is one. */
  lemma NumberCutShort(v: Value, k: nat)
    requires Valid(v) && k < |Write(v)| && NumberOf(v).Some?
    ensures ReadUint(Write(v)[..k]) == None
  {
  }
}
