/** The MessagePack subset of packet.go and parser_msgp.go: numbers, strings, arrays, maps and Skip. */
module Msgpack {
  import opened Common

  type Bytes = seq<byte>

  const TWO16: int := 0x1_0000
  const TWO32: int := 0x1_0000_0000

  // ---- big-endian numbers ----

  function Be16(n: nat): (r: Bytes)
    requires n < TWO16
    ensures |r| == 2
  {
    [n / 256, n % 256]
  }

  function Be32(n: nat): (r: Bytes)
    requires n < TWO32
    ensures |r| == 4
  {
    Be16(n / TWO16) + Be16(n % TWO16)
  }

  function Be64(n: nat): (r: Bytes)
    requires n < TWO64
    ensures |r| == 8
  {
    Be32(n / TWO32) + Be32(n % TWO32)
  }

  function Num16(b: Bytes): (n: nat)
    requires |b| >= 2
    ensures n < TWO16
  {
    var hi: int := b[0];
    hi * 256 + b[1]
  }

  function Num32(b: Bytes): (n: nat)
    requires |b| >= 4
    ensures n < TWO32
  {
    Num16(b) * TWO16 + Num16(b[2..])
  }

  function Num64(b: Bytes): (n: nat)
    requires |b| >= 8
    ensures n < TWO64
  {
    Num32(b) * TWO32 + Num32(b[4..])
  }

  lemma Num16Be(n: nat, rest: Bytes)
    requires n < TWO16
    ensures Num16(Be16(n) + rest) == n
  {
  }

  lemma Num32Be(n: nat, rest: Bytes)
    requires n < TWO32
    ensures Num32(Be32(n) + rest) == n
  {
    var hi, lo := n / TWO16, n % TWO16;
    CatAssoc(Be16(hi), Be16(lo), rest);
    Num16Be(hi, Be16(lo) + rest);
    Num16Be(lo, rest);
    assert (Be16(hi) + (Be16(lo) + rest))[2..] == Be16(lo) + rest;
  }

  lemma Num64Be(n: nat, rest: Bytes)
    requires n < TWO64
    ensures Num64(Be64(n) + rest) == n
  {
    var hi, lo := n / TWO32, n % TWO32;
    CatAssoc(Be32(hi), Be32(lo), rest);
    Num32Be(hi, Be32(lo) + rest);
    Num32Be(lo, rest);
    assert (Be32(hi) + (Be32(lo) + rest))[4..] == Be32(lo) + rest;
  }

  // ---- a sized header: a fix form and 8-, 16- and 32-bit forms ----

  /** A format family whose header carries a count: lead bytes of its forms (0 for a form it lacks). */
  datatype Family = Family(fix: byte, fixMax: byte, lead8: byte, lead16: byte, lead32: byte)

  const ARRAYS := Family(0x90, 15, 0, 0xdc, 0xdd)
  const MAPS := Family(0x80, 15, 0, 0xde, 0xdf)
  const STRINGS := Family(0xa0, 31, 0xd9, 0xda, 0xdb)

  predicate IsFamily(f: Family) {
    f == ARRAYS || f == MAPS || f == STRINGS
  }

  /** AppendArrayHeader, AppendMapHeader and the head of AppendString: the shortest form. */
  function Header(f: Family, n: nat): (r: Bytes)
    requires IsFamily(f) && n < TWO32
    ensures r != []
  {
    if n <= f.fixMax then [f.fix + n]
    else if f.lead8 != 0 && n < 256 then [f.lead8, n]
    else if n < TWO16 then [f.lead16] + Be16(n)
    else [f.lead32] + Be32(n)
  }

  /** The count a header announces and what follows it. */
  function ReadHeader(f: Family, b: Bytes): Option<(nat, Bytes)>
    requires IsFamily(f)
  {
    if b == [] then None
    else if f.fix <= b[0] <= f.fix + f.fixMax then Some((b[0] - f.fix, b[1..]))
    else if f.lead8 != 0 && b[0] == f.lead8 then
      if |b| < 2 then None else Some((b[1], b[2..]))
    else if b[0] == f.lead16 then
      if |b| < 3 then None else Some((Num16(b[1..]), b[3..]))
    else if b[0] == f.lead32 then
      if |b| < 5 then None else Some((Num32(b[1..]), b[5..]))
    else None
  }

  lemma HeaderRead(f: Family, n: nat, rest: Bytes)
    requires IsFamily(f) && n < TWO32
    ensures ReadHeader(f, Header(f, n) + rest) == Some((n, rest))
  {
    var b := Header(f, n) + rest;
    if n <= f.fixMax {
      assert b[1..] == rest;
    } else if f.lead8 != 0 && n < 256 {
      assert b[2..] == rest;
    } else if n < TWO16 {
      assert b[1..] == Be16(n) + rest && b[3..] == rest;
      Num16Be(n, rest);
    } else {
      assert b[1..] == Be32(n) + rest && b[5..] == rest;
      Num32Be(n, rest);
    }
  }

  // ---- strings and unsigned numbers ----

  function Str(s: Bytes): Bytes
    requires |s| < TWO32
  {
    Header(STRINGS, |s|) + s
  }

  function ReadStr(b: Bytes): Option<(Bytes, Bytes)> {
    var (n, rest) :- ReadHeader(STRINGS, b);
    if |rest| < n then None else Some((rest[..n], rest[n..]))
  }

  lemma StrRead(s: Bytes, rest: Bytes)
    requires |s| < TWO32
    ensures ReadStr(Str(s) + rest) == Some((s, rest))
  {
    CatAssoc(Header(STRINGS, |s|), s, rest);
    HeaderRead(STRINGS, |s|, s + rest);
    assert (s + rest)[..|s|] == s && (s + rest)[|s|..] == rest;
  }

  /** AppendUint64: the shortest unsigned form. */
  function Uint(n: nat): (r: Bytes)
    requires n < TWO64
    ensures r != [] && r[0] != 0xc0
  {
    if n < 128 then [n]
    else if n < 256 then [0xcc, n]
    else if n < TWO16 then [0xcd] + Be16(n)
    else if n < TWO32 then [0xce] + Be32(n)
    else [0xcf] + Be64(n)
  }

  function ReadUint(b: Bytes): Option<(nat, Bytes)> {
    if b == [] then None
    else if b[0] < 128 then Some((b[0], b[1..]))
    else if b[0] == 0xcc then if |b| < 2 then None else Some((b[1], b[2..]))
    else if b[0] == 0xcd then if |b| < 3 then None else Some((Num16(b[1..]), b[3..]))
    else if b[0] == 0xce then if |b| < 5 then None else Some((Num32(b[1..]), b[5..]))
    else if b[0] == 0xcf then if |b| < 9 then None else Some((Num64(b[1..]), b[9..]))
    else None
  }

  lemma UintRead(n: nat, rest: Bytes)
    requires n < TWO64
    ensures ReadUint(Uint(n) + rest) == Some((n, rest))
  {
    var b := Uint(n) + rest;
    if n < 128 {
      assert b[1..] == rest;
    } else if n < 256 {
      assert b[2..] == rest;
    } else if n < TWO16 {
      assert b[1..] == Be16(n) + rest && b[3..] == rest;
      Num16Be(n, rest);
    } else if n < TWO32 {
      assert b[1..] == Be32(n) + rest && b[5..] == rest;
      Num32Be(n, rest);
    } else {
      assert b[1..] == Be64(n) + rest && b[9..] == rest;
      Num64Be(n, rest);
    }
  }

  // ---- skipping one object of any format ----

  /** The bytes an object takes up front, and how many objects follow inside it. */
  datatype Extent = Extent(size: nat, objects: nat)

  function Payload8(b: Bytes, head: nat): Option<Extent> {
    if |b| < 2 then None else Some(Extent(head + b[1], 0))
  }

  function Payload16(b: Bytes, head: nat): Option<Extent> {
    if |b| < 3 then None else Some(Extent(head + Num16(b[1..]), 0))
  }

  function Payload32(b: Bytes, head: nat): Option<Extent> {
    if |b| < 5 then None else Some(Extent(head + Num32(b[1..]), 0))
  }

  /** The extent of the object at the head of `b`, by its lead byte (the MessagePack format table). */
  function ExtentOf(b: Bytes): (r: Option<Extent>)
    ensures r.Some? ==> b != [] && r.value.size > 0
  {
    if b == [] then None else
      var c := b[0];
      if c < 0x80 || c >= 0xe0 then Some(Extent(1, 0))
      else if c < 0x90 then Some(Extent(1, 2 * (c - 0x80)))
      else if c < 0xa0 then Some(Extent(1, c - 0x90))
      else if c < 0xc0 then Some(Extent(1 + (c - 0xa0), 0))
      else if c == 0xc0 || c == 0xc2 || c == 0xc3 then Some(Extent(1, 0))
      else if c == 0xc4 then Payload8(b, 2)
      else if c == 0xc5 then Payload16(b, 3)
      else if c == 0xc6 then Payload32(b, 5)
      else if c == 0xc7 then Payload8(b, 3)
      else if c == 0xc8 then Payload16(b, 4)
      else if c == 0xc9 then Payload32(b, 6)
      else if c == 0xcc || c == 0xd0 then Some(Extent(2, 0))
      else if c == 0xcd || c == 0xd1 || c == 0xd4 then Some(Extent(3, 0))
      else if c == 0xd5 then Some(Extent(4, 0))
      else if c == 0xca || c == 0xce || c == 0xd2 then Some(Extent(5, 0))
      else if c == 0xd6 then Some(Extent(6, 0))
      else if c == 0xcb || c == 0xcf || c == 0xd3 then Some(Extent(9, 0))
      else if c == 0xd7 then Some(Extent(10, 0))
      else if c == 0xd8 then Some(Extent(18, 0))
      else if c == 0xd9 then Payload8(b, 2)
      else if c == 0xda then Payload16(b, 3)
      else if c == 0xdb then Payload32(b, 5)
      else if c == 0xdc then if |b| < 3 then None else Some(Extent(3, Num16(b[1..])))
      else if c == 0xdd then if |b| < 5 then None else Some(Extent(5, Num32(b[1..])))
      else if c == 0xde then if |b| < 3 then None else Some(Extent(3, 2 * Num16(b[1..])))
      else if c == 0xdf then if |b| < 5 then None else Some(Extent(5, 2 * Num32(b[1..])))
      else None
  }

  /** How the extent of an object is found. */
  type Measure = Bytes -> Option<Extent>

  ghost predicate Measures(ext: Measure) {
    forall b :: ext(b).Some? ==> b != [] && ext(b).value.size > 0
  }

  /** Bytes after an object do not change its extent. */
  ghost predicate Local(ext: Measure) {
    forall b, rest :: ext(b).Some? ==> ext(b + rest) == ext(b)
  }

  /** What is left after `n` objects. */
  function SkipBy(ext: Measure, b: Bytes, n: nat): (r: Option<Bytes>)
    requires Measures(ext)
    ensures r.Some? ==> |r.value| <= |b| && (n > 0 ==> |r.value| < |b|)
    decreases |b|, n
  {
    if n == 0 then Some(b)
    else
      var e :- ext(b);
      if |b| < e.size then None else SkipBy(ext, b[e.size..], n - 1 + e.objects)
  }

  function Skip(b: Bytes, n: nat): (r: Option<Bytes>)
    ensures r.Some? ==> |r.value| <= |b| && (n > 0 ==> |r.value| < |b|)
  {
    SkipBy(ExtentOf, b, n)
  }

  /** `x` is exactly `n` objects. */
  predicate Objects(x: Bytes, n: nat) {
    Skip(x, n) == Some([])
  }

  lemma ExtentFrame(b: Bytes, rest: Bytes)
    requires ExtentOf(b).Some?
    ensures ExtentOf(b + rest) == ExtentOf(b)
  {
    if |b| >= 3 { assert (b + rest)[1..] == b[1..] + rest; }
    if |b| >= 5 { assert b[1..][2..] == b[3..] && (b + rest)[1..][2..] == b[3..] + rest; }
  }

  lemma {:induction false} SkipByFrame(ext: Measure, b: Bytes, n: nat, rest: Bytes)
    requires Measures(ext) && Local(ext) && SkipBy(ext, b, n).Some?
    ensures SkipBy(ext, b + rest, n) == Some(SkipBy(ext, b, n).value + rest)
    decreases |b|, n
  {
    if n > 0 {
      var e := ext(b).value;
      var more := b[e.size..];
      SkipByFrame(ext, more, n - 1 + e.objects, rest);
      assert (b + rest)[e.size..] == more + rest;
      SkipByOne(ext, b + rest, n, e, more + rest);
    }
  }

  lemma SkipByOne(ext: Measure, b: Bytes, n: nat, e: Extent, more: Bytes)
    requires Measures(ext) && n > 0 && ext(b) == Some(e) && e.size <= |b| && more == b[e.size..]
    ensures SkipBy(ext, b, n) == SkipBy(ext, more, n - 1 + e.objects)
  {
  }

  /** Bytes after the objects do not matter. */
  lemma SkipFrame(b: Bytes, n: nat, rest: Bytes)
    requires Skip(b, n).Some?
    ensures Skip(b + rest, n) == Some(Skip(b, n).value + rest)
  {
    forall b, rest | ExtentOf(b).Some? ensures ExtentOf(b + rest) == ExtentOf(b) {
      ExtentFrame(b, rest);
    }
    SkipByFrame(ExtentOf, b, n, rest);
  }

  /** An object without inner objects. */
  lemma LeafIsObject(b: Bytes)
    requires ExtentOf(b) == Some(Extent(|b|, 0))
    ensures Objects(b, 1)
  {
    assert b[|b|..] == [];
    assert SkipBy(ExtentOf, b[|b|..], 0) == Some([]);
  }

  lemma SkipObjects(x: Bytes, n: nat, rest: Bytes)
    requires Objects(x, n)
    ensures Skip(x + rest, n) == Some(rest)
  {
    SkipFrame(x, n, rest);
    assert [] + rest == rest;
  }

  lemma {:induction false} SkipMore(ext: Measure, b: Bytes, m: nat, n: nat)
    requires Measures(ext) && SkipBy(ext, b, m).Some?
    ensures SkipBy(ext, b, m + n) == SkipBy(ext, SkipBy(ext, b, m).value, n)
    decreases |b|, m
  {
    if m > 0 {
      var e := ext(b).value;
      SkipMore(ext, b[e.size..], m - 1 + e.objects, n);
    }
  }

  /** Objects one after another. */
  function Concat(xs: seq<Bytes>): Bytes {
    if xs == [] then [] else xs[0] + Concat(xs[1..])
  }

  lemma {:induction false} SkipConcat(xs: seq<Bytes>)
    requires forall i | 0 <= i < |xs| :: Objects(xs[i], 1)
    ensures Objects(Concat(xs), |xs|)
    decreases |xs|
  {
    if xs != [] {
      SkipObjects(xs[0], 1, Concat(xs[1..]));
      SkipConcat(xs[1..]);
      SkipMore(ExtentOf, Concat(xs), 1, |xs| - 1);
    }
  }

  /** An array header makes one object of the objects after it. */
  lemma SkipArray(n: nat, body: Bytes)
    requires n < TWO32 && Objects(body, n)
    ensures Objects(Header(ARRAYS, n) + body, 1)
  {
    var b := Header(ARRAYS, n) + body;
    if n <= 15 {
      assert b[1..] == body;
    } else if n < TWO16 {
      assert b[1..] == Be16(n) + body && b[3..] == body;
      Num16Be(n, body);
    } else {
      assert b[1..] == Be32(n) + body && b[5..] == body;
      Num32Be(n, body);
    }
  }
}
