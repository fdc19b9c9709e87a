/** Standard base64 with padding (section 4 of RFC 4648), block by block. */
module Base64 {
  import opened Common

  type Bytes = seq<byte>

  const PAD: byte := 61

  /** The character of a 6-bit index. */
  function Symbol(i: nat): byte
    requires i < 64
  {
    if i < 26 then 65 + i
    else if i < 52 then 97 + (i - 26)
    else if i < 62 then 48 + (i - 52)
    else if i == 62 then 43
    else 47
  }

  function Index(b: byte): (r: Option<nat>)
    ensures r.Some? ==> r.value < 64
  {
    if 65 <= b <= 90 then Some(b - 65)
    else if 97 <= b <= 122 then Some(b - 97 + 26)
    else if 48 <= b <= 57 then Some(b - 48 + 52)
    else if b == 43 then Some(62)
    else if b == 47 then Some(63)
    else None
  }

  lemma IndexOfSymbol(i: nat)
    requires i < 64
    ensures Index(Symbol(i)) == Some(i) && Symbol(i) != PAD
  {
  }

  /** The four indices of three bytes. */
  function Split(a: byte, b: byte, c: byte): (nat, nat, nat, nat) {
    (a / 4, a % 4 * 16 + b / 16, b % 16 * 4 + c / 64, c % 64)
  }

  function Join(i: nat, j: nat, k: nat, l: nat): (byte, byte, byte)
    requires i < 64 && j < 64 && k < 64 && l < 64
  {
    (i * 4 + j / 16, j % 16 * 16 + k / 4, k % 4 * 64 + l)
  }

  lemma Parts4(x: nat, y: nat)
    requires y < 4
    ensures (x * 4 + y) / 4 == x && (x * 4 + y) % 4 == y
  {
  }

  lemma Parts16(x: nat, y: nat)
    requires y < 16
    ensures (x * 16 + y) / 16 == x && (x * 16 + y) % 16 == y
  {
  }

  lemma JoinSplit(a: byte, b: byte, c: byte)
    ensures var (i, j, k, l) := Split(a, b, c);
      i < 64 && j < 64 && k < 64 && l < 64 && Join(i, j, k, l) == (a, b, c)
  {
    var j, k := a % 4 * 16 + b / 16, b % 16 * 4 + c / 64;
    Parts16(a % 4, b / 16);
    Parts4(b % 16, c / 64);
    assert a / 4 * 4 + j / 16 == a;
    assert j % 16 * 16 + k / 4 == b;
    assert k % 4 * 64 + c % 64 == c;
  }

  /** The length EncodedLen computes. */
  function EncodedLen(n: nat): (r: nat)
    ensures r % 4 == 0
  {
    (n + 2) / 3 * 4
  }

  function EncodeBlock(a: byte, b: byte, c: byte): Bytes {
    JoinSplit(a, b, c);
    var (i, j, k, l) := Split(a, b, c);
    [Symbol(i), Symbol(j), Symbol(k), Symbol(l)]
  }

  function Encode(d: Bytes): (r: Bytes)
    ensures |r| == EncodedLen(|d|)
  {
    if d == [] then []
    else if |d| == 1 then EncodeBlock(d[0], 0, 0)[..2] + [PAD, PAD]
    else if |d| == 2 then EncodeBlock(d[0], d[1], 0)[..3] + [PAD]
    else EncodeBlock(d[0], d[1], d[2]) + Encode(d[3..])
  }

  /** Four characters: three bytes, or fewer when the block ends in padding. */
  function DecodeBlock(s: Bytes): Option<Bytes>
    requires |s| == 4
  {
    var i :- Index(s[0]);
    var j :- Index(s[1]);
    if s[2] == PAD then
      if s[3] == PAD then Some([Join(i, j, 0, 0).0]) else None
    else
      var k :- Index(s[2]);
      if s[3] == PAD then Some([Join(i, j, k, 0).0, Join(i, j, k, 0).1]) else
        var l :- Index(s[3]);
        Some([Join(i, j, k, l).0, Join(i, j, k, l).1, Join(i, j, k, l).2])
  }

  /** Whole blocks; only the last may be padded. */
  function Decode(s: Bytes): (r: Option<Bytes>)
    requires |s| % 4 == 0
    ensures r.Some? ==> |r.value| <= |s| / 4 * 3
  {
    if s == [] then Some([])
    else
      var first :- DecodeBlock(s[..4]);
      if |s| == 4 then Some(first)
      else if |first| < 3 then None
      else
        var more :- Decode(s[4..]);
        Some(first + more)
  }

  lemma DecodeFullBlock(a: byte, b: byte, c: byte)
    ensures DecodeBlock(EncodeBlock(a, b, c)) == Some([a, b, c])
  {
    JoinSplit(a, b, c);
    var (i, j, k, l) := Split(a, b, c);
    IndexOfSymbol(i);
    IndexOfSymbol(j);
    IndexOfSymbol(k);
    IndexOfSymbol(l);
  }

  lemma DecodeOneByte(a: byte)
    ensures DecodeBlock(EncodeBlock(a, 0, 0)[..2] + [PAD, PAD]) == Some([a])
  {
    JoinSplit(a, 0, 0);
    var (i, j, k, l) := Split(a, 0, 0);
    IndexOfSymbol(i);
    IndexOfSymbol(j);
  }

  lemma DecodeTwoBytes(a: byte, b: byte)
    ensures DecodeBlock(EncodeBlock(a, b, 0)[..3] + [PAD]) == Some([a, b])
  {
    JoinSplit(a, b, 0);
    var (i, j, k, l) := Split(a, b, 0);
    IndexOfSymbol(i);
    IndexOfSymbol(j);
    IndexOfSymbol(k);
  }

  lemma DecodeLast(s: Bytes)
    requires |s| == 4
    ensures Decode(s) == DecodeBlock(s)
  {
    assert s[..4] == s;
  }

  lemma DecodeCons(block: Bytes, first: Bytes, s: Bytes, more: Bytes)
    requires |block| == 4 && DecodeBlock(block) == Some(first) && |first| == 3
    requires |s| % 4 == 0 && Decode(s) == Some(more)
    ensures Decode(block + s) == Some(first + more)
  {
    assert (block + s)[..4] == block && (block + s)[4..] == s;
    if s == [] {
      assert first + more == first;
    }
  }

  lemma EncodeCases(d: Bytes)
    ensures |d| == 0 ==> Encode(d) == []
    ensures |d| == 1 ==> Encode(d) == EncodeBlock(d[0], 0, 0)[..2] + [PAD, PAD]
    ensures |d| == 2 ==> Encode(d) == EncodeBlock(d[0], d[1], 0)[..3] + [PAD]
    ensures |d| >= 3 ==> Encode(d) == EncodeBlock(d[0], d[1], d[2]) + Encode(d[3..])
  {
  }

  /** Decoding undoes encoding, for data of any length. */
  lemma {:induction false} DecodeEncode(d: Bytes)
    ensures Decode(Encode(d)) == Some(d)
  {
    EncodeCases(d);
    if |d| == 1 {
      DecodeOneByte(d[0]);
      DecodeLast(EncodeBlock(d[0], 0, 0)[..2] + [PAD, PAD]);
      assert d == [d[0]];
    } else if |d| == 2 {
      DecodeTwoBytes(d[0], d[1]);
      DecodeLast(EncodeBlock(d[0], d[1], 0)[..3] + [PAD]);
      assert d == [d[0], d[1]];
    } else if |d| >= 3 {
      DecodeEncode(d[3..]);
      DecodeFullBlock(d[0], d[1], d[2]);
      DecodeCons(EncodeBlock(d[0], d[1], d[2]), [d[0], d[1], d[2]], Encode(d[3..]), d[3..]);
      assert d == [d[0], d[1], d[2]] + d[3..];
    }
  }

  /** Cutting the encoded text after whole blocks cuts the data after whole triples. */
  lemma {:induction false} EncodePrefix(d: Bytes, n: nat)
    requires 3 * n <= |d|
    ensures 4 * n <= |Encode(d)| && Encode(d)[..4 * n] == Encode(d[..3 * n])
    decreases n
  {
    if n > 0 {
      EncodePrefix(d[3..], n - 1);
      var e := Encode(d);
      assert e[4..] == Encode(d[3..]);
      assert e[..4 * n] == e[..4] + e[4..][..4 * n - 4];
      assert d[..3 * n][3..] == d[3..][..3 * n - 3];
    } else {
      assert Encode(d)[..0] == [] && d[..0] == [];
    }
  }

  /** The character after whole blocks encodes the byte after whole triples. */
  lemma {:induction false} SymbolAt(d: Bytes, n: nat)
    requires 3 * n < |d|
    ensures 4 * n < |Encode(d)| && Encode(d)[4 * n] == Symbol(d[3 * n] / 4)
    decreases n
  {
    if n > 0 {
      SymbolAt(d[3..], n - 1);
      assert Encode(d)[4 * n] == Encode(d[3..])[4 * n - 4];
    }
  }

  // ---- the alphabet, and what is no base64 ----

  /** Table 1 of RFC 4648. */
  lemma SymbolIs(i: nat)
    requires i < 64
    ensures PAD == '=' as int
    ensures i < 26 ==> Symbol(i) == 'A' as int + i
    ensures 26 <= i < 52 ==> Symbol(i) == 'a' as int + i - 26
    ensures 52 <= i < 62 ==> Symbol(i) == '0' as int + i - 52
    ensures i == 62 ==> Symbol(i) == '+' as int
    ensures i == 63 ==> Symbol(i) == '/' as int
  {
  }

  predicate InAlphabet(b: byte) {
    Index(b).Some?
  }

  /** Only the characters of the alphabet have an index. */
  lemma IndexIs(b: byte)
    ensures InAlphabet(b) <==> exists i: nat :: i < 64 && Symbol(i) == b
  {
    if InAlphabet(b) { assert Symbol(Index(b).value) == b; }
  }

  /** The text is in fours, and only the last two characters may be padding, the last one first. */
  predicate IsBase64(s: Bytes) {
    |s| % 4 == 0 &&
    (s == [] ||
      var n := |s|;
      && (forall i | 0 <= i < n - 2 :: InAlphabet(s[i]))
      && (s[n - 1] == PAD || InAlphabet(s[n - 1]))
      && (InAlphabet(s[n - 2]) || (s[n - 2] == PAD && s[n - 1] == PAD)))
  }

  lemma PadIsNoSymbol()
    ensures !InAlphabet(PAD)
  {
  }

  lemma BlockDecodes(s: Bytes)
    requires |s| == 4
    ensures DecodeBlock(s).Some? <==> IsBase64(s)
    ensures DecodeBlock(s).Some? && InAlphabet(s[3]) ==> |DecodeBlock(s).value| == 3
    ensures DecodeBlock(s).Some? && !InAlphabet(s[3]) ==> |DecodeBlock(s).value| < 3
  {
    PadIsNoSymbol();
  }

  /** Decoding succeeds on exactly such text. */
  lemma {:induction false} DecodesExactly(s: Bytes)
    requires |s| % 4 == 0
    ensures Decode(s).Some? <==> IsBase64(s)
    decreases |s|
  {
    if s != [] {
      BlockDecodes(s[..4]);
      if |s| == 4 {
        assert s[..4] == s;
      } else {
        DecodesExactly(s[4..]);
        FirstBlock(s);
      }
    }
  }

  lemma FirstBlock(s: Bytes)
    requires |s| % 4 == 0 && |s| > 4
    ensures IsBase64(s) <==> (forall i | 0 <= i < 4 :: InAlphabet(s[i])) && IsBase64(s[4..])
  {
    var t := s[4..];
    if (forall i | 0 <= i < 4 :: InAlphabet(s[i])) && IsBase64(t) {
      forall i | 0 <= i < |s| - 2 ensures InAlphabet(s[i]) {
        if i >= 4 { assert s[i] == t[i - 4]; }
      }
    }
    if IsBase64(s) {
      forall i | 0 <= i < |t| - 2 ensures InAlphabet(t[i]) {
        assert t[i] == s[i + 4];
      }
    }
  }
}
