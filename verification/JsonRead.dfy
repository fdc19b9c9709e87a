/** Reading JSON text back: what encoding/json writes says what the value is. */
module JsonRead {
  import opened Common
  import opened Json

  // ---- UTF-8 ----

  /** The bytes of a character, one char per byte (RFC 3629, section 3). */
  function Utf8(n: nat): (u: string)
    requires n < 0x11_0000
    ensures u != ""
  {
    if n < 0x80 then [n as char]
    else if n < 0x800 then [(0xC0 + n / 64) as char, (0x80 + n % 64) as char]
    else if n < 0x1_0000 then [(0xE0 + n / 4096) as char, (0x80 + n / 64 % 64) as char, (0x80 + n % 64) as char]
    else [(0xF0 + n / 262144) as char, (0x80 + n / 4096 % 64) as char,
          (0x80 + n / 64 % 64) as char, (0x80 + n % 64) as char]
  }

  /** Surrogates are no characters. */
  predicate IsScalar(n: nat) {
    n < 0xD800 || 0xE000 <= n < 0x11_0000
  }

  /** A character beyond ASCII is read as one, whatever follows. */
  lemma Utf8IsRune(n: nat, rest: string)
    requires IsScalar(n) && n >= 0x80
    ensures |Utf8(n)| > 1 && RuneSize(Utf8(n) + rest) == |Utf8(n)| && (Utf8(n) + rest)[..|Utf8(n)|] == Utf8(n)
  {
    var u := Utf8(n);
    assert (u + rest)[..|u|] == u;
  }

  /** The number of the character that these bytes stand for. */
  function RuneValue(u: string): int
    requires 2 <= |u| <= 4
  {
    if |u| == 2 then (u[0] as int - 0xC0) * 64 + (u[1] as int - 0x80)
    else if |u| == 3 then (u[0] as int - 0xE0) * 4096 + (u[1] as int - 0x80) * 64 + (u[2] as int - 0x80)
    else (u[0] as int - 0xF0) * 262144 + (u[1] as int - 0x80) * 4096
         + (u[2] as int - 0x80) * 64 + (u[3] as int - 0x80)
  }

  lemma Rune2(s: string)
    requires s != "" && RuneSize(s) == 2
    ensures var n := RuneValue(s[..2]); 0x80 <= n < 0x800 && Utf8(n) == s[..2]
  {
  }

  lemma Rune3(s: string)
    requires s != "" && RuneSize(s) == 3
    ensures var n := RuneValue(s[..3]); 0x800 <= n < 0x1_0000 && IsScalar(n) && Utf8(n) == s[..3]
  {
    var a, b, c := s[0] as int - 0xE0, s[1] as int - 0x80, s[2] as int - 0x80;
    var n := a * 4096 + b * 64 + c;
    assert n / 4096 == a && n / 64 % 64 == b && n % 64 == c;
  }

  lemma Digits64(x: nat, y: nat)
    requires y < 64
    ensures (x * 64 + y) / 64 == x && (x * 64 + y) % 64 == y
  {
  }

  lemma Rune4(s: string)
    requires s != "" && RuneSize(s) == 4
    ensures var n := RuneValue(s[..4]); 0x1_0000 <= n < 0x11_0000 && Utf8(n) == s[..4]
  {
    var a, b, c, d := s[0] as int - 0xF0, s[1] as int - 0x80, s[2] as int - 0x80, s[3] as int - 0x80;
    var n := a * 262144 + b * 4096 + c * 64 + d;
    FourDigits(a, b, c, d);
    assert RuneValue(s[..4]) == n;
    assert s[..4] == [s[0], s[1], s[2], s[3]];
  }

  lemma FourDigits(a: nat, b: nat, c: nat, d: nat)
    requires b < 64 && c < 64 && d < 64
    ensures var n := a * 262144 + b * 4096 + c * 64 + d;
      n / 262144 == a && n / 4096 % 64 == b && n / 64 % 64 == c && n % 64 == d
  {
    var n := a * 262144 + b * 4096 + c * 64 + d;
    Digits64((a * 64 + b) * 64 + c, d);
    Digits64(a * 64 + b, c);
    Digits64(a, b);
    assert n == ((a * 64 + b) * 64 + c) * 64 + d;
    assert n / 4096 == n / 64 / 64 && n / 262144 == n / 64 / 64 / 64;
  }

  /** And only the bytes of a character are read as more than one byte. */
  lemma RuneIsUtf8(s: string)
    requires s != "" && RuneSize(s) > 1
    ensures var u := s[..RuneSize(s)]; exists n: nat :: IsScalar(n) && n >= 0x80 && Utf8(n) == u
  {
    var k := RuneSize(s);
    if k == 2 { Rune2(s); } else if k == 3 { Rune3(s); } else { Rune4(s); }
    var n: nat := RuneValue(s[..k]);
    assert IsScalar(n) && n >= 0x80 && Utf8(n) == s[..k];
  }

  // ---- strings ----

  function HexValue(c: char): Option<nat> {
    if '0' <= c <= '9' then Some(c as int - 48)
    else if 'a' <= c <= 'f' then Some(c as int - 87)
    else if 'A' <= c <= 'F' then Some(c as int - 55)
    else None
  }

  /** Four hexadecimal digits. */
  function Hex4(b: string): Option<nat>
    requires |b| >= 4
  {
    var w :- HexValue(b[0]);
    var x :- HexValue(b[1]);
    var y :- HexValue(b[2]);
    var z :- HexValue(b[3]);
    if w * 4096 + x * 256 + y * 16 + z < 0x1_0000 then Some(w * 4096 + x * 256 + y * 16 + z) else None
  }

  /** One character of a string literal, and what follows it (RFC 8259, section 7). */
  function ReadChar(b: string): (r: Option<(string, string)>)
    ensures r.Some? ==> |r.value.1| < |b|
  {
    if b == "" then None
    else if b[0] != '\\' then Some(([b[0]], b[1..]))
    else if |b| < 2 then None
    else if b[1] == '"' || b[1] == '\\' || b[1] == '/' then Some(([b[1]], b[2..]))
    else if b[1] == 'b' then Some(("\U{08}", b[2..]))
    else if b[1] == 'f' then Some(("\U{0C}", b[2..]))
    else if b[1] == 'n' then Some(("\n", b[2..]))
    else if b[1] == 'r' then Some(("\r", b[2..]))
    else if b[1] == 't' then Some(("\t", b[2..]))
    else if b[1] == 'u' && |b| >= 6 then
      var n :- Hex4(b[2..]);
      Some((Utf8(n), b[6..]))
    else None
  }

  /** From after the opening quotation mark. */
  function ReadString(b: string): (r: Option<(string, string)>)
    ensures r.Some? ==> |r.value.1| < |b|
    decreases |b|
  {
    if b == "" then None
    else if b[0] == '"' then Some(("", b[1..]))
    else
      var (c, b) :- ReadChar(b);
      var (s, b) :- ReadString(b);
      Some((c + s, b))
  }

  /** A byte that is part of no character is replaced by U+FFFD. */
  function CleanRune(u: string): string {
    if |u| == 1 && u[0] as int >= 0x80 then Utf8(0xFFFD) else u
  }

  function Clean(s: string): string {
    if s == "" then "" else CleanRune(s[..RuneSize(s)]) + Clean(s[RuneSize(s)..])
  }

  lemma HexDigitIs(d: nat)
    requires d < 16
    ensures HexValue(HexDigit(d)) == Some(d)
  {
  }

  /** The escapes that encoding/json chooses: five short ones, otherwise four lower-case hexadecimal digits. */
  lemma EscapesAre(c: char)
    requires c as int < 0x80 && !IsPlain(c)
    ensures c == '"' ==> EscapeChar(c) == "\\\""
    ensures c == '\\' ==> EscapeChar(c) == "\\\\"
    ensures c == '\n' ==> EscapeChar(c) == "\\n"
    ensures c == '\r' ==> EscapeChar(c) == "\\r"
    ensures c == '\t' ==> EscapeChar(c) == "\\t"
    ensures c !in "\"\\\n\r\t" ==>
      |EscapeChar(c)| == 6 && EscapeChar(c)[..4] == "\\u00"
      && forall i | 4 <= i < 6 :: '0' <= EscapeChar(c)[i] <= '9' || 'a' <= EscapeChar(c)[i] <= 'f'
  {
  }

  lemma ReadEscape(c: char, t: string)
    requires !IsPlain(c) && c as int < 0x80
    ensures ReadChar(EscapeChar(c) + t) == Some(([c], t))
  {
    var e := EscapeChar(c);
    var b := e + t;
    if |e| == 2 {
      assert b[2..] == t;
    } else {
      var n := c as int;
      HexDigitIs(n / 16);
      HexDigitIs(n % 16);
      assert b[6..] == t;
      assert b[2..][0] == '0' && b[2..][1] == '0' && b[2..][2] == HexDigit(n / 16) && b[2..][3] == HexDigit(n % 16);
    }
  }

  lemma ReadReplaced(t: string)
    ensures ReadChar("\\ufffd" + t) == Some((Utf8(0xFFFD), t))
  {
    var b := "\\ufffd" + t;
    assert b[6..] == t && b[2..][0] == 'f' && b[2..][1] == 'f' && b[2..][2] == 'f' && b[2..][3] == 'd';
  }

  lemma ReadSeparator(u: string, t: string)
    requires IsSeparator(u)
    ensures ReadChar(EscapeRune(u) + t) == Some((u, t))
  {
    var b := EscapeRune(u) + t;
    assert b[6..] == t && b[2..][0] == '2' && b[2..][1] == '0' && b[2..][2] == '2';
    assert u == [u[0], u[1], u[2]];
  }

  /** Characters that are neither quotation mark nor backslash are read as they are. */
  lemma {:induction false} ReadCopied(u: string, t: string)
    requires forall i | 0 <= i < |u| :: u[i] != '"' && u[i] != '\\'
    ensures ReadString(u + t) == match ReadString(t) case None => None case Some((s, b)) => Some((u + s, b))
  {
    if u == "" {
      assert u + t == t;
      if ReadString(t).Some? { assert u + ReadString(t).value.0 == ReadString(t).value.0; }
    } else {
      assert (u + t)[1..] == u[1..] + t;
      ReadCopied(u[1..], t);
      var r := ReadString(t);
      if r.Some? { CatAssoc([u[0]], u[1..], r.value.0); }
      assert [u[0]] + u[1..] == u;
    }
  }

  lemma ReadRune(u: string, t: string)
    requires IsRune(u)
    ensures ReadString(EscapeRune(u) + t)
         == match ReadString(t) case None => None case Some((s, b)) => Some((CleanRune(u) + s, b))
  {
    if IsPlainRune(u) {
      ReadCopied(u, t);
    } else {
      if |u| > 1 {
        ReadSeparator(u, t);
      } else if u[0] as int >= 0x80 {
        ReadReplaced(t);
      } else {
        ReadEscape(u[0], t);
        assert u == [u[0]];
      }
      assert (EscapeRune(u) + t)[0] == '\\';
    }
  }

  /** A string literal is read as the string, its invalid bytes replaced. */
  lemma {:induction false} StringRead(s: string, rest: string)
    ensures ReadString(Escape(s) + ("\"" + rest)) == Some((Clean(s), rest))
  {
    if s == "" {
      assert "" + ("\"" + rest) == "\"" + rest && ("\"" + rest)[1..] == rest;
    } else {
      var k := RuneSize(s);
      StringRead(s[k..], rest);
      CatAssoc(EscapeRune(s[..k]), Escape(s[k..]), "\"" + rest);
      ReadRune(s[..k], Escape(s[k..]) + ("\"" + rest));
    }
  }

  // ---- values ----

  predicate InNumber(c: char) {
    IsDigit(c) || c in "-+.eE"
  }

  function NumberRun(b: string): (k: nat)
    ensures k <= |b| && (forall i | 0 <= i < k :: InNumber(b[i])) && (k < |b| ==> !InNumber(b[k]))
  {
    if b == "" || !InNumber(b[0]) then 0 else
      var k := 1 + NumberRun(b[1..]);
      assert forall i | 1 <= i < k :: b[i] == b[1..][i - 1];
      k
  }

  /** A JSON value without white space, and what follows it (RFC 8259, sections 3 to 6). */
  function ReadValue(b: string): (r: Option<(Value, string)>)
    ensures r.Some? ==> |r.value.1| < |b|
    decreases |b|, 0
  {
    if b == "" then None
    else if "null" <= b then Some((Null, b[4..]))
    else if "true" <= b then Some((Bool(true), b[4..]))
    else if "false" <= b then Some((Bool(false), b[5..]))
    else if b[0] == '"' then
      var (s, b) :- ReadString(b[1..]);
      Some((Str(s), b))
    else if b[0] == '[' then
      var (items, b) :- ReadItems(b[1..]);
      Some((Arr(items), b))
    else if b[0] == '{' then
      var (members, b) :- ReadMembers(b[1..]);
      Some((Obj(members), b))
    else if IsDigit(b[0]) || b[0] == '-' then
      Some((Number(b[..NumberRun(b)]), b[NumberRun(b)..]))
    else None
  }

  function ReadItems(b: string): (r: Option<(seq<Value>, string)>)
    ensures r.Some? ==> |r.value.1| < |b|
    decreases |b|, 2
  {
    if b == "" then None
    else if b[0] == ']' then Some(([], b[1..]))
    else
      var (x, b) :- ReadValue(b);
      var (more, b) :- ReadMoreItems(b);
      Some(([x] + more, b))
  }

  function ReadMoreItems(b: string): (r: Option<(seq<Value>, string)>)
    ensures r.Some? ==> |r.value.1| < |b|
    decreases |b|, 1
  {
    if b == "" then None
    else if b[0] == ']' then Some(([], b[1..]))
    else if b[0] != ',' then None
    else
      var (x, b) :- ReadValue(b[1..]);
      var (more, b) :- ReadMoreItems(b);
      Some(([x] + more, b))
  }

  function ReadMembers(b: string): (r: Option<(seq<Member>, string)>)
    ensures r.Some? ==> |r.value.1| < |b|
    decreases |b|, 2
  {
    if b == "" then None
    else if b[0] == '}' then Some(([], b[1..]))
    else
      var (x, b) :- ReadMember(b);
      var (more, b) :- ReadMoreMembers(b);
      Some(([x] + more, b))
  }

  function ReadMoreMembers(b: string): (r: Option<(seq<Member>, string)>)
    ensures r.Some? ==> |r.value.1| < |b|
    decreases |b|, 1
  {
    if b == "" then None
    else if b[0] == '}' then Some(([], b[1..]))
    else if b[0] != ',' then None
    else
      var (x, b) :- ReadMember(b[1..]);
      var (more, b) :- ReadMoreMembers(b);
      Some(([x] + more, b))
  }

  function ReadMember(b: string): (r: Option<(Member, string)>)
    ensures r.Some? ==> |r.value.1| < |b|
    decreases |b|, 1
  {
    if b == "" || b[0] != '"' then None
    else
      var (key, b) :- ReadString(b[1..]);
      if b == "" || b[0] != ':' then None
      else
        var (v, b) :- ReadValue(b[1..]);
        Some((Member(key, v), b))
  }

  /** A value with the strings as they can be sent. */
  function CleanValue(v: Value): Value
    decreases v, 0
  {
    match v
    case Str(s) => Str(Clean(s))
    case Arr(items) => Arr(CleanItems(items))
    case Obj(members) => Obj(CleanMembers(members))
    case _ => v
  }

  function CleanItems(items: seq<Value>): seq<Value>
    decreases items, 1
  {
    if items == [] then [] else [CleanValue(items[0])] + CleanItems(items[1..])
  }

  function CleanMembers(members: seq<Member>): seq<Member>
    decreases members, 2
  {
    if members == [] then [] else [CleanMember(members[0])] + CleanMembers(members[1..])
  }

  function CleanMember(m: Member): Member
    decreases m, 1
  {
    Member(Clean(m.key), CleanValue(m.value))
  }

  /** Text that ends a number. */
  predicate Ends(rest: string) {
    rest == "" || !InNumber(rest[0])
  }

  lemma {:induction false} NumberRunIs(t: string, rest: string)
    requires (forall i | 0 <= i < |t| :: InNumber(t[i])) && Ends(rest)
    ensures NumberRun(t + rest) == |t|
  {
    if t == "" {
      assert t + rest == rest;
    } else {
      assert (t + rest)[1..] == t[1..] + rest;
      NumberRunIs(t[1..], rest);
    }
  }

  lemma NumberRead(t: NumberText, rest: string)
    requires Ends(rest)
    ensures ReadValue(t + rest) == Some((Number(t), rest))
  {
    NumberRunIs(t, rest);
    assert (t + rest)[..|t|] == t && (t + rest)[|t|..] == rest;
  }

  lemma WordRead(v: Value, rest: string)
    requires v.Null? || v.Bool?
    ensures ReadValue(Render(v) + rest) == Some((v, rest))
  {
    var b := Render(v) + rest;
    assert b[|Render(v)|..] == rest;
    if v == Bool(true) {
      assert b[0] == 't';
    } else if v == Bool(false) {
      assert b[0] == 'f';
    }
  }

  lemma QuotedRead(s: string, rest: string)
    ensures Quote(s) + rest == "\"" + (Escape(s) + ("\"" + rest))
    ensures ReadString((Quote(s) + rest)[1..]) == Some((Clean(s), rest))
  {
    StringRead(s, rest);
    CatAssoc("\"" + Escape(s), "\"", rest);
    CatAssoc("\"", Escape(s), "\"" + rest);
    var t := Escape(s) + ("\"" + rest);
    assert ("\"" + t)[1..] == t;
  }

  /**
   * Reading the text of a value gives the value back, with the bytes of its strings that are no
   * characters replaced, and stops at what follows.
   */
  lemma {:induction false} ValueRead(v: Value, rest: string)
    requires Ends(rest)
    ensures ReadValue(Render(v) + rest) == Some((CleanValue(v), rest))
    decreases v, 0
  {
    match v
    case Null => WordRead(v, rest);
    case Bool(_) => WordRead(v, rest);
    case Number(t) => NumberRead(t, rest);
    case Str(s) => QuotedRead(s, rest);
    case Arr(items) =>
      ItemsRead(items, rest);
      ListRead(items, CleanItems(items), rest);
    case Obj(members) =>
      MembersRead(members, rest);
      ObjectRead(members, CleanMembers(members), rest);
  }

  lemma ListRead(items: seq<Value>, got: seq<Value>, rest: string)
    requires ReadItems(RenderItems(items) + rest) == Some((got, rest))
    ensures ReadValue(Render(Arr(items)) + rest) == Some((Arr(got), rest))
  {
    OpenText("[", RenderItems(items), rest);
  }

  lemma ObjectRead(members: seq<Member>, got: seq<Member>, rest: string)
    requires ReadMembers(RenderMembers(members) + rest) == Some((got, rest))
    ensures ReadValue(Render(Obj(members)) + rest) == Some((Obj(got), rest))
  {
    OpenText("{", RenderMembers(members), rest);
  }

  lemma OpenText(c: string, t: string, rest: string)
    requires |c| == 1
    ensures c + t + rest == c + (t + rest) && (c + t + rest)[1..] == t + rest
  {
    CatAssoc(c, t, rest);
  }

  lemma {:induction false} ItemsRead(items: seq<Value>, rest: string)
    requires Ends(rest)
    ensures ReadItems(RenderItems(items) + rest) == Some((CleanItems(items), rest))
    decreases items, 1
  {
    if items == [] {
      assert ("]" + rest)[1..] == rest;
    } else {
      var t, more := Render(items[0]), RenderMoreItems(items[1..]) + rest;
      CatAssoc(t, RenderMoreItems(items[1..]), rest);
      ValueRead(items[0], more);
      MoreItemsRead(items[1..], rest);
      assert (t + more)[0] == t[0];
    }
  }

  lemma {:induction false} MoreItemsRead(items: seq<Value>, rest: string)
    requires Ends(rest)
    ensures ReadMoreItems(RenderMoreItems(items) + rest) == Some((CleanItems(items), rest))
    decreases items, 1
  {
    if items == [] {
      assert ("]" + rest)[1..] == rest;
    } else {
      var t, more := Render(items[0]), RenderMoreItems(items[1..]) + rest;
      CatAssoc("," + t, RenderMoreItems(items[1..]), rest);
      OpenText(",", t, more);
      ValueRead(items[0], more);
      MoreItemsRead(items[1..], rest);
    }
  }

  lemma {:induction false} MembersRead(members: seq<Member>, rest: string)
    requires Ends(rest)
    ensures ReadMembers(RenderMembers(members) + rest) == Some((CleanMembers(members), rest))
    decreases members, 2
  {
    if members == [] {
      assert ("}" + rest)[1..] == rest;
    } else {
      var t, more := RenderMember(members[0]), RenderMoreMembers(members[1..]) + rest;
      CatAssoc(t, RenderMoreMembers(members[1..]), rest);
      MemberRead(members[0], more);
      MoreMembersRead(members[1..], rest);
    }
  }

  lemma {:induction false} MoreMembersRead(members: seq<Member>, rest: string)
    requires Ends(rest)
    ensures ReadMoreMembers(RenderMoreMembers(members) + rest) == Some((CleanMembers(members), rest))
    decreases members, 2
  {
    if members == [] {
      assert ("}" + rest)[1..] == rest;
    } else {
      var t, more := RenderMember(members[0]), RenderMoreMembers(members[1..]) + rest;
      CatAssoc("," + t, RenderMoreMembers(members[1..]), rest);
      OpenText(",", t, more);
      MemberRead(members[0], more);
      MoreMembersRead(members[1..], rest);
    }
  }

  lemma {:induction false} MemberRead(m: Member, rest: string)
    requires Ends(rest)
    ensures ReadMember(RenderMember(m) + rest) == Some((CleanMember(m), rest))
    ensures RenderMember(m) + rest != "" && (RenderMember(m) + rest)[0] == '"'
    decreases m, 1
  {
    var t := Render(m.value);
    CatAssoc(Quote(m.key) + ":", t, rest);
    CatAssoc(Quote(m.key), ":", t + rest);
    QuotedRead(m.key, ":" + (t + rest));
    ValueRead(m.value, rest);
    assert (":" + (t + rest))[1..] == t + rest;
  }
}
