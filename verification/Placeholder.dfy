/**
 * The two regular expressions of parser_default.go, written as recognisers, and the
 * theorem that deleting every placeholder match from the text of a JSON value is the
 * same as deleting placeholder-shaped list elements from the value itself.
 */
module Placeholder {
  import opened Common
  import opened Json

  // ---- recognisers ----

  /** `\s*` */
  function SkipSpace(b: string): (r: string)
    ensures |r| <= |b| && (r != "" ==> !IsSpace(r[0]))
  {
    if b != "" && IsSpace(b[0]) then SkipSpace(b[1..]) else b
  }

  /** `\d*` */
  function SkipDigits(b: string): (r: string)
    ensures |r| <= |b| && (r != "" ==> !IsDigit(r[0]))
  {
    if b != "" && IsDigit(b[0]) then SkipDigits(b[1..]) else b
  }

  /** A literal, after optional white space. */
  function Token(b: string, lit: string): (r: Option<string>)
    ensures r.Some? ==> |r.value| + |lit| <= |b|
  {
    var c := SkipSpace(b);
    if lit <= c then Some(c[|lit|..]) else None
  }

  /** A key of the pattern with its quotation marks. */
  function Quoted(key: string): string {
    "\"" + key + "\""
  }

  const KEY_PLACEHOLDER := "_placeholder"
  const KEY_NUM := "num"

  /**
   * What remains of `b` after a match of placeholderExp that starts at its first
   * character. Every run is taken greedily; module Regexp shows that this loses no match.
   */
  function MatchPlaceholder(b: string): (r: Option<string>)
    ensures r.Some? ==> |r.value| < |b|
  {
    var b :- Token(b, ",");
    var b :- Token(b, "{");
    MatchKeys(b)
  }

  /** The pattern from its first key on. */
  function MatchKeys(b: string): (r: Option<string>)
    ensures r.Some? ==> |r.value| < |b|
  {
    MatchKey(KEY_PLACEHOLDER, b)
  }

  function MatchKey(key: string, b: string): (r: Option<string>)
    ensures r.Some? ==> |r.value| < |b|
  {
    var b :- Token(b, Quoted(key));
    MatchTrue(b)
  }

  /** The pattern from the colon after its first key on. */
  function MatchTrue(b: string): (r: Option<string>)
    ensures r.Some? ==> |r.value| < |b|
  {
    var b :- Token(b, ":");
    var b :- Token(b, "true");
    MatchNum(b)
  }

  /** The pattern from the comma after `true` on. */
  function MatchNum(b: string): (r: Option<string>)
    ensures r.Some? ==> |r.value| < |b|
  {
    var b :- Token(b, ",");
    MatchNumKey(b)
  }

  function MatchNumKey(b: string): (r: Option<string>)
    ensures r.Some? ==> |r.value| < |b|
  {
    var b :- Token(b, Quoted(KEY_NUM));
    var b :- Token(b, ":");
    var b :- Token(SkipDigits(SkipSpace(b)), "}");
    Some(SkipSpace(b))
  }

  /** Number of matches, and the text with every match deleted. */
  datatype Stripped = Stripped(count: nat, text: string)
  {
    function Then(next: Stripped): Stripped {
      Stripped(count + next.count, text + next.text)
    }
  }

  lemma Regroup(a: string, b: string, c: string, d: string)
    ensures a + b + c + d == a + (b + (c + d))
  {
    CatAssoc(a + b, c, d);
    CatAssoc(a, b, c + d);
  }

  lemma ThenAssoc(a: Stripped, b: Stripped, c: Stripped)
    ensures a.Then(b).Then(c) == a.Then(b.Then(c))
  {
    CatAssoc(a.text, b.text, c.text);
  }

  /** A matcher gives what is left after a match at the start of the text, if there is one. */
  type Matcher = string -> Option<string>

  /** Matches are never empty. */
  ghost predicate Progress(m: Matcher) {
    forall b :: m(b).Some? ==> |m(b).value| < |b|
  }

  /** FindAllSubmatch and ReplaceAllLiteral(b, nil): leftmost, non-overlapping matches. */
  function DeleteAll(m: Matcher, b: string): Stripped
    requires Progress(m)
    decreases |b|
  {
    if b == "" then Stripped(0, "")
    else
      match m(b)
      case Some(rest) => Stripped(1, "").Then(DeleteAll(m, rest))
      case None => Stripped(0, [b[0]]).Then(DeleteAll(m, b[1..]))
  }

  /** extractAttachments: the number of buffer slots and the text left over. */
  function Strip(b: string): Stripped {
    DeleteAll(MatchPlaceholder, b)
  }

  /** Length of the leading run without a quotation mark: `[^"]*` */
  function QuoteFreeRun(b: string): (k: nat)
    ensures k <= |b| && '"' !in b[..k] && (k < |b| ==> b[k] == '"')
  {
    if b == "" || b[0] == '"' then 0 else
      var k := 1 + QuoteFreeRun(b[1..]);
      assert b[..k] == [b[0]] + b[1..][..k - 1];
      k
  }

  /** extractEvent: the quoted name at the head of the list, and the list without it. */
  function ExtractEvent(b: string): Option<(string, string)> {
    if b == "" || b[0] != '[' then None else
      var inner :- Token(b[1..], "\"");
      NameAndRest(inner)
  }

  /** From after the opening quote: a name of at least one character, and what follows it. */
  function NameAndRest(inner: string): Option<(string, string)> {
    var k := QuoteFreeRun(inner);
    if k == 0 || k == |inner| then None else
      Some((inner[..k], "[" + DropComma(SkipSpace(inner[k + 1..]))))
  }

  /** `,?` */
  function DropComma(b: string): string {
    if b != "" && b[0] == ',' then b[1..] else b
  }

  // ---- the transformation on values ----

  /** The object the encoder writes in place of binary argument number `n`. */
  function Hole(n: nat): Value {
    Obj([Member(KEY_PLACEHOLDER, Bool(true)), Member(KEY_NUM, Number(Decimal(n)))])
  }

  predicate IsHole(v: Value) {
    && v.Obj? && |v.members| == 2
    && v.members[0].key == KEY_PLACEHOLDER && v.members[0].value == Bool(true)
    && v.members[1].key == KEY_NUM
    && v.members[1].value.Number? && AllDigits(v.members[1].value.text)
  }

  /** A value with every hole removed that is not the first element of its list. */
  function Prune(v: Value): Value
    decreases v, 0
  {
    match v
    case Arr(items) => Arr(PruneItems(items))
    case Obj(members) => Obj(PruneMembers(members))
    case _ => v
  }

  function PruneItems(items: seq<Value>): seq<Value>
    decreases items, 1
  {
    if items == [] then [] else [Prune(items[0])] + PruneMoreItems(items[1..])
  }

  function PruneMoreItems(items: seq<Value>): seq<Value>
    decreases items, 1
  {
    if items == [] then []
    else if IsHole(items[0]) then PruneMoreItems(items[1..])
    else [Prune(items[0])] + PruneMoreItems(items[1..])
  }

  function PruneMembers(members: seq<Member>): (r: seq<Member>)
    ensures |r| == |members|
    decreases members, 2
  {
    if members == [] then []
    else [PruneMember(members[0])] + PruneMembers(members[1..])
  }

  function PruneMember(m: Member): Member
    decreases m, 1
  {
    Member(m.key, Prune(m.value))
  }

  /** How many holes Prune removes. */
  function Holes(v: Value): nat
    decreases v, 0
  {
    match v
    case Arr(items) => if items == [] then 0 else Holes(items[0]) + HolesInMore(items[1..])
    case Obj(members) => HolesInMembers(members)
    case _ => 0
  }

  function HolesInMore(items: seq<Value>): nat
    decreases items, 1
  {
    if items == [] then 0
    else (if IsHole(items[0]) then 1 else Holes(items[0])) + HolesInMore(items[1..])
  }

  function HolesInMembers(members: seq<Member>): nat
    decreases members, 2
  {
    if members == [] then 0 else HolesInMember(members[0]) + HolesInMembers(members[1..])
  }

  function HolesInMember(m: Member): nat
    decreases m, 1
  {
    Holes(m.value)
  }

  // ---- how the pattern meets JSON text ----

  /** A character that neither white space nor the comma of the pattern matches. */
  predicate Inert(c: char) {
    !IsSpace(c) && c != ','
  }

  /** The text from inside a string literal to the end of the input. */
  function Tail(s: string, rest: string): string {
    Escape(s) + ("\"" + rest)
  }

  // What the deletion theorem uses of a matcher, one fact at a time.

  ghost predicate SkipsInert(m: Matcher, b: string) {
    b != "" && Inert(b[0]) ==> m(b) == None
  }

  ghost predicate SkipsStrings(m: Matcher, s: string, rest: string) {
    rest == "" || rest[0] != '_' ==> m(Tail(s, rest)) == None
  }

  ghost predicate SkipsMembers(m: Matcher, b: string) {
    m(",\"" + b) == None
  }

  ghost predicate CutsHoles(m: Matcher, v: Value, rest: string) {
    rest != "" && rest[0] in ",]" ==>
      m("," + Render(v) + rest) == if IsHole(v) then Some(rest) else None
  }

  /**
   * A matcher that never starts at an inert character or inside a string literal, and that
   * at the comma before a list element matches exactly when the element is a hole, and then
   * consumes exactly the comma and the element.
   */
  ghost predicate MatchesHoles(m: Matcher) {
    && Progress(m)
    && (forall b :: SkipsInert(m, b))
    && (forall s, rest :: SkipsStrings(m, s, rest))
    && (forall b :: SkipsMembers(m, b))
    && (forall v, rest :: CutsHoles(m, v, rest))
  }

  // ---- the deletion theorem, for any such matcher ----

  /** No match starts in `t` when `rest` follows it. */
  ghost predicate Quiet(m: Matcher, t: string, rest: string) {
    forall i | 0 <= i < |t| :: m(t[i..] + rest) == None
  }

  lemma {:induction false} StripQuiet(m: Matcher, t: string, rest: string)
    requires Progress(m) && Quiet(m, t, rest)
    ensures DeleteAll(m, t + rest) == Stripped(0, t).Then(DeleteAll(m, rest))
  {
    if t == "" {
      assert t + rest == rest;
    } else {
      assert (t + rest)[1..] == t[1..] + rest;
      assert t[0..] == t;
      forall i | 0 <= i < |t[1..]|
        ensures m(t[1..][i..] + rest) == None
      {
        assert t[1..][i..] == t[i + 1..];
      }
      StripQuiet(m, t[1..], rest);
      ThenAssoc(Stripped(0, [t[0]]), Stripped(0, t[1..]), DeleteAll(m, rest));
      assert [t[0]] + t[1..] == t;
    }
  }

  lemma QuietInert(m: Matcher, t: string, rest: string)
    requires MatchesHoles(m)
    requires forall i | 0 <= i < |t| :: Inert(t[i])
    ensures Quiet(m, t, rest)
  {
    forall i | 0 <= i < |t|
      ensures m(t[i..] + rest) == None
    {
      assert SkipsInert(m, t[i..] + rest);
    }
  }

  /** Text without white space or comma is kept. */
  lemma StripInert(m: Matcher, t: string, rest: string)
    requires MatchesHoles(m)
    requires forall i | 0 <= i < |t| :: Inert(t[i])
    ensures DeleteAll(m, t + rest) == Stripped(0, t).Then(DeleteAll(m, rest))
  {
    QuietInert(m, t, rest);
    StripQuiet(m, t, rest);
  }

  /** The text of a string, its first character apart. */
  lemma EscapeParts(s: string, e: string, t: string)
    requires s != "" && e == EscapeRune(s[..RuneSize(s)]) && t == Escape(s[RuneSize(s)..])
    ensures Escape(s) == e + t && (forall i | 1 <= i < |e| :: Inert(e[i]))
  {
  }

  /** No match starts at any character of a string literal. */
  lemma {:induction false} QuietEscape(m: Matcher, s: string, rest: string)
    requires MatchesHoles(m)
    requires rest == "" || rest[0] != '_'
    ensures Quiet(m, Escape(s), "\"" + rest)
  {
    if s != "" {
      var k := RuneSize(s);
      var e, t := EscapeRune(s[..k]), Escape(s[k..]);
      QuietEscape(m, s[k..], rest);
      EscapeParts(s, e, t);
      forall i | 0 <= i < |Escape(s)|
        ensures m(Escape(s)[i..] + ("\"" + rest)) == None
      {
        if i == 0 {
          assert SkipsStrings(m, s, rest);
          assert Escape(s)[0..] == Escape(s);
        } else if i < |e| {
          assert SkipsInert(m, Escape(s)[i..] + ("\"" + rest));
          assert Escape(s)[i] == e[i];
        } else {
          assert Escape(s)[i..] == t[i - |e|..];
        }
      }
    }
  }

  lemma StripQuote(m: Matcher, s: string, rest: string)
    requires MatchesHoles(m)
    requires rest == "" || rest[0] != '_'
    ensures DeleteAll(m, Quote(s) + rest) == Stripped(0, Quote(s)).Then(DeleteAll(m, rest))
  {
    QuietEscape(m, s, rest);
    StripAround(m, "\"", Escape(s), "\"", rest);
  }

  /** A quiet piece between two inert ones. */
  lemma StripAround(m: Matcher, a: string, e: string, z: string, rest: string)
    requires MatchesHoles(m)
    requires forall i | 0 <= i < |a| :: Inert(a[i])
    requires forall i | 0 <= i < |z| :: Inert(z[i])
    requires Quiet(m, e, z + rest)
    ensures DeleteAll(m, a + e + z + rest) == Stripped(0, a + e + z).Then(DeleteAll(m, rest))
  {
    Regroup(a, e, z, rest);
    StripInert(m, a, e + (z + rest));
    StripQuiet(m, e, z + rest);
    StripInert(m, z, rest);
    var r := DeleteAll(m, rest);
    ThenAssoc(Stripped(0, e), Stripped(0, z), r);
    ThenAssoc(Stripped(0, a), Stripped(0, e + z), r);
    CatAssoc(a, e, z);
  }

  /** Deleting in two adjacent pieces. */
  lemma StripJoin(m: Matcher, a: string, sa: Stripped, b: string, sb: Stripped, rest: string)
    requires Progress(m)
    requires DeleteAll(m, a + (b + rest)) == sa.Then(DeleteAll(m, b + rest))
    requires DeleteAll(m, b + rest) == sb.Then(DeleteAll(m, rest))
    ensures DeleteAll(m, a + b + rest) == sa.Then(sb).Then(DeleteAll(m, rest))
  {
    CatAssoc(a, b, rest);
    ThenAssoc(sa, sb, DeleteAll(m, rest));
  }

  /** Deleting matches from the text of a value is pruning the value. */
  lemma {:induction false} StripValue(m: Matcher, v: Value, rest: string)
    requires MatchesHoles(m)
    requires rest == "" || rest[0] != '_'
    ensures DeleteAll(m, Render(v) + rest)
         == Stripped(Holes(v), Render(Prune(v))).Then(DeleteAll(m, rest))
    decreases v, 0
  {
    match v
    case Str(s) => StripQuote(m, s, rest);
    case Arr(items) =>
      StripInert(m, "[", RenderItems(items) + rest);
      StripItems(m, items, rest);
      StripJoin(m, "[", Stripped(0, "["), RenderItems(items),
                Stripped(Holes(v), RenderItems(PruneItems(items))), rest);
    case Obj(members) =>
      StripInert(m, "{", RenderMembers(members) + rest);
      StripMembers(m, members, rest);
      StripJoin(m, "{", Stripped(0, "{"), RenderMembers(members),
                Stripped(Holes(v), RenderMembers(PruneMembers(members))), rest);
    case _ => StripInert(m, Render(v), rest);
  }

  lemma {:induction false} StripItems(m: Matcher, items: seq<Value>, rest: string)
    requires MatchesHoles(m)
    requires rest == "" || rest[0] != '_'
    ensures DeleteAll(m, RenderItems(items) + rest)
         == Stripped(Holes(Arr(items)), RenderItems(PruneItems(items))).Then(DeleteAll(m, rest))
    decreases items, 1
  {
    if items == [] {
      StripInert(m, "]", rest);
    } else {
      var more := items[1..];
      StripValue(m, items[0], RenderMoreItems(more) + rest);
      StripMoreItems(m, more, rest);
      StripJoin(m, Render(items[0]), Stripped(Holes(items[0]), Render(Prune(items[0]))),
                RenderMoreItems(more), Stripped(HolesInMore(more), RenderMoreItems(PruneMoreItems(more))), rest);
      assert PruneItems(items)[1..] == PruneMoreItems(more);
    }
  }

  lemma {:induction false} StripMoreItems(m: Matcher, items: seq<Value>, rest: string)
    requires MatchesHoles(m)
    requires rest == "" || rest[0] != '_'
    ensures DeleteAll(m, RenderMoreItems(items) + rest)
         == Stripped(HolesInMore(items), RenderMoreItems(PruneMoreItems(items))).Then(DeleteAll(m, rest))
    decreases items, 1
  {
    if items == [] {
      StripInert(m, "]", rest);
    } else {
      var more := items[1..];
      StripMoreItems(m, more, rest);
      if !IsHole(items[0]) {
        StripValue(m, items[0], RenderMoreItems(more) + rest);
      }
      StripFirst(m, items[0], more, rest);
      assert items == [items[0]] + more;
    }
  }

  /** What becomes of the comma and the element after it. */
  function Cut(v: Value): Stripped {
    if IsHole(v) then Stripped(1, "") else Stripped(Holes(v), "," + Render(Prune(v)))
  }

  lemma CutMore(v: Value, more: seq<Value>)
    ensures Cut(v).Then(Stripped(HolesInMore(more), RenderMoreItems(PruneMoreItems(more))))
         == Stripped(HolesInMore([v] + more), RenderMoreItems(PruneMoreItems([v] + more)))
  {
    assert ([v] + more)[1..] == more;
    if IsHole(v) {
      assert "" + RenderMoreItems(PruneMoreItems(more)) == RenderMoreItems(PruneMoreItems(more));
    } else {
      assert ([Prune(v)] + PruneMoreItems(more))[1..] == PruneMoreItems(more);
    }
  }

  lemma StripFirst(m: Matcher, v: Value, more: seq<Value>, rest: string)
    requires MatchesHoles(m)
    requires DeleteAll(m, RenderMoreItems(more) + rest)
          == Stripped(HolesInMore(more), RenderMoreItems(PruneMoreItems(more))).Then(DeleteAll(m, rest))
    requires
      || IsHole(v)
      || DeleteAll(m, Render(v) + (RenderMoreItems(more) + rest))
         == Stripped(Holes(v), Render(Prune(v))).Then(DeleteAll(m, RenderMoreItems(more) + rest))
    ensures DeleteAll(m, RenderMoreItems([v] + more) + rest)
         == Stripped(HolesInMore([v] + more), RenderMoreItems(PruneMoreItems([v] + more))).Then(DeleteAll(m, rest))
  {
    var next := RenderMoreItems(more) + rest;
    if IsHole(v) { StripHole(m, v, next); } else { StripItem(m, v, next); }
    StripJoin(m, "," + Render(v), Cut(v), RenderMoreItems(more),
              Stripped(HolesInMore(more), RenderMoreItems(PruneMoreItems(more))), rest);
    CutMore(v, more);
    MoreItemsText(v, more);
  }

  lemma MoreItemsText(v: Value, more: seq<Value>)
    ensures RenderMoreItems([v] + more) == "," + Render(v) + RenderMoreItems(more)
  {
    assert ([v] + more)[1..] == more;
  }

  /** A comma that starts no match is kept. */
  lemma StripComma(m: Matcher, t: string, st: Stripped, rest: string)
    requires Progress(m) && m("," + t + rest) == None
    requires DeleteAll(m, t + rest) == st.Then(DeleteAll(m, rest))
    ensures DeleteAll(m, "," + t + rest) == Stripped(st.count, "," + st.text).Then(DeleteAll(m, rest))
  {
    var b := "," + t + rest;
    assert b[1..] == t + rest;
    assert [b[0]] == ",";
    ThenAssoc(Stripped(0, ","), st, DeleteAll(m, rest));
  }

  /** A hole goes, together with the comma before it. */
  lemma StripHole(m: Matcher, v: Value, rest: string)
    requires MatchesHoles(m) && IsHole(v)
    requires rest != "" && rest[0] in ",]"
    ensures DeleteAll(m, "," + Render(v) + rest) == Stripped(1, "").Then(DeleteAll(m, rest))
  {
    assert CutsHoles(m, v, rest);
  }

  /** Any other element stays, together with the comma before it. */
  lemma StripItem(m: Matcher, v: Value, rest: string)
    requires MatchesHoles(m) && !IsHole(v)
    requires rest != "" && rest[0] in ",]"
    requires DeleteAll(m, Render(v) + rest)
          == Stripped(Holes(v), Render(Prune(v))).Then(DeleteAll(m, rest))
    ensures DeleteAll(m, "," + Render(v) + rest)
         == Stripped(Holes(v), "," + Render(Prune(v))).Then(DeleteAll(m, rest))
  {
    assert CutsHoles(m, v, rest);
    StripComma(m, Render(v), Stripped(Holes(v), Render(Prune(v))), rest);
  }

  lemma {:induction false} StripMembers(m: Matcher, members: seq<Member>, rest: string)
    requires MatchesHoles(m)
    requires rest == "" || rest[0] != '_'
    ensures DeleteAll(m, RenderMembers(members) + rest)
         == Stripped(HolesInMembers(members), RenderMembers(PruneMembers(members))).Then(DeleteAll(m, rest))
    decreases members, 2
  {
    if members == [] {
      StripInert(m, "}", rest);
    } else {
      var first, more := members[0], members[1..];
      StripMember(m, first, RenderMoreMembers(more) + rest);
      StripMoreMembers(m, more, rest);
      StripJoin(m, RenderMember(first), Stripped(HolesInMember(first), RenderMember(PruneMember(first))),
                RenderMoreMembers(more), Stripped(HolesInMembers(more), RenderMoreMembers(PruneMembers(more))), rest);
      assert PruneMembers(members)[1..] == PruneMembers(more);
    }
  }

  lemma {:induction false} StripMoreMembers(m: Matcher, members: seq<Member>, rest: string)
    requires MatchesHoles(m)
    requires rest == "" || rest[0] != '_'
    ensures DeleteAll(m, RenderMoreMembers(members) + rest)
         == Stripped(HolesInMembers(members), RenderMoreMembers(PruneMembers(members))).Then(DeleteAll(m, rest))
    decreases members, 2
  {
    if members == [] {
      StripInert(m, "}", rest);
    } else {
      var first, more := members[0], members[1..];
      StripMember(m, first, RenderMoreMembers(more) + rest);
      StripMemberComma(m, first, RenderMoreMembers(more) + rest);
      StripMoreMembers(m, more, rest);
      StripJoin(m, "," + RenderMember(first), Stripped(HolesInMember(first), "," + RenderMember(PruneMember(first))),
                RenderMoreMembers(more), Stripped(HolesInMembers(more), RenderMoreMembers(PruneMembers(more))), rest);
      assert PruneMembers(members)[1..] == PruneMembers(more);
    }
  }

  lemma NoMatchBeforeMember(m: Matcher, t: string)
    requires MatchesHoles(m) && t != "" && t[0] == '"'
    ensures m("," + t) == None
  {
    assert SkipsMembers(m, t[1..]);
    assert "," + t == ",\"" + t[1..];
  }

  lemma StripMemberComma(m: Matcher, mem: Member, rest: string)
    requires MatchesHoles(m)
    requires DeleteAll(m, RenderMember(mem) + rest)
          == Stripped(HolesInMember(mem), RenderMember(PruneMember(mem))).Then(DeleteAll(m, rest))
    ensures DeleteAll(m, "," + RenderMember(mem) + rest)
         == Stripped(HolesInMember(mem), "," + RenderMember(PruneMember(mem))).Then(DeleteAll(m, rest))
  {
    var t := RenderMember(mem);
    NoMatchBeforeMember(m, t + rest);
    CatAssoc(",", t, rest);
    StripComma(m, t, Stripped(HolesInMember(mem), RenderMember(PruneMember(mem))), rest);
  }

  lemma {:induction false} StripMember(m: Matcher, mem: Member, rest: string)
    requires MatchesHoles(m)
    requires rest == "" || rest[0] != '_'
    ensures DeleteAll(m, RenderMember(mem) + rest)
         == Stripped(HolesInMember(mem), RenderMember(PruneMember(mem))).Then(DeleteAll(m, rest))
    decreases mem, 1
  {
    var value := Render(mem.value);
    StripQuote(m, mem.key, ":" + (value + rest));
    StripInert(m, ":", value + rest);
    StripJoin(m, Quote(mem.key), Stripped(0, Quote(mem.key)), ":", Stripped(0, ":"), value + rest);
    StripValue(m, mem.value, rest);
    StripJoin(m, Quote(mem.key) + ":", Stripped(0, Quote(mem.key) + ":"),
              value, Stripped(Holes(mem.value), Render(Prune(mem.value))), rest);
  }

  // ---- placeholderExp is such a matcher ----

  /** What a recogniser sees first inside a literal: a plain character, `\` or the end. */
  lemma TailFirst(s: string, rest: string)
    ensures Tail(s, rest) != ""
    ensures Tail(s, rest)[0] == if s == "" then '"' else if IsPlainRune(s[..RuneSize(s)]) then s[0] else '\\'
    ensures s != "" && IsPlain(s[0]) ==> Tail(s, rest)[0] == s[0] && Tail(s, rest)[1..] == Tail(s[1..], rest)
    ensures s == "" ==> Tail(s, rest) == "\"" + rest
  {
    if s != "" {
      var k := RuneSize(s);
      EscapeParts(s, EscapeRune(s[..k]), Escape(s[k..]));
    }
  }

  /** Skipping white space inside a literal stops inside the literal or at its end. */
  lemma {:induction false} SkipSpaceInString(s: string, rest: string) returns (k: nat)
    ensures k <= |s| && SkipSpace(Tail(s, rest)) == Tail(s[k..], rest)
  {
    TailFirst(s, rest);
    k := 0;
    if s != "" && s[0] == ' ' {
      var j := SkipSpaceInString(s[1..], rest);
      assert s[1..][j..] == s[j + 1..];
      k := j + 1;
    } else {
      assert s[0..] == s;
    }
  }

  /** A one-character token found inside a literal is a character of the literal. */
  lemma TokenInString(s: string, rest: string, c: char) returns (k: nat)
    requires c == ',' || c == '{'
    ensures Token(Tail(s, rest), [c]) == None ||
            (0 < k <= |s| && Token(Tail(s, rest), [c]) == Some(Tail(s[k..], rest)))
  {
    var j := SkipSpaceInString(s, rest);
    k := j + 1;
    TailFirst(s[j..], rest);
    if k <= |s| {
      assert s[j..][1..] == s[k..];
    }
  }

  lemma NoKeyInString(s: string, rest: string, key: string)
    requires key != "" && (rest == "" || rest[0] != key[0])
    ensures Token(Tail(s, rest), "\"" + key) == None
  {
    var k := SkipSpaceInString(s, rest);
    TailFirst(s[k..], rest);
    assert ("\"" + key)[0] == '"' && ("\"" + key)[1] == key[0];
  }

  /** No match starts inside a string literal whose closing quote is not followed by `_`. */
  lemma NoMatchInString(s: string, rest: string)
    ensures SkipsStrings(MatchPlaceholder, s, rest)
  {
    if rest == "" || rest[0] != '_' {
      var k := TokenInString(s, rest, ',');
      if Token(Tail(s, rest), ",").Some? {
        var k1 := TokenInString(s[k..], rest, '{');
        if Token(Tail(s[k..], rest), "{").Some? {
          NoKeyInString(s[k..][k1..], rest, KEY_PLACEHOLDER + "\"");
          assert Quoted(KEY_PLACEHOLDER) == "\"" + (KEY_PLACEHOLDER + "\"");
        }
      }
    }
  }

  /** A token at the very start of the text. */
  lemma TokenHere(lit: string, rest: string)
    requires lit != "" && !IsSpace(lit[0])
    ensures Token(lit + rest, lit) == Some(rest)
  {
    assert SkipSpace(lit + rest) == lit + rest;
    assert (lit + rest)[|lit|..] == rest;
  }

  lemma TokenNotHere(b: string, lit: string)
    requires b != "" && lit != "" && !IsSpace(b[0]) && b[0] != lit[0]
    ensures Token(b, lit) == None
  {
  }

  /** A plain word is a prefix of a string literal's text only if it is the whole string. */
  lemma {:induction false} WordInString(s: string, rest: string, word: string)
    requires AllPlain(word)
    ensures word + "\"" <= Tail(s, rest) <==> s == word
  {
    TailFirst(s, rest);
    var w := word + "\"";
    if word == "" {
      if s != "" { assert w[0] != Tail(s, rest)[0]; }
    } else if s == "" {
      assert w[0] != Tail(s, rest)[0];
    } else if IsPlain(s[0]) {
      WordInString(s[1..], rest, word[1..]);
      assert w[1..] == word[1..] + "\"";
      PrefixStep(w, Tail(s, rest));
      assert s == word <==> s[0] == word[0] && s[1..] == word[1..] by {
        assert s == [s[0]] + s[1..] && word == [word[0]] + word[1..];
      }
    } else {
      assert w[0] == word[0] != '\\';
      assert s[0] != word[0];
    }
  }

  lemma PrefixStep(a: string, b: string)
    requires a != "" && b != ""
    ensures a <= b <==> a[0] == b[0] && a[1..] <= b[1..]
  {
    if a[0] == b[0] && a[1..] <= b[1..] {
      assert forall i | 1 <= i < |a| :: a[i] == a[1..][i - 1] == b[1..][i - 1] == b[i];
    }
    if a <= b {
      assert forall i | 0 <= i < |a| - 1 :: a[1..][i] == a[i + 1] == b[i + 1] == b[1..][i];
    }
  }

  /** A quoted key of the pattern meets a quoted string of the text. */
  lemma KeyToken(s: string, rest: string, key: string)
    requires AllPlain(key)
    ensures Token(Quote(s) + rest, Quoted(key)) == if s == key then Some(rest) else None
  {
    var lit := Quoted(key);
    var b := Quote(s) + rest;
    assert b == "\"" + Tail(s, rest);
    assert lit[1..] == key + "\"" && b[1..] == Tail(s, rest);
    PrefixStep(lit, b);
    WordInString(s, rest, key);
    if s == key {
      PlainEscape(key);
      assert b == lit + rest;
      TokenHere(lit, rest);
    }
  }

  lemma {:induction false} PlainEscape(s: string)
    requires AllPlain(s)
    ensures Escape(s) == s
  {
    if s != "" {
      PlainEscape(s[1..]);
      assert s == [s[0]] + s[1..];
    }
  }

  /** The pattern's `true` meets the text of a value. */
  lemma TrueToken(v: Value, rest: string)
    ensures Token(Render(v) + rest, "true") == if v == Bool(true) then Some(rest) else None
  {
    if v == Bool(true) {
      TokenHere("true", rest);
    } else {
      TokenNotHere(Render(v) + rest, "true");
    }
  }

  lemma {:induction false} SkipDigitsOver(t: string, rest: string)
    requires rest == "" || !IsDigit(rest[0])
    ensures AllDigits(t) ==> SkipDigits(t + rest) == rest
    ensures !AllDigits(t) ==> exists i | 0 <= i < |t| && !IsDigit(t[i]) :: SkipDigits(t + rest) == t[i..] + rest
  {
    if t == "" {
      assert t + rest == rest;
    } else if IsDigit(t[0]) {
      SkipDigitsOver(t[1..], rest);
      assert (t + rest)[1..] == t[1..] + rest;
      if AllDigits(t[1..]) {
        assert forall i | 1 <= i < |t| :: t[i] == t[1..][i - 1];
      } else {
        var i :| 0 <= i < |t[1..]| && !IsDigit(t[1..][i]) && SkipDigits(t[1..] + rest) == t[1..][i..] + rest;
        assert t[1..][i..] == t[i + 1..];
        assert !IsDigit(t[i + 1]);
      }
    } else {
      assert t[0..] == t;
    }
  }

  /** `\d*?\s*\}` meets the text of a value and what follows it in an object. */
  lemma NumToken(v: Value, rest: string)
    requires rest != "" && rest[0] in ",}"
    ensures Token(SkipDigits(SkipSpace(Render(v) + rest)), "}")
         == if v.Number? && AllDigits(v.text) && rest[0] == '}' then Some(rest[1..]) else None
  {
    var t := Render(v);
    assert SkipSpace(t + rest) == t + rest;
    if v.Number? {
      NumberToken(t, rest);
    } else {
      assert !IsDigit(t[0]);
      TokenNotHere(t + rest, "}");
    }
  }

  lemma NumberToken(t: NumberText, rest: string)
    requires rest != "" && rest[0] in ",}"
    ensures Token(SkipDigits(t + rest), "}") == if AllDigits(t) && rest[0] == '}' then Some(rest[1..]) else None
  {
    SkipDigitsOver(t, rest);
    if !AllDigits(t) {
      var i :| 0 <= i < |t| && !IsDigit(t[i]) && SkipDigits(t + rest) == t[i..] + rest;
      TokenNotHere(t[i..] + rest, "}");
    } else if rest[0] == '}' {
      assert rest == "}" + rest[1..];
      TokenHere("}", rest[1..]);
    }
  }

  lemma MemberText(m: Member, rest: string)
    ensures RenderMember(m) + rest == Quote(m.key) + (":" + (Render(m.value) + rest))
  {
    Regroup(Quote(m.key), ":", Render(m.value), rest);
  }

  /** The members of a hole after its first one. */
  predicate IsNum(members: seq<Member>) {
    && |members| == 1 && members[0].key == KEY_NUM
    && members[0].value.Number? && AllDigits(members[0].value.text)
  }

  lemma HoleParts(members: seq<Member>)
    requires members != []
    ensures IsHole(Obj(members))
       <==> members[0].key == KEY_PLACEHOLDER && members[0].value == Bool(true) && IsNum(members[1..])
  {
  }

  /** The pattern from its second comma, over the members that follow the first. */
  lemma NumMatch(members: seq<Member>, rest: string)
    requires rest != "" && rest[0] in ",]"
    ensures MatchNum(RenderMoreMembers(members) + rest) == if IsNum(members) then Some(rest) else None
  {
    if members == [] {
      NumMatchEnd(rest);
    } else {
      var m, more := members[0], RenderMoreMembers(members[1..]) + rest;
      MoreMembersText(members, rest);
      NumKeyMatch(m, more);
    }
  }

  lemma NumMatchEnd(rest: string)
    ensures MatchNum("}" + rest) == None
  {
    TokenNotHere("}" + rest, ",");
  }

  lemma MoreMembersText(members: seq<Member>, rest: string)
    requires members != [] && rest != "" && !IsSpace(rest[0])
    ensures var more := RenderMoreMembers(members[1..]) + rest;
      && RenderMoreMembers(members) + rest == "," + (RenderMember(members[0]) + more)
      && (more[0] == '}' <==> |members| == 1)
      && (|members| == 1 ==> SkipSpace(more[1..]) == rest)
  {
    assert ("}" + rest)[1..] == rest;
    Regroup(",", RenderMember(members[0]), RenderMoreMembers(members[1..]), rest);
  }

  lemma NumKeyMatch(m: Member, more: string)
    requires more != "" && more[0] in ",}"
    ensures MatchNum("," + (RenderMember(m) + more))
         == if m.key == KEY_NUM && m.value.Number? && AllDigits(m.value.text) && more[0] == '}'
            then Some(SkipSpace(more[1..])) else None
  {
    TokenHere(",", RenderMember(m) + more);
    MemberText(m, more);
    KeyToken(m.key, ":" + (Render(m.value) + more), KEY_NUM);
    TokenHere(":", Render(m.value) + more);
    NumToken(m.value, more);
  }

  /** The whole pattern at the comma before a list element. */
  lemma ItemMatch(v: Value, rest: string)
    requires rest != "" && rest[0] in ",]"
    ensures MatchPlaceholder("," + Render(v) + rest) == if IsHole(v) then Some(rest) else None
  {
    var t := Render(v) + rest;
    assert "," + Render(v) + rest == "," + t;
    TokenHere(",", t);
    ObjectToken(v, rest);
    if v.Obj? {
      MembersMatch(v.members, rest);
    }
  }

  lemma ObjectToken(v: Value, rest: string)
    ensures Token(Render(v) + rest, "{") == if v.Obj? then Some(RenderMembers(v.members) + rest) else None
  {
    if v.Obj? {
      var t := RenderMembers(v.members);
      assert "{" + t + rest == "{" + (t + rest);
      TokenHere("{", t + rest);
    } else {
      TokenNotHere(Render(v) + rest, "{");
    }
  }

  lemma MembersMatch(members: seq<Member>, rest: string)
    requires rest != "" && rest[0] in ",]"
    ensures MatchKeys(RenderMembers(members) + rest) == if IsHole(Obj(members)) then Some(rest) else None
  {
    var b := RenderMembers(members) + rest;
    if members == [] {
      TokenNotHere(b, Quoted(KEY_PLACEHOLDER));
    } else {
      var more := RenderMoreMembers(members[1..]) + rest;
      CatAssoc(RenderMember(members[0]), RenderMoreMembers(members[1..]), rest);
      FirstKeyMatch(members[0], more);
      NumMatch(members[1..], rest);
      HoleParts(members);
    }
  }

  lemma FirstKeyMatch(m: Member, more: string)
    ensures MatchKeys(RenderMember(m) + more)
         == if m.key == KEY_PLACEHOLDER && m.value == Bool(true) then MatchNum(more) else None
  {
    var value := ":" + (Render(m.value) + more);
    MemberText(m, more);
    FirstKey(m.key, value);
    FirstValueMatch(m.value, more);
  }

  lemma FirstKey(key: string, value: string)
    ensures MatchKeys(Quote(key) + value) == if key == KEY_PLACEHOLDER then MatchTrue(value) else None
  {
    KeyMatch(KEY_PLACEHOLDER, key, value);
  }

  lemma KeyMatch(wanted: string, key: string, value: string)
    requires AllPlain(wanted)
    ensures MatchKey(wanted, Quote(key) + value) == if key == wanted then MatchTrue(value) else None
  {
    KeyToken(key, value, wanted);
  }

  lemma FirstValueMatch(v: Value, more: string)
    ensures MatchTrue(":" + (Render(v) + more)) == if v == Bool(true) then MatchNum(more) else None
  {
    TokenHere(":", Render(v) + more);
    TrueToken(v, more);
  }

  lemma PlaceholderMatchesHoles()
    ensures MatchesHoles(MatchPlaceholder)
  {
    forall b ensures SkipsMembers(MatchPlaceholder, b) {
      TokenHere(",", "\"" + b);
      assert ",\"" + b == "," + ("\"" + b);
    }
    forall s, rest ensures SkipsStrings(MatchPlaceholder, s, rest) {
      NoMatchInString(s, rest);
    }
    forall v, rest ensures CutsHoles(MatchPlaceholder, v, rest) {
      if rest != "" && rest[0] in ",]" { ItemMatch(v, rest); }
    }
  }

  /**
   * Meaning of extractAttachments: on the text of any JSON value, deleting the matches of
   * placeholderExp yields the text of the value without its non-leading holes, and counts them.
   */
  lemma StripIsPrune(v: Value, rest: string)
    requires rest == "" || rest == "\n"
    ensures Strip(Render(v) + rest) == Stripped(Holes(v), Render(Prune(v)) + rest)
  {
    PlaceholderMatchesHoles();
    StripValue(MatchPlaceholder, v, rest);
  }
}
