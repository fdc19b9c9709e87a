/** The two patterns of the default codec as regular expressions, and the recognisers as their matchers. */
module Regexp {
  import opened Common
  import opened Json
  import opened Placeholder

  datatype Class = Space | Digit | NotQuote
  {
    predicate Has(c: char) {
      match this
      case Space => IsSpace(c)
      case Digit => IsDigit(c)
      case NotQuote => c != '"'
    }
  }

  /** The classes character by character, as RE2 defines them for ASCII. */
  lemma ClassIs(c: char)
    ensures Space.Has(c) <==> c as int in {9, 10, 12, 13, 32}
    ensures Digit.Has(c) <==> 48 <= c as int <= 57
    ensures NotQuote.Has(c) <==> c as int != 34
  {
  }

  /** A literal, one or any number of characters of a class, or a literal that may be absent. */
  datatype Item = Lit(s: string) | One(class_: Class) | Star(class_: Class) | Opt(s: string)

  type Pattern = seq<Item>

  /** The language of a pattern. */
  predicate Matches(p: Pattern, s: string)
    decreases |p|, |s|
  {
    if p == [] then s == ""
    else match p[0]
      case Lit(l) => l <= s && Matches(p[1..], s[|l|..])
      case One(c) => s != "" && c.Has(s[0]) && Matches(p[1..], s[1..])
      case Opt(l) => Matches(p[1..], s) || (l <= s && Matches(p[1..], s[|l|..]))
      case Star(c) => Matches(p[1..], s) || (s != "" && c.Has(s[0]) && Matches(p, s[1..]))
  }

  function SkipClass(c: Class, b: string): (r: string)
    ensures |r| <= |b|
  {
    match c
    case Space => SkipSpace(b)
    case Digit => SkipDigits(b)
    case NotQuote => b[QuoteFreeRun(b)..]
  }

  /** Take every class run as far as it goes; what is left after the pattern. */
  function Greedy(p: Pattern, b: string): (r: Option<string>)
    ensures r.Some? ==> |r.value| <= |b|
    decreases |p|
  {
    if p == [] then Some(b)
    else match p[0]
      case Lit(l) => if l <= b then Greedy(p[1..], b[|l|..]) else None
      case One(c) => if b != "" && c.Has(b[0]) then Greedy(p[1..], b[1..]) else None
      case Opt(l) => Greedy(p[1..], if l <= b then b[|l|..] else b)
      case Star(c) => Greedy(p[1..], SkipClass(c, b))
  }

  /** No literal that the pattern can start with begins with a character of the class. */
  predicate StartsOutside(p: Pattern, c: Class) {
    p == [] || match p[0]
               case Lit(l) => l != "" && !c.Has(l[0])
               case One(_) => false
               case Opt(l) => l != "" && !c.Has(l[0]) && StartsOutside(p[1..], c)
               case Star(_) => StartsOutside(p[1..], c)
  }

  /** Every class run is followed by something it cannot swallow; what may be absent comes last. */
  predicate Deterministic(p: Pattern) {
    p == [] || (Deterministic(p[1..]) && match p[0]
                                          case Lit(l) => l != ""
                                          case One(_) => true
                                          case Opt(l) => l != "" && p[1..] == []
                                          case Star(c) => StartsOutside(p[1..], c))
  }

  /** A leading character of the class can be dropped: only a run can have taken it. */
  lemma {:induction false} DropFirst(p: Pattern, c: Class, m: string)
    requires StartsOutside(p, c) && Matches(p, m) && m != "" && c.Has(m[0])
    ensures Matches(p, m[1..])
    decreases |p|
  {
    if (p[0].Star? || p[0].Opt?) && Matches(p[1..], m) {
      DropFirst(p[1..], c, m);
    }
  }

  lemma {:induction false} EmptyThenAll(p: Pattern, b: string)
    requires Deterministic(p) && Matches(p, "")
    ensures Greedy(p, b).Some?
    decreases |p|
  {
    if p != [] && p[0].Star? {
      EmptyThenAll(p[1..], SkipClass(p[0].class_, b));
    }
  }

  lemma SkipOne(c: Class, b: string)
    requires b != ""
    ensures SkipClass(c, b) == if c.Has(b[0]) then SkipClass(c, b[1..]) else b
  {
    if c == NotQuote && b[0] != '"' {
      assert b[QuoteFreeRun(b)..] == b[1..][QuoteFreeRun(b[1..])..];
    }
  }

  lemma SkipNone(c: Class)
    ensures SkipClass(c, "") == ""
  {
  }

  /** If any prefix matches, the greedy reading succeeds and consumes at least as much. */
  lemma {:induction false} GreedyLongest(p: Pattern, m: string, b: string)
    requires Deterministic(p) && Matches(p, m) && m <= b
    ensures Greedy(p, b).Some? && |m| + |Greedy(p, b).value| <= |b|
    decreases |p|, |m|
  {
    if p != [] {
      match p[0]
      case Lit(l) => GreedyLongest(p[1..], m[|l|..], b[|l|..]);
      case One(c) => GreedyLongest(p[1..], m[1..], b[1..]);
      case Opt(l) =>
        if !Matches(p[1..], m) {
          assert m[|l|..] == "" && |m| == |l| && l <= b;
        }
      case Star(c) => LongestRun(p, c, m, b);
    }
  }

  lemma {:induction false} LongestRun(p: Pattern, c: Class, m: string, b: string)
    requires Deterministic(p) && p != [] && p[0] == Star(c) && Matches(p, m) && m <= b
    ensures Greedy(p, b).Some? && |m| + |Greedy(p, b).value| <= |b|
    decreases |p|, |m|, 0
  {
    if b == "" {
      SkipNone(c);
    } else {
      SkipOne(c, b);
    }
    if m == "" {
      EmptyThenAll(p[1..], SkipClass(c, b));
    } else if c.Has(b[0]) {
      if Matches(p[1..], m) { DropFirst(p[1..], c, m); }
      GreedyLongest(p, m[1..], b[1..]);
    } else {
      GreedyLongest(p[1..], m, b);
    }
  }

  /** What the greedy reading leaves is the end of the text, and what comes before it is matched. */
  predicate Reads(p: Pattern, b: string, r: string) {
    |r| <= |b| && Taken(p, b, |r|) && b[|b| - |r|..] == r
  }

  lemma {:induction false} GreedyMatches(p: Pattern, b: string)
    requires Greedy(p, b).Some?
    ensures Reads(p, b, Greedy(p, b).value)
    decreases |p|, |b|, 1
  {
    if p == [] {
      assert b[..|b| - |b|] == "";
    } else {
      var r := Greedy(p, b).value;
      match p[0]
      case Lit(l) =>
        GreedyMatches(p[1..], b[|l|..]);
        ReadsMore(p, |l|, b, r);
      case Opt(l) =>
        if l <= b {
          GreedyMatches(p[1..], b[|l|..]);
          ReadsMore(p, |l|, b, r);
        } else {
          GreedyMatches(p[1..], b);
        }
      case One(c) =>
        GreedyMatches(p[1..], b[1..]);
        ReadsMore(p, 1, b, r);
      case Star(c) => RunMatches(p, c, b);
    }
  }

  lemma {:induction false} RunMatches(p: Pattern, c: Class, b: string)
    requires p != [] && p[0] == Star(c) && Greedy(p, b).Some?
    ensures Reads(p, b, Greedy(p, b).value)
    decreases |p|, |b|, 0
  {
    if b == "" {
      SkipNone(c);
      GreedyMatches(p[1..], b);
    } else {
      SkipOne(c, b);
      if c.Has(b[0]) {
        RunMatches(p, c, b[1..]);
        RunReadsMore(p, b, Greedy(p, b).value);
      } else {
        GreedyMatches(p[1..], b);
      }
    }
  }

  lemma ReadsMore(p: Pattern, k: nat, b: string, r: string)
    requires p != [] && k <= |b| && Reads(p[1..], b[k..], r)
    requires match p[0]
             case Lit(l) => l <= b && k == |l|
             case Opt(l) => l <= b && k == |l|
             case One(c) => b != "" && k == 1 && c.Has(b[0])
             case Star(_) => false
    ensures Reads(p, b, r)
  {
    assert b[..|b| - |r|][k..] == b[k..][..|b| - k - |r|];
    assert b[|b| - |r|..] == b[k..][|b| - k - |r|..];
  }

  lemma RunReadsMore(p: Pattern, b: string, r: string)
    requires p != [] && p[0].Star? && b != "" && p[0].class_.Has(b[0]) && Reads(p, b[1..], r)
    ensures Reads(p, b, r)
  {
    assert b[..|b| - |r|][1..] == b[1..][..|b| - 1 - |r|];
    assert b[|b| - |r|..] == b[1..][|b| - 1 - |r|..];
  }

  /** All but the last `n` characters are matched. */
  predicate Taken(p: Pattern, b: string, n: nat) {
    n <= |b| && Matches(p, b[..|b| - n])
  }

  // ---- placeholderExp ----

  function Tok(l: string): Pattern {
    [Star(Space), Lit(l)]
  }

  /** The pattern, item by item as written. */
  const PLACEHOLDER_EXP: Pattern :=
    Tok(",") + (Tok("{") + KEYS_EXP)

  const KEYS_EXP: Pattern :=
    Tok(Quoted(KEY_PLACEHOLDER)) + (Tok(":") + (Tok("true") + NUM_EXP))

  const NUM_EXP: Pattern :=
    Tok(",") + NUM_KEY_EXP

  const NUM_KEY_EXP: Pattern :=
    Tok(Quoted(KEY_NUM)) + (Tok(":") + ([Star(Space), Star(Digit)] + (Tok("}") + [Star(Space)])))

  lemma GreedyTok(l: string, p: Pattern, b: string)
    ensures Greedy(Tok(l) + p, b) == match Token(b, l) case None => None case Some(r) => Greedy(p, r)
  {
    var q := Tok(l) + p;
    assert q[1..] == [Lit(l)] + p && q[1..][1..] == p;
  }

  lemma GreedyNumber(p: Pattern, b: string)
    ensures Greedy([Star(Space), Star(Digit)] + p, b) == Greedy(p, SkipDigits(SkipSpace(b)))
  {
    var q := [Star(Space), Star(Digit)] + p;
    assert q[1..] == [Star(Digit)] + p && q[1..][1..] == p;
  }

  lemma GreedyEnd(b: string)
    ensures Greedy([Star(Space)], b) == Some(SkipSpace(b))
  {
    assert [Star(Space)][1..] == [];
  }

  lemma NumKeyIsGreedy(b: string)
    ensures MatchNumKey(b) == Greedy(NUM_KEY_EXP, b)
  {
    var p2 := Tok("}") + [Star(Space)];
    var p1 := [Star(Space), Star(Digit)] + p2;
    GreedyTok(Quoted(KEY_NUM), Tok(":") + p1, b);
    var r1 := Token(b, Quoted(KEY_NUM));
    if r1.Some? {
      GreedyTok(":", p1, r1.value);
      var r2 := Token(r1.value, ":");
      if r2.Some? {
        GreedyNumber(p2, r2.value);
        var r3 := SkipDigits(SkipSpace(r2.value));
        GreedyTok("}", [Star(Space)], r3);
        if Token(r3, "}").Some? { GreedyEnd(Token(r3, "}").value); }
      }
    }
  }

  lemma KeysIsGreedy(b: string)
    ensures MatchKeys(b) == Greedy(KEYS_EXP, b)
  {
    var key := Quoted(KEY_PLACEHOLDER);
    GreedyTok(key, Tok(":") + (Tok("true") + NUM_EXP), b);
    if Token(b, key).Some? {
      var b1 := Token(b, key).value;
      GreedyTok(":", Tok("true") + NUM_EXP, b1);
      if Token(b1, ":").Some? {
        var b2 := Token(b1, ":").value;
        GreedyTok("true", NUM_EXP, b2);
        if Token(b2, "true").Some? { NumIsGreedy(Token(b2, "true").value); }
      }
    }
  }

  lemma NumIsGreedy(b: string)
    ensures MatchNum(b) == Greedy(NUM_EXP, b)
  {
    GreedyTok(",", NUM_KEY_EXP, b);
    if Token(b, ",").Some? { NumKeyIsGreedy(Token(b, ",").value); }
  }

  lemma RecogniserIsGreedy(b: string)
    ensures MatchPlaceholder(b) == Greedy(PLACEHOLDER_EXP, b)
  {
    GreedyTok(",", Tok("{") + KEYS_EXP, b);
    if Token(b, ",").Some? {
      var b1 := Token(b, ",").value;
      GreedyTok("{", KEYS_EXP, b1);
      if Token(b1, "{").Some? { KeysIsGreedy(Token(b1, "{").value); }
    }
  }

  lemma TokDeterministic(l: string, p: Pattern)
    requires l != "" && !IsSpace(l[0]) && Deterministic(p)
    ensures Deterministic(Tok(l) + p)
  {
    var q := Tok(l) + p;
    assert q[1..] == [Lit(l)] + p && q[1..][1..] == p;
    assert Deterministic(q[1..]);
  }

  lemma NumberDeterministic(p: Pattern)
    requires Deterministic(p) && StartsOutside(p, Digit) && StartsOutside(p, Space)
    ensures Deterministic([Star(Space), Star(Digit)] + p)
  {
    var q := [Star(Space), Star(Digit)] + p;
    assert q[1..] == [Star(Digit)] + p && q[1..][1..] == p;
    assert Deterministic(q[1..]);
  }

  lemma NumKeyDeterministic()
    ensures Deterministic(NUM_KEY_EXP)
  {
    var end := [Star(Space)];
    assert end[1..] == [] && Deterministic(end);
    TokDeterministic("}", end);
    var p := Tok("}") + end;
    assert p[1..][0] == Lit("}");
    NumberDeterministic(p);
    TokDeterministic(":", [Star(Space), Star(Digit)] + p);
    TokDeterministic(Quoted(KEY_NUM), Tok(":") + ([Star(Space), Star(Digit)] + p));
  }

  lemma KeysDeterministic()
    ensures Deterministic(KEYS_EXP)
  {
    NumKeyDeterministic();
    TokDeterministic(",", NUM_KEY_EXP);
    TokDeterministic("true", NUM_EXP);
    TokDeterministic(":", Tok("true") + NUM_EXP);
    TokDeterministic(Quoted(KEY_PLACEHOLDER), Tok(":") + (Tok("true") + NUM_EXP));
  }

  lemma PatternDeterministic()
    ensures Deterministic(PLACEHOLDER_EXP)
  {
    KeysDeterministic();
    TokDeterministic("{", KEYS_EXP);
    TokDeterministic(",", Tok("{") + KEYS_EXP);
  }

  /** `rest` is what the longest match at the start of `b` leaves. */
  predicate LongestMatch(p: Pattern, b: string, rest: string) {
    |rest| <= |b| &&
    var n := |b| - |rest|;
    && Matches(p, b[..n]) && b[n..] == rest
    && (forall k | n < k <= |b| :: !Matches(p, b[..k]))
  }

  /** Some prefix of `b` is in the language. */
  predicate Found(p: Pattern, b: string) {
    exists k :: 0 <= k <= |b| && Matches(p, b[..k])
  }

  lemma GreedyFindsAll(p: Pattern, b: string, k: nat)
    requires Deterministic(p) && k <= |b| && Matches(p, b[..k])
    ensures Greedy(p, b).Some? && k + |Greedy(p, b).value| <= |b|
  {
    assert b[..k] <= b;
    GreedyLongest(p, b[..k], b);
  }

  /** A deterministic pattern's greedy reading finds a match if there is one, and the longest. */
  lemma GreedyIsRegexp(p: Pattern, b: string)
    requires Deterministic(p)
    ensures Greedy(p, b).Some? <==> Found(p, b)
    ensures Greedy(p, b).Some? ==> LongestMatch(p, b, Greedy(p, b).value)
  {
    forall k: nat | k <= |b| && Matches(p, b[..k])
      ensures Greedy(p, b).Some? && k + |Greedy(p, b).value| <= |b|
    {
      GreedyFindsAll(p, b, k);
    }
    if Greedy(p, b).Some? {
      GreedyMatches(p, b);
    }
  }

  /**
   * The recogniser is the regular expression: it finds a match at the start of the text exactly
   * when some prefix is in the pattern's language, and then consumes the longest such prefix.
   * Only the white space at the pattern's end leaves a choice of length, and it is greedy.
   */
  lemma RecogniserIsRegexp(b: string)
    ensures MatchPlaceholder(b).Some? <==> Found(PLACEHOLDER_EXP, b)
    ensures MatchPlaceholder(b).Some? ==> LongestMatch(PLACEHOLDER_EXP, b, MatchPlaceholder(b).value)
  {
    RecogniserIsGreedy(b);
    PatternDeterministic();
    GreedyIsRegexp(PLACEHOLDER_EXP, b);
  }

  // ---- eventExp ----

  const AFTER_NAME: Pattern := [Lit("\""), Star(Space), Opt(",")]

  /** The pattern, item by item as written; `+` is one character and then any number. */
  const EVENT_EXP: Pattern := [Lit("[")] + (Tok("\"") + ([One(NotQuote), Star(NotQuote)] + AFTER_NAME))

  lemma GreedyAfterName(b: string)
    ensures Greedy(AFTER_NAME, b)
         == if b != "" && b[0] == '"' then Some(DropComma(SkipSpace(b[1..]))) else None
  {
    var p := AFTER_NAME;
    assert p[1..] == [Star(Space), Opt(",")] && p[1..][1..] == [Opt(",")] && p[1..][1..][1..] == [];
  }

  lemma GreedyName(b: string)
    ensures Greedy([One(NotQuote), Star(NotQuote)] + AFTER_NAME, b)
         == var k := QuoteFreeRun(b); if k == 0 || k == |b| then None else Some(DropComma(SkipSpace(b[k + 1..])))
  {
    var p := [One(NotQuote), Star(NotQuote)] + AFTER_NAME;
    assert p[1..] == [Star(NotQuote)] + AFTER_NAME && p[1..][1..] == AFTER_NAME;
    var k := QuoteFreeRun(b);
    if k > 0 {
      SkipOne(NotQuote, b);
      GreedyAfterName(b[k..]);
      if k < |b| { assert b[k..][1..] == b[k + 1..]; }
    }
  }

  /** What eventExp leaves of the text, from the recogniser's result. */
  function Left(r: Option<(string, string)>): Option<string> {
    match r case None => None case Some((_, data)) => if data == "" then None else Some(data[1..])
  }

  lemma EventIsGreedy(b: string)
    ensures Left(ExtractEvent(b)) == Greedy(EVENT_EXP, b)
    ensures ExtractEvent(b).Some? ==> ExtractEvent(b).value.1 != ""
  {
    var name := [One(NotQuote), Star(NotQuote)] + AFTER_NAME;
    assert EVENT_EXP[1..] == Tok("\"") + name;
    if b != "" && b[0] == '[' {
      GreedyTok("\"", name, b[1..]);
      var inner := Token(b[1..], "\"");
      if inner.Some? {
        GreedyName(inner.value);
        NameLeft(inner.value);
      }
    }
  }

  lemma NameLeft(inner: string)
    ensures var k := QuoteFreeRun(inner);
      Left(NameAndRest(inner)) == if k == 0 || k == |inner| then None else Some(DropComma(SkipSpace(inner[k + 1..])))
    ensures NameAndRest(inner).Some? ==> NameAndRest(inner).value.1 != ""
  {
    var k := QuoteFreeRun(inner);
    if 0 < k < |inner| {
      var left := DropComma(SkipSpace(inner[k + 1..]));
      assert ("[" + left)[1..] == left;
    }
  }

  lemma EventDeterministic()
    ensures Deterministic(EVENT_EXP)
  {
    var p := AFTER_NAME;
    assert p[1..] == [Star(Space), Opt(",")] && p[1..][1..] == [Opt(",")] && p[1..][1..][1..] == [];
    assert Deterministic(p[1..][1..]) && Deterministic(p[1..]) && Deterministic(p);
    var q := [One(NotQuote), Star(NotQuote)] + p;
    assert q[1..] == [Star(NotQuote)] + p && q[1..][1..] == p;
    assert Deterministic(q[1..]) && Deterministic(q);
    TokDeterministic("\"", q);
    assert EVENT_EXP[1..] == Tok("\"") + q;
  }

  /** `name` stands between the first two quotation marks, after the bracket and white space only. */
  predicate Captures(b: string, name: string) {
    && b != "" && b[0] == '[' && name != "" && '"' !in name
    && var rest := SkipSpace(b[1..]);
    && "\"" + name + "\"" <= rest
  }

  lemma NameIsCaptured(b: string)
    requires ExtractEvent(b).Some?
    ensures Captures(b, ExtractEvent(b).value.0)
  {
    var rest := SkipSpace(b[1..]);
    QuotedFirst(rest, rest[1..], QuoteFreeRun(rest[1..]));
  }

  lemma QuotedFirst(rest: string, inner: string, k: nat)
    requires "\"" <= rest && inner == rest[1..] && k < |inner| && inner[k] == '"'
    ensures "\"" + inner[..k] + "\"" <= rest
  {
    assert "\"" + inner[..k] + "\"" == rest[..k + 2];
  }

  /**
   * extractEvent is the regular expression: it matches exactly when some prefix is in the pattern's
   * language, puts a bracket in the place of the longest such prefix, and returns the text between
   * the quotation marks.
   */
  lemma EventIsRegexp(b: string)
    ensures ExtractEvent(b).Some? <==> Found(EVENT_EXP, b)
    ensures ExtractEvent(b).Some? ==>
      var (name, data) := ExtractEvent(b).value;
      && Captures(b, name)
      && data != "" && data[0] == '[' && LongestMatch(EVENT_EXP, b, data[1..])
  {
    EventIsGreedy(b);
    EventDeterministic();
    GreedyIsRegexp(EVENT_EXP, b);
    if ExtractEvent(b).Some? {
      NameIsCaptured(b);
    }
  }
}
