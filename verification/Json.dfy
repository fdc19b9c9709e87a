/** JSON values and the compact text encoding/json writes for them. */
module Json {
  import opened Common

  /** A JSON number is kept as its text: digits, signs, point and exponent. */
  predicate IsNumberText(t: string) {
    && t != ""
    && (IsDigit(t[0]) || t[0] == '-')
    && forall i | 0 <= i < |t| :: IsDigit(t[i]) || t[i] in "-+.eE"
  }

  type NumberText = t: string | IsNumberText(t) witness "0"

  datatype Value =
    | Null
    | Bool(b: bool)
    | Number(text: NumberText)
    | Str(s: string)
    | Arr(items: seq<Value>)
    | Obj(members: seq<Member>)

  datatype Member = Member(key: string, value: Value)

  /** White space of the regular-expression class `\s`: tab, newline, form feed, return, blank. */
  predicate IsSpace(c: char) {
    c == ' ' || c == '\t' || c == '\n' || c == '\U{0C}' || c == '\r'
  }

  function HexDigit(d: nat): char
    requires d < 16
  {
    if d < 10 then (d + '0' as int) as char else (d - 10 + 'a' as int) as char
  }

  /** An ASCII character that the encoder copies into a string literal unchanged. */
  predicate IsPlain(c: char) {
    ' ' <= c && c as int < 0x80 && c != '"' && c != '\\' && c != '<' && c != '>' && c != '&'
  }

  predicate AllPlain(s: string) {
    forall i | 0 <= i < |s| :: IsPlain(s[i])
  }

  // ---- UTF-8, as utf8.DecodeRuneInString reads it; one char is one byte ----

  predicate Within(c: char, low: int, high: int) {
    low <= c as int <= high
  }

  /** The second byte of a sequence of three or four bytes that starts with `b`. */
  predicate IsSecond(b: int, c: char) {
    Within(c, if b == 0xE0 then 0xA0 else if b == 0xF0 then 0x90 else 0x80,
              if b == 0xED then 0x9F else if b == 0xF4 then 0x8F else 0xBF)
  }

  /** One byte, or the bytes of a character beyond ASCII. */
  predicate IsRune(u: string) {
    u != "" && (|u| == 1 || forall i | 0 <= i < |u| :: u[i] as int >= 0x80)
  }

  /** How many bytes the first character takes; 1 also for a byte that starts no valid sequence. */
  function RuneSize(s: string): (k: nat)
    requires s != ""
    ensures k <= |s| && IsRune(s[..k]) && (s[0] as int < 0x80 ==> k == 1)
  {
    var b := s[0] as int;
    if 0xC2 <= b <= 0xDF && |s| >= 2 && Within(s[1], 0x80, 0xBF) then 2
    else if 0xE0 <= b <= 0xEF && |s| >= 3 && IsSecond(b, s[1]) && Within(s[2], 0x80, 0xBF) then 3
    else if 0xF0 <= b <= 0xF4 && |s| >= 4 && IsSecond(b, s[1]) && Within(s[2], 0x80, 0xBF)
            && Within(s[3], 0x80, 0xBF) then 4
    else 1
  }

  /** The line separator U+2028 and the paragraph separator U+2029. */
  predicate IsSeparator(u: string) {
    |u| == 3 && u[0] == '\U{E2}' && u[1] == '\U{80}' && (u[2] == '\U{A8}' || u[2] == '\U{A9}')
  }

  /** A character that is copied: plain ASCII, or a valid sequence other than the two separators. */
  predicate IsPlainRune(u: string)
    requires IsRune(u)
  {
    if |u| == 1 then IsPlain(u[0]) else !IsSeparator(u)
  }

  /** A string that is written as it is. */
  predicate Verbatim(s: string) {
    s == "" || (IsPlainRune(s[..RuneSize(s)]) && Verbatim(s[RuneSize(s)..]))
  }

  /** How encoding/json writes one byte that is not part of a longer sequence (HTML escaping on). */
  function EscapeChar(c: char): (e: string)
    ensures IsPlain(c) ==> e == [c]
    ensures !IsPlain(c) ==> |e| >= 2 && e[0] == '\\'
    ensures forall i | 1 <= i < |e| :: !IsSpace(e[i]) && e[i] != ','
    ensures c != '"' ==> '"' !in e
  {
    if IsPlain(c) then [c]
    else if c as int >= 0x80 then "\\ufffd"
    else if c == '"' || c == '\\' then ['\\', c]
    else if c == '\n' then "\\n"
    else if c == '\r' then "\\r"
    else if c == '\t' then "\\t"
    else "\\u00" + [HexDigit(c as int / 16), HexDigit(c as int % 16)]
  }

  function EscapeRune(u: string): (e: string)
    requires IsRune(u)
    ensures e != "" && (if IsPlainRune(u) then e == u else |e| > |u| && e[0] == '\\')
    ensures forall i | 1 <= i < |e| :: !IsSpace(e[i]) && e[i] != ','
    ensures '"' !in u ==> '"' !in e
  {
    if |u| == 1 then EscapeChar(u[0])
    else if IsSeparator(u) then "\\u202" + [if u[2] == '\U{A8}' then '8' else '9']
    else u
  }

  function Escape(s: string): string {
    if s == "" then "" else EscapeRune(s[..RuneSize(s)]) + Escape(s[RuneSize(s)..])
  }

  function Quote(s: string): string {
    "\"" + Escape(s) + "\""
  }

  function Render(v: Value): (t: string)
    ensures t != "" && !IsSpace(t[0]) && t[0] !in ",]}:_/"
    decreases v, 0
  {
    match v
    case Null => "null"
    case Bool(b) => if b then "true" else "false"
    case Number(text) => text
    case Str(s) => Quote(s)
    case Arr(items) => "[" + RenderItems(items)
    case Obj(members) => "{" + RenderMembers(members)
  }

  /** The elements of a list up to and including its closing bracket. */
  function RenderItems(items: seq<Value>): (t: string)
    ensures t != ""
    decreases items, 1
  {
    if items == [] then "]" else Render(items[0]) + RenderMoreItems(items[1..])
  }

  function RenderMoreItems(items: seq<Value>): (t: string)
    ensures t != "" && t[0] in ",]"
    decreases items, 1
  {
    if items == [] then "]" else "," + Render(items[0]) + RenderMoreItems(items[1..])
  }

  function RenderMembers(members: seq<Member>): (t: string)
    ensures t != ""
    decreases members, 2
  {
    if members == [] then "}" else RenderMember(members[0]) + RenderMoreMembers(members[1..])
  }

  function RenderMoreMembers(members: seq<Member>): (t: string)
    ensures t != "" && t[0] in ",}"
    decreases members, 2
  {
    if members == [] then "}" else "," + RenderMember(members[0]) + RenderMoreMembers(members[1..])
  }

  function RenderMember(m: Member): (t: string)
    decreases m, 1
  {
    Quote(m.key) + ":" + Render(m.value)
  }
}
