/** The msgpack packet path: MarshalMsg, UnmarshalMsg and ParseData. */
module MsgpackPacket {
  import opened Common
  import opened Msgpack

  /** A packet as UnmarshalMsg fills it: `data` is the raw object, nothing until it is read. */
  datatype Packet = Packet(typ: byte, nsp: Bytes, data: Option<Bytes>, id: Option<nat>)

  const BLANK := Packet(0, [], None, None)

  // The four map keys as bytes.
  const KEY_TYPE: Bytes := [0x74, 0x79, 0x70, 0x65]
  const KEY_NSP: Bytes := [0x6e, 0x73, 0x70]
  const KEY_DATA: Bytes := [0x64, 0x61, 0x74, 0x61]
  const KEY_ID: Bytes := [0x69, 0x64]

  const NIL: byte := 0xc0

  // ---- MarshalMsg ----

  function IdBytes(id: Option<nat>): Bytes
    requires id.Some? ==> id.value < TWO64
  {
    match id case None => [NIL] case Some(n) => Uint(n)
  }

  /** MarshalMsg: a map of four keys; `data` is what AppendIntf writes for the packet's data. */
  function Marshal(typ: byte, nsp: Bytes, data: Bytes, id: Option<nat>): Bytes
    requires |nsp| < TWO32 && (id.Some? ==> id.value < TWO64)
  {
    [0x84, 0xa4, 0x74, 0x79, 0x70, 0x65] + Uint(typ)
    + ([0xa3, 0x6e, 0x73, 0x70] + Str(nsp)
    + ([0xa4, 0x64, 0x61, 0x74, 0x61] + data
    + ([0xa2, 0x69, 0x64] + IdBytes(id))))
  }

  // ---- UnmarshalMsg ----

  /** A map key may be a string or binary. */
  function ReadKey(b: Bytes): Option<(Bytes, Bytes)> {
    if b != [] && 0xc4 <= b[0] <= 0xc6 then
      var e :- ExtentOf(b);
      var head := if b[0] == 0xc4 then 2 else if b[0] == 0xc5 then 3 else 5;
      if |b| < e.size then None else Some((b[head..e.size], b[e.size..]))
    else ReadStr(b)
  }

  /** The value of one key: the packet with its field set, and what follows. */
  function ReadField(z: Packet, key: Bytes, b: Bytes): Option<(Packet, Bytes)> {
    if key == KEY_TYPE then
      var (n, rest) :- ReadUint(b);
      if n > 255 then None else Some((z.(typ := n), rest))
    else if key == KEY_NSP then
      var (s, rest) :- ReadStr(b);
      Some((z.(nsp := s), rest))
    else if key == KEY_DATA then
      var rest :- Skip(b, 1);
      Some((z.(data := Some(b[..|b| - |rest|])), rest))
    else if key == KEY_ID then
      if b != [] && b[0] == NIL then Some((z.(id := None), b[1..]))
      else
        var (n, rest) :- ReadUint(b);
        Some((z.(id := Some(n)), rest))
    else
      var rest :- Skip(b, 1);
      Some((z, rest))
  }

  /** One key with its value. */
  function ReadEntry(z: Packet, b: Bytes): Option<(Packet, Bytes)> {
    var (key, b) :- ReadKey(b);
    ReadField(z, key, b)
  }

  function ReadFields(z: Packet, n: nat, b: Bytes): Option<(Packet, Bytes)> {
    FieldsBy(ReadEntry, z, n, b)
  }

  /** One entry after another, whatever reads one of them. */
  function FieldsBy(
    entry: (Packet, Bytes) -> Option<(Packet, Bytes)>, z: Packet, n: nat, b: Bytes): Option<(Packet, Bytes)>
    decreases n
  {
    if n == 0 then Some((z, b))
    else
      var (z, b) :- entry(z, b);
      FieldsBy(entry, z, n - 1, b)
  }

  function Unmarshal(z: Packet, b: Bytes): Option<(Packet, Bytes)> {
    var (n, b) :- ReadHeader(MAPS, b);
    ReadFields(z, n, b)
  }

  /** UnmarshalMsg as written: a loop over the keys that sets fields and advances the input. */
  method UnmarshalMsg(z0: Packet, bts0: Bytes) returns (r: Option<(Packet, Bytes)>)
    ensures r == Unmarshal(z0, bts0)
  {
    var h := ReadHeader(MAPS, bts0);
    if h == None { return None; }
    r := UnmarshalFields(z0, h.value.0, h.value.1);
  }

  method UnmarshalFields(z0: Packet, n0: nat, bts0: Bytes) returns (r: Option<(Packet, Bytes)>)
    ensures r == ReadFields(z0, n0, bts0)
  {
    var z, n, bts := z0, n0, bts0;
    while n > 0
      invariant ReadFields(z0, n0, bts0) == FieldsBy(ReadEntry, z, n, bts)
    {
      var f := UnmarshalEntry(z, bts);
      FieldsStep(ReadEntry, z, n, bts, f);
      if f == None { return None; }
      n := n - 1;
      z, bts := f.value.0, f.value.1;
    }
    r := Some((z, bts));
  }

  method UnmarshalEntry(z: Packet, bts: Bytes) returns (r: Option<(Packet, Bytes)>)
    ensures r == ReadEntry(z, bts)
  {
    var k := ReadKey(bts);
    if k == None { return None; }
    r := ReadField(z, k.value.0, k.value.1);
  }

  lemma FieldsStep(
    entry: (Packet, Bytes) -> Option<(Packet, Bytes)>, z: Packet, n: nat, b: Bytes, f: Option<(Packet, Bytes)>)
    requires n > 0 && f == entry(z, b)
    ensures FieldsBy(entry, z, n, b) == if f == None then None else FieldsBy(entry, f.value.0, n - 1, f.value.1)
  {
  }

  // ---- any map with these keys, in any order ----

  /** A key with its value, as some encoder may write it. */
  datatype Field =
    | TypeField(t: byte)
    | NspField(s: Bytes)
    | DataField(raw: Bytes)
    | IdField(id: Option<nat>)
    | OtherField(name: Bytes, raw: Bytes)
  {
    ghost predicate Valid() {
      match this
      case TypeField(_) => true
      case NspField(s) => |s| < TWO32
      case DataField(raw) => Objects(raw, 1)
      case IdField(id) => id.Some? ==> id.value < TWO64
      case OtherField(name, raw) => |name| < TWO32 && Objects(raw, 1) && name !in [KEY_TYPE, KEY_NSP, KEY_DATA, KEY_ID]
    }

    function Key(): Bytes {
      match this
      case TypeField(_) => KEY_TYPE
      case NspField(_) => KEY_NSP
      case DataField(_) => KEY_DATA
      case IdField(_) => KEY_ID
      case OtherField(name, _) => name
    }

    function Value(): Bytes
      requires Valid()
    {
      match this
      case TypeField(t) => Uint(t)
      case NspField(s) => Str(s)
      case DataField(raw) => raw
      case IdField(id) => IdBytes(id)
      case OtherField(_, raw) => raw
    }

    /** The packet after this field. */
    function Set(z: Packet): Packet {
      match this
      case TypeField(t) => z.(typ := t)
      case NspField(s) => z.(nsp := s)
      case DataField(raw) => z.(data := Some(raw))
      case IdField(id) => z.(id := id)
      case OtherField(_, _) => z
    }

    function Bytes(): Bytes
      requires Valid()
    {
      Str(Key()) + Value()
    }
  }

  ghost predicate AllValid(fs: seq<Field>) {
    forall i | 0 <= i < |fs| :: fs[i].Valid()
  }

  function Body(fs: seq<Field>): Bytes
    requires AllValid(fs)
  {
    if fs == [] then [] else fs[0].Bytes() + Body(fs[1..])
  }

  function SetAll(fs: seq<Field>, z: Packet): Packet {
    if fs == [] then z else SetAll(fs[1..], fs[0].Set(z))
  }

  lemma StrLead(s: Bytes)
    requires |s| < TWO32
    ensures Str(s) != [] && !(0xc4 <= Str(s)[0] <= 0xc6)
  {
  }

  lemma FieldRead(f: Field, z: Packet, rest: Bytes)
    requires f.Valid()
    ensures ReadField(z, f.Key(), f.Value() + rest) == Some((f.Set(z), rest))
  {
    var b := f.Value() + rest;
    match f
    case TypeField(t) => UintRead(t, rest);
    case NspField(s) => StrRead(s, rest);
    case DataField(raw) =>
      SkipObjects(raw, 1, rest);
      assert b[..|raw|] == raw;
    case IdField(id) =>
      if id == None {
        assert b[1..] == rest;
      } else {
        UintRead(id.value, rest);
      }
    case OtherField(_, raw) => SkipObjects(raw, 1, rest);
  }

  lemma FieldKeyRead(f: Field, rest: Bytes)
    requires f.Valid()
    ensures ReadKey(f.Bytes() + rest) == Some((f.Key(), f.Value() + rest))
  {
    CatAssoc(Str(f.Key()), f.Value(), rest);
    StrRead(f.Key(), f.Value() + rest);
    StrLead(f.Key());
  }

  lemma {:induction false} FieldsRead(fs: seq<Field>, z: Packet, rest: Bytes)
    requires AllValid(fs)
    ensures ReadFields(z, |fs|, Body(fs) + rest) == Some((SetAll(fs, z), rest))
    decreases |fs|
  {
    if fs == [] {
      assert [] + rest == rest;
    } else {
      var more := Body(fs[1..]) + rest;
      CatAssoc(fs[0].Bytes(), Body(fs[1..]), rest);
      FieldKeyRead(fs[0], more);
      FieldRead(fs[0], z, more);
      FieldsRead(fs[1..], fs[0].Set(z), rest);
    }
  }

  /** Any map of valid fields is read as setting its fields one after another; nothing else is touched. */
  lemma MapRead(fs: seq<Field>, z: Packet, rest: Bytes)
    requires AllValid(fs) && |fs| < TWO32
    ensures Unmarshal(z, Header(MAPS, |fs|) + Body(fs) + rest) == Some((SetAll(fs, z), rest))
  {
    CatAssoc(Header(MAPS, |fs|), Body(fs), rest);
    HeaderRead(MAPS, |fs|, Body(fs) + rest);
    FieldsRead(fs, z, rest);
  }

  ghost predicate DistinctKeys(fs: seq<Field>) {
    forall i, j | 0 <= i < j < |fs| :: fs[i].Key() != fs[j].Key()
  }

  /** What a field leaves in a packet. */
  ghost predicate Holds(z: Packet, f: Field) {
    match f
    case TypeField(t) => z.typ == t
    case NspField(s) => z.nsp == s
    case DataField(raw) => z.data == Some(raw)
    case IdField(id) => z.id == id
    case OtherField(_, _) => true
  }

  lemma SetKeeps(z: Packet, f: Field, g: Field)
    requires f.Valid() && g.Valid() && Holds(z, f) && g.Key() != f.Key()
    ensures Holds(g.Set(z), f)
  {
  }

  lemma {:induction false} SetAllKeeps(fs: seq<Field>, z: Packet, f: Field)
    requires AllValid(fs) && f.Valid() && Holds(z, f)
    requires forall i | 0 <= i < |fs| :: fs[i].Key() != f.Key()
    ensures Holds(SetAll(fs, z), f)
    decreases |fs|
  {
    if fs != [] {
      SetKeeps(z, f, fs[0]);
      SetAllKeeps(fs[1..], fs[0].Set(z), f);
    }
  }

  /** With distinct keys, whatever their order, every field ends up in the packet. */
  lemma {:induction false} FieldsRecovered(fs: seq<Field>, z: Packet, i: nat)
    requires AllValid(fs) && DistinctKeys(fs) && i < |fs|
    ensures Holds(SetAll(fs, z), fs[i])
    decreases |fs|
  {
    if i == 0 {
      SetAllKeeps(fs[1..], fs[0].Set(z), fs[0]);
    } else {
      FieldsRecovered(fs[1..], fs[0].Set(z), i - 1);
    }
  }

  /**
   * Key order does not matter and unknown keys are skipped: from any map with distinct keys that
   * include the four, in any order, UnmarshalMsg recovers exactly the four values.
   */
  lemma UnmarshalAnyOrder(fs: seq<Field>, z: Packet, rest: Bytes, typ: byte, nsp: Bytes, raw: Bytes, id: Option<nat>)
    requires AllValid(fs) && DistinctKeys(fs) && |fs| < TWO32
    requires TypeField(typ) in fs && NspField(nsp) in fs && DataField(raw) in fs && IdField(id) in fs
    ensures Unmarshal(z, Header(MAPS, |fs|) + Body(fs) + rest) == Some((Packet(typ, nsp, Some(raw), id), rest))
  {
    MapRead(fs, z, rest);
    FieldIn(fs, z, TypeField(typ));
    FieldIn(fs, z, NspField(nsp));
    FieldIn(fs, z, DataField(raw));
    FieldIn(fs, z, IdField(id));
  }

  lemma FieldIn(fs: seq<Field>, z: Packet, f: Field)
    requires AllValid(fs) && DistinctKeys(fs) && f in fs
    ensures Holds(SetAll(fs, z), f)
  {
    var i :| 0 <= i < |fs| && fs[i] == f;
    FieldsRecovered(fs, z, i);
  }

  /** What MarshalMsg writes is such a map. */
  lemma MarshalIsMap(typ: byte, nsp: Bytes, raw: Bytes, id: Option<nat>)
    requires |nsp| < TWO32 && Objects(raw, 1) && (id.Some? ==> id.value < TWO64)
    ensures var fs := [TypeField(typ), NspField(nsp), DataField(raw), IdField(id)];
      AllValid(fs) && Marshal(typ, nsp, raw, id) == Header(MAPS, 4) + Body(fs)
  {
    KeyStrings();
    Body4(TypeField(typ), NspField(nsp), DataField(raw), IdField(id));
    Glue([0x84], Str(KEY_TYPE), [0x84, 0xa4, 0x74, 0x79, 0x70, 0x65], Uint(typ),
         Str(KEY_NSP) + Str(nsp) + (Str(KEY_DATA) + raw + (Str(KEY_ID) + IdBytes(id))));
  }

  lemma Glue(h: Bytes, k: Bytes, hk: Bytes, u: Bytes, more: Bytes)
    requires hk == h + k
    ensures hk + u + more == h + (k + u + more)
  {
    CatAssoc(h, k, u);
    CatAssoc(h, k + u, more);
  }

  lemma Body4(a: Field, b: Field, c: Field, d: Field)
    requires a.Valid() && b.Valid() && c.Valid() && d.Valid()
    ensures Body([a, b, c, d]) == a.Bytes() + (b.Bytes() + (c.Bytes() + d.Bytes()))
  {
    assert [a, b, c, d][1..] == [b, c, d] && [b, c, d][1..] == [c, d] && [c, d][1..] == [d] && [d][1..] == [];
    assert Body([d]) == d.Bytes() + [] == d.Bytes();
    assert Body([c, d]) == c.Bytes() + d.Bytes();
    assert Body([b, c, d]) == b.Bytes() + (c.Bytes() + d.Bytes());
  }

  lemma KeyStrings()
    ensures Header(MAPS, 4) == [0x84]
    ensures Str(KEY_TYPE) == [0xa4, 0x74, 0x79, 0x70, 0x65] && Str(KEY_NSP) == [0xa3, 0x6e, 0x73, 0x70]
    ensures Str(KEY_DATA) == [0xa4, 0x64, 0x61, 0x74, 0x61] && Str(KEY_ID) == [0xa2, 0x69, 0x64]
  {
  }

  lemma MarshalRoundTrip(z: Packet, typ: byte, nsp: Bytes, raw: Bytes, id: Option<nat>, rest: Bytes)
    requires |nsp| < TWO32 && Objects(raw, 1) && (id.Some? ==> id.value < TWO64)
    ensures Unmarshal(z, Marshal(typ, nsp, raw, id) + rest) == Some((Packet(typ, nsp, Some(raw), id), rest))
  {
    MarshalIsMap(typ, nsp, raw, id);
    UnmarshalAnyOrder([TypeField(typ), NspField(nsp), DataField(raw), IdField(id)], z, rest, typ, nsp, raw, id);
  }

  // ---- Add ----

  const SLASH: byte := 47

  function Named(nsp: Bytes): Bytes {
    if nsp == [] then [SLASH] else nsp
  }

  /** Add on a binary message: a packet without a namespace is one of the root; bytes left over are ignored. */
  function Decode(b: Bytes): Option<Packet> {
    var (p, _) :- Unmarshal(BLANK, b);
    Some(p.(nsp := Named(p.nsp)))
  }

  // ---- ParseData ----

  datatype ParseError = NotBytes | NotAList | NotAString

  /** Codes of the packet types that carry an event, and of those without an argument list. */
  predicate IsEvent(typ: byte) {
    typ == 2 || typ == 5
  }

  predicate HasNoList(typ: byte) {
    typ == 0 || typ == 1 || typ == 4
  }

  /** ParseData: the event name, if the type has one, and the list of arguments. */
  function ParseData(p: Packet): Result<(Bytes, Bytes), ParseError> {
    if HasNoList(p.typ) then Ok(([], []))
    else if p.data.None? then Err(NotBytes)
    else if IsEvent(p.typ) then ParseEvent(p.data.value)
    else if ReadHeader(ARRAYS, p.data.value).None? then Err(NotAList)
    else Ok(([], p.data.value))
  }

  /** ParseData for an event: the name, and the rest of the list under a new array header. */
  function ParseEvent(b: Bytes): Result<(Bytes, Bytes), ParseError> {
    match ReadHeader(ARRAYS, b)
    case None => Err(NotAList)
    case Some((size, rest)) =>
      (match ReadStr(rest)
       case None => Err(NotAString)
       case Some((event, args)) => Ok((event, Header(ARRAYS, (size - 1) % TWO32) + args)))
  }

  /** The list an event is sent as: its name, then its arguments, each one object. */
  function EventList(name: Bytes, args: seq<Bytes>): Bytes
    requires |name| < TWO32 && |args| + 1 < TWO32
  {
    Header(ARRAYS, |args| + 1) + (Str(name) + Concat(args))
  }

  lemma StrIsObject(s: Bytes)
    requires |s| < TWO32
    ensures Objects(Str(s), 1)
  {
    var b := Str(s);
    var n := |s|;
    if 256 <= n < TWO16 {
      assert b[1..] == Be16(n) + s;
      Num16Be(n, s);
    } else if TWO16 <= n {
      assert b[1..] == Be32(n) + s;
      Num32Be(n, s);
    }
    LeafIsObject(b);
  }

  lemma EventListIsObject(name: Bytes, args: seq<Bytes>)
    requires |name| < TWO32 && |args| + 1 < TWO32
    requires forall i | 0 <= i < |args| :: Objects(args[i], 1)
    ensures Objects(EventList(name, args), 1)
  {
    StrIsObject(name);
    var all := [Str(name)] + args;
    assert all[1..] == args;
    SkipConcat(all);
    SkipArray(|args| + 1, Concat(all));
  }

  /**
   * ParseData gives back the event name and an array of exactly the remaining arguments, re-headed
   * for its own size; the array is again one well-formed object.
   */
  lemma ParseEventRight(name: Bytes, args: seq<Bytes>)
    requires |name| < TWO32 && |args| + 1 < TWO32
    requires forall i | 0 <= i < |args| :: Objects(args[i], 1)
    ensures ParseEvent(EventList(name, args)) == Ok((name, Header(ARRAYS, |args|) + Concat(args)))
    ensures Objects(Header(ARRAYS, |args|) + Concat(args), 1)
    ensures ReadHeader(ARRAYS, Header(ARRAYS, |args|) + Concat(args)) == Some((|args|, Concat(args)))
  {
    ParseName(|args| + 1, name, Concat(args));
    SkipConcat(args);
    SkipArray(|args|, Concat(args));
    HeaderRead(ARRAYS, |args|, Concat(args));
  }

  lemma ParseName(n: nat, name: Bytes, more: Bytes)
    requires 0 < n < TWO32 && |name| < TWO32
    ensures ParseEvent(Header(ARRAYS, n) + (Str(name) + more)) == Ok((name, Header(ARRAYS, n - 1) + more))
  {
    HeaderRead(ARRAYS, n, Str(name) + more);
    StrRead(name, more);
    assert (n - 1) % TWO32 == n - 1;
  }

  /**
   * From Encode on one side to Add and ParseData on the other: the same packet, an empty namespace
   * being that of the root, and from it the event name and a valid array of the other arguments.
   */
  lemma EventRoundTrip(typ: byte, nsp: Bytes, id: Option<nat>, name: Bytes, args: seq<Bytes>, list: Bytes)
    requires IsEvent(typ) && |nsp| < TWO32 && (id.Some? ==> id.value < TWO64) && |name| < TWO32 && |args| + 1 < TWO32
    requires forall i | 0 <= i < |args| :: Objects(args[i], 1)
    requires list == EventList(name, args)
    ensures var p := Packet(typ, Named(nsp), Some(list), id);
      && Decode(Marshal(typ, nsp, list, id)) == Some(p)
      && ParseData(p) == Ok((name, Header(ARRAYS, |args|) + Concat(args)))
      && Objects(Header(ARRAYS, |args|) + Concat(args), 1)
  {
    EventListIsObject(name, args);
    DecodeMarshal(typ, nsp, list, id);
    ParseEventRight(name, args);
  }

  lemma DecodeMarshal(typ: byte, nsp: Bytes, raw: Bytes, id: Option<nat>)
    requires |nsp| < TWO32 && Objects(raw, 1) && (id.Some? ==> id.value < TWO64)
    ensures Decode(Marshal(typ, nsp, raw, id)) == Some(Packet(typ, Named(nsp), Some(raw), id))
  {
    MarshalExact(typ, nsp, raw, id);
  }

  /** An acknowledgement keeps its whole list. */
  lemma AckRoundTrip(typ: byte, nsp: Bytes, id: Option<nat>, args: seq<Bytes>, list: Bytes)
    requires (typ == 3 || typ == 6) && |nsp| < TWO32 && (id.Some? ==> id.value < TWO64) && |args| < TWO32
    requires forall i | 0 <= i < |args| :: Objects(args[i], 1)
    requires list == Header(ARRAYS, |args|) + Concat(args)
    ensures var p := Packet(typ, Named(nsp), Some(list), id);
      Decode(Marshal(typ, nsp, list, id)) == Some(p) && ParseData(p) == Ok(([], list))
  {
    SkipConcat(args);
    SkipArray(|args|, Concat(args));
    DecodeMarshal(typ, nsp, list, id);
    ParseAck(Packet(typ, Named(nsp), Some(list), id), |args|, Concat(args));
  }

  lemma ParseAck(p: Packet, n: nat, body: Bytes)
    requires (p.typ == 3 || p.typ == 6) && n < TWO32 && p.data == Some(Header(ARRAYS, n) + body)
    ensures ParseData(p) == Ok(([], p.data.value))
  {
    HeaderRead(ARRAYS, n, body);
  }

  lemma MarshalExact(typ: byte, nsp: Bytes, raw: Bytes, id: Option<nat>)
    requires |nsp| < TWO32 && Objects(raw, 1) && (id.Some? ==> id.value < TWO64)
    ensures Unmarshal(BLANK, Marshal(typ, nsp, raw, id)) == Some((Packet(typ, nsp, Some(raw), id), []))
  {
    var m := Marshal(typ, nsp, raw, id);
    MarshalRoundTrip(BLANK, typ, nsp, raw, id, []);
    assert m + [] == m;
  }
}
