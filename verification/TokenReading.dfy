/**
  What the reader makes of a document, computed from its tokens: for every layout of every document,
  each field and the whole configuration, errors included.
 */
module TokenReading {
  import opened Wrappers
  import opened Text
  import opened JsonText
  import opened JsonReader
  import opened JsonGrammar
  import opened KeyLookup
  import opened JsonStrings
  import opened Config
  import opened Landing
  import opened RuntimeJson

  // ----- values

  ghost predicate SpellsValue(ps: Pieces) { exists v, after :: Spells(ps, ValueTokens(v), after) }

  /** Every ':' that is a token has a value after it. */
  ghost predicate Valued(ps: Pieces) {
    ps.Next? ==> (ps.token == Sym(':') ==> SpellsValue(ps.rest)) && Valued(ps.rest)
  }

  lemma {:induction false} PlainValued(ps: Pieces, ts: seq<Token>, rest: Pieces)
    requires Spells(ps, ts, rest) && Valued(rest) && Sym(':') !in ts
    ensures Valued(ps)
    decreases |ts|
  {
    if ts != [] {
      assert ts[0] in ts;
      assert forall x :: x in ts[1..] ==> x in ts;
      PlainValued(ps.rest, ts[1..], rest);
    }
  }

  lemma {:induction false} ItemsPlain(items: seq<string>)
    ensures Sym(':') !in ItemTokens(items)
  {
    if items != [] {
      ItemsPlain(items[1..]);
    }
  }

  /** An entry and what follows it. */
  lemma {:induction false} EntryValued(ps: Pieces, e: Entry, more: seq<Token>, rest: Pieces)
    requires Spells(ps, [Literal(e.key), Sym(':'), Literal(e.value)] + more, rest)
    ensures ps.Next? && ps.rest.Next? && ps.rest.rest.Next? && Spells(ps.rest.rest.rest, more, rest)
    ensures Valued(ps.rest.rest.rest) ==> Valued(ps)
  {
    hide ValueTokens, Escape, SpellsValue, Spells;
    var head := [Literal(e.key), Sym(':'), Literal(e.value)];
    var next := SpellsSplit(ps, head, more, rest);
    ThreeTokens(ps, head, next);
    ThirdRest(ps, head, next);
    StringValue(ps.rest.rest, e.value);
    if Valued(next) {
      assert Valued(ps.rest.rest);
      assert Valued(ps.rest);
    }
  }

  lemma {:induction false} ThirdRest(ps: Pieces, ts: seq<Token>, rest: Pieces)
    requires |ts| == 3 && Spells(ps, ts, rest)
    ensures ps.Next? && ps.rest.Next? && ps.rest.rest.Next? && ps.rest.rest.rest == rest
  {
    hide Spells;
    SpellsStep(ps, ts, rest);
    SpellsStep(ps.rest, ts[1..], rest);
    SpellsStep(ps.rest.rest, ts[1..][1..], rest);
    assert ts[1..][1..][1..] == [];
    SpellsNothing(ps.rest.rest.rest, rest);
  }

  lemma {:induction false} StringValue(ps: Pieces, s: string)
    requires ps.Next? && ps.token == Literal(s)
    ensures SpellsValue(ps)
  {
    hide Literal;
    assert [Literal(s)][1..] == [];
    assert Spells(ps, ValueTokens(Str(s)), ps.rest);
  }

  lemma {:induction false} EntriesValued(ps: Pieces, entries: seq<Entry>, rest: Pieces)
    requires Spells(ps, EntryTokens(entries) + [Sym('}')], rest) && Valued(rest)
    ensures Valued(ps)
    decreases |entries|
  {
    hide Literal, SpellsValue;
    if entries == [] {
      PlainValued(ps, EntryTokens(entries) + [Sym('}')], rest);
    } else {
      EntryTokensSplit(entries, [Sym('}')]);
      var more := if |entries| == 1 then [Sym('}')] else [Sym(',')] + (EntryTokens(entries[1..]) + [Sym('}')]);
      EntryValued(ps, entries[0], more, rest);
      var sep := ps.rest.rest.rest;
      if |entries| == 1 {
        PlainValued(sep, more, rest);
      } else {
        SpellsStep(sep, more, rest);
        assert more[1..] == EntryTokens(entries[1..]) + [Sym('}')];
        EntriesValued(sep.rest, entries[1..], rest);
      }
    }
  }

  lemma {:induction false} ValueValued(ps: Pieces, v: Value, rest: Pieces)
    requires Spells(ps, ValueTokens(v), rest) && Valued(rest)
    ensures Valued(ps)
  {
    hide Escape, SpellsValue;
    match v {
      case Str(_) => PlainValued(ps, ValueTokens(v), rest);
      case Null => PlainValued(ps, ValueTokens(v), rest);
      case Arr(items) =>
        ItemsPlain(items);
        PlainValued(ps, ValueTokens(v), rest);
      case Obj(entries) =>
        SpellsStep(ps, ValueTokens(v), rest);
        assert ValueTokens(v)[1..] == EntryTokens(entries) + [Sym('}')];
        EntriesValued(ps.rest, entries, rest);
    }
  }

  lemma {:induction false} FieldsValued(ps: Pieces, fields: Fields, rest: Pieces)
    requires Spells(ps, FieldTokens(fields), rest) && Valued(rest)
    ensures Valued(ps)
    decreases |fields|
  {
    if fields == [] {
      SpellsNothing(ps, rest);
    } else {
      hide Escape, ValueTokens, FieldTokens, Spells;
      var comma := FirstField(ps, fields, rest);
      if |fields| > 1 {
        FieldsValued(comma.rest, fields[1..], rest);
      }
      ValueValued(ps.rest.rest, fields[0].1, comma);
      assert SpellsValue(ps.rest.rest);
      assert Valued(ps.rest);
    }
  }

  lemma {:induction false} LayoutValued(ps: Pieces, fields: Fields)
    requires LayoutOf(ps, fields)
    ensures Valued(ps)
  {
    hide SpellsValue, FieldTokens;
    var tail :| Spells(ps, DocTokens(fields), Tail(tail));
    var body := [Sym('{')] + FieldTokens(fields);
    var close := SpellsSplit(ps, body, [Sym('}')], Tail(tail));
    var first := SpellsSplit(ps, [Sym('{')], FieldTokens(fields), close);
    PlainValued(close, [Sym('}')], Tail(tail));
    FieldsValued(first, fields, close);
    PlainValued(ps, [Sym('{')], first);
  }

  lemma {:induction false} ValuedTails(ps: Pieces, k: string)
    requires Valued(ps)
    ensures TokenFind(ps, k).Some? ==> Valued(TokenFind(ps, k).value)
    ensures TokenColon(ps).Some? ==>
              TokenColon(ps).value.Next? && HasColon(TokenColon(ps).value.token) && Valued(TokenColon(ps).value)
  {
    hide SpellsValue, IsKey, HasColon;
    if ps.Next? {
      ValuedTails(ps.rest, k);
    }
  }

  lemma {:induction false} LandsOnValue(ps: Pieces, k: string)
    requires Valued(ps) && LandsAt(ps, k).AtValue?
    ensures SpellsValue(LandsAt(ps, k).value)
  {
    hide SpellsValue, HasColon, TokenFind, TokenColon;
    ValuedTails(ps, k);
    var after := TokenFind(ps, k).value;
    ValuedTails(after, k);
    ColonToken(TokenColon(after).value.token);
  }

  // ----- what a lookup reads

  lemma {:induction false} ValueFirst(v: Pieces, value: Value, after: Pieces)
    requires Spaced(v) && Spells(v, ValueTokens(value), after)
    ensures v.Next? && Solid(v.token) && AllSpace(v.gap)
  {
    hide AllSpace;
    SpellsStep(v, ValueTokens(value), after);
  }

  lemma {:induction false} SkipToValue(t: string, v: Pieces, value: Value, after: Pieces)
    requires 0 <= PosOf(t, v) <= |t| && RestOf(t, PosOf(t, v), v) && Laid(v) && Spells(v, ValueTokens(value), after)
    ensures ReadsAs(t, Skip(t, PosOf(t, v)), value)
  {
    hide *;
    LaidParts(v);
    ValueFirst(v, value, after);
    RestHas(t, PosOf(t, v), v);
    FirstPiece(t, PosOf(t, v), v);
    ValueRead(t, PosOf(t, v), v, value, after);
  }

  /** A lookup that lands on a value reads that value. */
  lemma {:induction false} ValueReads(ps: Pieces, k: string, required: bool, value: Value, after: Pieces)
    requires Laid(ps) && IsKeyName(k) && LandsAt(ps, k).AtValue?
    requires Spells(LandsAt(ps, k).value, ValueTokens(value), after)
    ensures StringField(Flat(ps), k, required) == AsString(value)
    ensures required ==> ArrayField(Flat(ps), k) == AsArray(value)
    ensures MapField(Flat(ps), k, required) == AsMap(value)
  {
    hide Flat, Laid, IsKeyName, ValueStart, Skip, RestOf, PosOf, Spells, ValueTokens, LandsAt, StringAt, ArrayAt, MapAt,
      AsString, AsArray, AsMap, InText, Unquoted;
    Lands(ps, k, required);
    SkipToValue(Flat(ps), LandsAt(ps, k).value, value, after);
  }

  /** A string field whose lookup does not land on a value. */
  lemma {:induction false} StringLands(ps: Pieces, k: string, required: bool)
    requires Laid(ps) && IsKeyName(k)
    ensures var r := StringField(Flat(ps), k, required);
            match LandsAt(ps, k)
            case KeyMissing => r == if required then Err(MissingKey(k)) else Ok("")
            case ColonMissing => r == Err(InvalidKey(k))
            case AtValue(_) => true
            case InLiteral(x, n) => r == StringIn(x, n)
  {
    hide Flat, Laid, IsKeyName, ValueStart, Skip, RestOf, PosOf, LandsAt, StringAt, StringIn, InText, Unquoted;
    Lands(ps, k, required);
    var at := LandsAt(ps, k);
    if at.InLiteral? {
      StringInText(Flat(ps), ValueStart(Flat(ps), k, required).value.value, at.text, at.next);
    }
  }

  lemma {:induction false} MapLands(ps: Pieces, k: string, required: bool)
    requires Laid(ps) && IsKeyName(k)
    ensures var r := MapField(Flat(ps), k, required);
            match LandsAt(ps, k)
            case KeyMissing => r == if required then Err(MissingKey(k)) else Ok(map[])
            case ColonMissing => r == Err(InvalidKey(k))
            case AtValue(_) => true
            case InLiteral(x, n) => r == MapIn(x, n)
  {
    hide Flat, Laid, IsKeyName, ValueStart, Skip, RestOf, PosOf, LandsAt, MapAt, MapIn, InText, Unquoted;
    Lands(ps, k, required);
    var at := LandsAt(ps, k);
    if at.InLiteral? {
      MapInText(Flat(ps), ValueStart(Flat(ps), k, required).value.value, at.text, at.next);
    }
  }

  lemma {:induction false} ArrayLands(ps: Pieces, k: string)
    requires Laid(ps) && IsKeyName(k)
    ensures var r := ArrayField(Flat(ps), k);
            match LandsAt(ps, k)
            case KeyMissing => r == Err(MissingKey(k))
            case ColonMissing => r == Err(InvalidKey(k))
            case AtValue(_) => true
            case InLiteral(x, n) => r == ArrayIn(x, n)
  {
    hide Flat, Laid, IsKeyName, ValueStart, Skip, RestOf, PosOf, LandsAt, ArrayAt, ArrayIn, InText, Unquoted;
    Lands(ps, k, true);
    var at := LandsAt(ps, k);
    if at.InLiteral? {
      ArrayInText(Flat(ps), ValueStart(Flat(ps), k, true).value.value, at.text, at.next);
    }
  }

  // ----- reading the tokens of a value

  /** What a string literal denotes. */
  function Denoted(token: Token): string {
    if token.Quoted? && StringBody(token.body) then Unescape(token.body) else ""
  }

  function StringOf(v: Pieces): Result<string, Error> {
    if v.Next? && v.token.Quoted? then Ok(Denoted(v.token))
    else if v.Next? && v.token == NullWord then Ok("")
    else Err(Expected('"'))
  }

  /** The items up to the end of an array. */
  function ItemsOf(ps: Pieces): seq<string> {
    if ps.Tail? || !ps.token.Quoted? then []
    else [Denoted(ps.token)] + (if ps.rest.Next? && ps.rest.token == Sym(',') then ItemsOf(ps.rest.rest) else [])
  }

  function ArrayOf(v: Pieces): Result<seq<string>, Error> {
    if v.Next? && v.token == Sym('[') then Ok(ItemsOf(v.rest)) else Err(Expected('['))
  }

  /** The entries up to the end of a map. */
  function EntriesOf(ps: Pieces): seq<Entry> {
    if ps.Tail? || !ps.token.Quoted? || ps.rest.Tail? || ps.rest.rest.Tail? then []
    else
      var sep := ps.rest.rest.rest;
      [Entry(Denoted(ps.token), Denoted(ps.rest.rest.token))] +
      (if sep.Next? && sep.token == Sym(',') then EntriesOf(sep.rest) else [])
  }

  function MapOfPieces(v: Pieces): Result<map<string, string>, Error> {
    if v.Next? && v.token == Sym('{') then Ok(MapOf(EntriesOf(v.rest))) else Err(Expected('{'))
  }

  lemma {:induction false} ItemListOf(ps: Pieces, vs: seq<string>, rest: Pieces)
    requires ItemList(ps, vs, rest)
    ensures ItemsOf(ps) == vs
    decreases |vs|
  {
    hide StringBody, Unescape;
    if vs != [] {
      if ps.rest.token == Sym(',') {
        ItemListOf(ps.rest.rest, vs[1..], rest);
      }
      assert vs == [vs[0]] + vs[1..];
    }
  }

  lemma {:induction false} EntryListOf(ps: Pieces, es: seq<Entry>, rest: Pieces)
    requires EntryList(ps, es, rest)
    ensures EntriesOf(ps) == es
    decreases |es|
  {
    hide StringBody, Unescape;
    if es != [] {
      var sep := ps.rest.rest.rest;
      if sep.token == Sym(',') {
        EntryListOf(sep.rest, es[1..], rest);
      }
      assert es == [es[0]] + es[1..];
    }
  }

  /** The tokens of a value are read as the value. */
  lemma {:induction false} ValueOf(v: Pieces, value: Value, after: Pieces)
    requires Spells(v, ValueTokens(value), after)
    ensures StringOf(v) == AsString(value) && ArrayOf(v) == AsArray(value) && MapOfPieces(v) == AsMap(value)
  {
    hide ItemTokens, EntryTokens, MapOf, Reread, RereadAll, RereadEntries, ItemsOf, EntriesOf, ItemList, EntryList,
      StringBody, Unescape, Escape, Spells;
    SpellsStep(v, ValueTokens(value), after);
    match value {
      case Str(s) => LiteralDenotes(s);
      case Null =>
      case Arr(items) =>
        assert ValueTokens(value)[1..] == ItemTokens(items) + [Sym(']')];
        ItemsSpelled(v.rest, items, after);
        ItemListOf(v.rest, RereadAll(items), after);
      case Obj(entries) =>
        assert ValueTokens(value)[1..] == EntryTokens(entries) + [Sym('}')];
        EntriesSpelled(v.rest, entries, after);
        EntryListOf(v.rest, RereadEntries(entries), after);
    }
  }

  // ----- the fields, from the tokens

  function StringFrom(ps: Pieces, k: string, required: bool): Result<string, Error> {
    match LandsAt(ps, k)
    case KeyMissing => if required then Err(MissingKey(k)) else Ok("")
    case ColonMissing => Err(InvalidKey(k))
    case AtValue(v) => StringOf(v)
    case InLiteral(x, n) => StringIn(x, n)
  }

  function ArrayFrom(ps: Pieces, k: string): Result<seq<string>, Error> {
    match LandsAt(ps, k)
    case KeyMissing => Err(MissingKey(k))
    case ColonMissing => Err(InvalidKey(k))
    case AtValue(v) => ArrayOf(v)
    case InLiteral(x, n) => ArrayIn(x, n)
  }

  function MapFrom(ps: Pieces, k: string, required: bool): Result<map<string, string>, Error> {
    match LandsAt(ps, k)
    case KeyMissing => if required then Err(MissingKey(k)) else Ok(map[])
    case ColonMissing => Err(InvalidKey(k))
    case AtValue(v) => MapOfPieces(v)
    case InLiteral(x, n) => MapIn(x, n)
  }

  ghost predicate Document(ps: Pieces) { Laid(ps) && Valued(ps) }

  lemma {:induction false} LayoutDocument(ps: Pieces, fields: Fields)
    requires LayoutOf(ps, fields)
    ensures Document(ps)
  {
    LayoutParts(ps, fields);
    LayoutValued(ps, fields);
    hide Spaced, Readable, Valued;
  }

  lemma {:induction false} StringFieldFrom(ps: Pieces, k: string, required: bool)
    requires Document(ps) && IsKeyName(k)
    ensures StringField(Flat(ps), k, required) == StringFrom(ps, k, required)
  {
    hide Flat, IsKeyName, StringField, LandsAt, Laid, Valued, Spells, ValueTokens, AsString, StringIn, StringOf,
      ArrayOf, MapOfPieces;
    StringLands(ps, k, required);
    if LandsAt(ps, k).AtValue? {
      LandsOnValue(ps, k);
      var value, after :| Spells(LandsAt(ps, k).value, ValueTokens(value), after);
      ValueReads(ps, k, required, value, after);
      ValueOf(LandsAt(ps, k).value, value, after);
    }
  }

  lemma {:induction false} ArrayFieldFrom(ps: Pieces, k: string)
    requires Document(ps) && IsKeyName(k)
    ensures ArrayField(Flat(ps), k) == ArrayFrom(ps, k)
  {
    hide Flat, IsKeyName, ArrayField, LandsAt, Laid, Valued, Spells, ValueTokens, AsArray, ArrayIn, StringOf, ArrayOf,
      MapOfPieces;
    ArrayLands(ps, k);
    if LandsAt(ps, k).AtValue? {
      LandsOnValue(ps, k);
      var value, after :| Spells(LandsAt(ps, k).value, ValueTokens(value), after);
      ValueReads(ps, k, true, value, after);
      ValueOf(LandsAt(ps, k).value, value, after);
    }
  }

  lemma {:induction false} MapFieldFrom(ps: Pieces, k: string, required: bool)
    requires Document(ps) && IsKeyName(k)
    ensures MapField(Flat(ps), k, required) == MapFrom(ps, k, required)
  {
    hide Flat, IsKeyName, MapField, LandsAt, Laid, Valued, Spells, ValueTokens, AsMap, MapIn, StringOf, ArrayOf,
      MapOfPieces;
    MapLands(ps, k, required);
    if LandsAt(ps, k).AtValue? {
      LandsOnValue(ps, k);
      var value, after :| Spells(LandsAt(ps, k).value, ValueTokens(value), after);
      ValueReads(ps, k, required, value, after);
      ValueOf(LandsAt(ps, k).value, value, after);
    }
  }

  // ----- the whole configuration, from the tokens

  /** Each of the ten lookups reads something. */
  predicate AllRead(ps: Pieces) {
    StringFrom(ps, "name", true).Ok? && StringFrom(ps, "rootfs", true).Ok? && StringFrom(ps, "hostname", true).Ok? &&
    StringFrom(ps, "workdir", true).Ok? && ArrayFrom(ps, "command").Ok? && MapFrom(ps, "env", true).Ok? &&
    MapFrom(ps, "bind_mounts", false).Ok? && StringFrom(ps, "cgroup_path", true).Ok? &&
    StringFrom(ps, "memory", false).Ok? && StringFrom(ps, "cpu", false).Ok?
  }

  /** Each of the ten lookups reads the value of this configuration. */
  predicate ReadsConfig(ps: Pieces, c: RuntimeConfig) {
    StringFrom(ps, "name", true) == Ok(c.name) && StringFrom(ps, "rootfs", true) == Ok(c.rootfs) &&
    StringFrom(ps, "hostname", true) == Ok(c.hostname) && StringFrom(ps, "workdir", true) == Ok(c.workdir) &&
    ArrayFrom(ps, "command") == Ok(c.command) && MapFrom(ps, "env", true) == Ok(c.env) &&
    MapFrom(ps, "bind_mounts", false) == Ok(c.bindMounts) &&
    StringFrom(ps, "cgroup_path", true) == Ok(c.cgroupPath) && StringFrom(ps, "memory", false) == Ok(c.memory) &&
    StringFrom(ps, "cpu", false) == Ok(c.cpu)
  }

  lemma {:induction false} FieldsFrom(ps: Pieces)
    requires Document(ps)
    ensures var t := Flat(ps);
            && StringField(t, "name", true) == StringFrom(ps, "name", true)
            && StringField(t, "rootfs", true) == StringFrom(ps, "rootfs", true)
            && StringField(t, "hostname", true) == StringFrom(ps, "hostname", true)
            && StringField(t, "workdir", true) == StringFrom(ps, "workdir", true)
            && ArrayField(t, "command") == ArrayFrom(ps, "command")
            && MapField(t, "env", true) == MapFrom(ps, "env", true)
            && MapField(t, "bind_mounts", false) == MapFrom(ps, "bind_mounts", false)
            && StringField(t, "cgroup_path", true) == StringFrom(ps, "cgroup_path", true)
            && StringField(t, "memory", false) == StringFrom(ps, "memory", false)
            && StringField(t, "cpu", false) == StringFrom(ps, "cpu", false)
  {
    hide *;
    KeyNames();
    StringFieldFrom(ps, "name", true);
    StringFieldFrom(ps, "rootfs", true);
    StringFieldFrom(ps, "hostname", true);
    StringFieldFrom(ps, "workdir", true);
    ArrayFieldFrom(ps, "command");
    MapFieldFrom(ps, "env", true);
    MapFieldFrom(ps, "bind_mounts", false);
    StringFieldFrom(ps, "cgroup_path", true);
    StringFieldFrom(ps, "memory", false);
    StringFieldFrom(ps, "cpu", false);
  }

  /**
    For every layout of every document, the tokens decide whether it loads and as what: it loads as a
    configuration if and only if each of the ten lookups reads the value of that configuration.
   */
  lemma {:induction false} LoadsAs(ps: Pieces, fields: Fields, c: RuntimeConfig)
    requires LayoutOf(ps, fields)
    ensures Load(Flat(ps)) == Ok(c) <==> ReadsConfig(ps, c)
    ensures Load(Flat(ps)).Ok? <==> AllRead(ps)
  {
    hide LayoutOf, Document, Flat, StringField, ArrayField, MapField, StringFrom, ArrayFrom, MapFrom;
    LayoutDocument(ps, fields);
    FieldsFrom(ps);
  }

  /**
    The round trip for every configuration, shadowed keys or not: the printed file loads as intended
    if and only if each of the ten lookups reads its intended value.
   */
  lemma {:induction false} RoundTripExactly(config: AxisConfig, rootfs: string, id: string)
    ensures var fields := RuntimeFields(config, rootfs, id);
            Load(Dumps(fields)) == Ok(Intended(config, rootfs, id)) <==>
            ReadsConfig(DocPieces(fields), Intended(config, rootfs, id))
  {
    hide *;
    var fields := RuntimeFields(config, rootfs, id);
    DumpsFlat(fields);
    DumpsIsLayout(fields);
    LoadsAs(DocPieces(fields), fields, Intended(config, rootfs, id));
  }
}
