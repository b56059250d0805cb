/**
  Whether the whitespace between the tokens of runtime.json matters: it does exactly when a lookup
  lands inside a string literal in such a way that text between two literals is taken for data.
 */
module Whitespace {
  import opened Wrappers
  import opened Text
  import opened JsonText
  import opened JsonReader
  import opened JsonGrammar
  import opened KeyLookup
  import opened JsonStrings
  import opened Config
  import opened Landing
  import opened RuntimeJson
  import opened TokenReading

  // ----- the same tokens in other whitespace

  /** Every gap replaced by `gap`. */
  function Regap(ps: Pieces, gap: string): Pieces {
    match ps
    case Tail(_) => Tail(gap)
    case Next(_, token, rest) => Next(gap, token, Regap(rest, gap))
  }

  lemma {:induction false} RegapTwice(ps: Pieces, g: string, h: string)
    ensures Regap(Regap(ps, g), h) == Regap(ps, h)
  {
    if ps.Next? {
      RegapTwice(ps.rest, g, h);
    }
  }

  lemma {:induction false} RegapSpells(ps: Pieces, ts: seq<Token>, rest: Pieces, g: string)
    requires Spells(ps, ts, rest)
    ensures Spells(Regap(ps, g), ts, Regap(rest, g))
  {
    if ts != [] {
      RegapSpells(ps.rest, ts[1..], rest, g);
    }
  }

  lemma {:induction false} RegapSpaced(ps: Pieces, g: string)
    requires AllSpace(g)
    ensures Spaced(Regap(ps, g))
  {
    if ps.Next? {
      RegapSpaced(ps.rest, g);
    }
  }

  lemma {:induction false} RegapLayout(ps: Pieces, fields: Fields, g: string)
    requires LayoutOf(ps, fields) && AllSpace(g)
    ensures LayoutOf(Regap(ps, g), fields)
  {
    RegapSpaced(ps, g);
    var tail :| Spells(ps, DocTokens(fields), Tail(tail));
    RegapSpells(ps, DocTokens(fields), Tail(tail), g);
    assert Regap(Tail(tail), g) == Tail(g);
  }

  /** Pieces that spell the same tokens to the end differ in their gaps only. */
  lemma {:induction false} SameTokens(a: Pieces, b: Pieces, ts: seq<Token>)
    requires exists g :: Spells(a, ts, Tail(g))
    requires exists g :: Spells(b, ts, Tail(g))
    ensures Regap(a, "") == Regap(b, "")
    decreases |ts|
  {
    var g :| Spells(a, ts, Tail(g));
    var h :| Spells(b, ts, Tail(h));
    if ts != [] {
      assert Spells(a.rest, ts[1..], Tail(g)) && Spells(b.rest, ts[1..], Tail(h));
      SameTokens(a.rest, b.rest, ts[1..]);
    }
  }

  /** What is spelled in one layout is spelled in the other. */
  lemma {:induction false} SpelledToo(a: Pieces, b: Pieces, ts: seq<Token>, rest: Pieces) returns (after: Pieces)
    requires Regap(a, "") == Regap(b, "") && Spells(a, ts, rest)
    ensures Spells(b, ts, after)
    decreases |ts|
  {
    if ts == [] {
      after := b;
    } else {
      after := SpelledToo(a.rest, b.rest, ts[1..], rest);
    }
  }

  lemma {:induction false} RegapFind(ps: Pieces, k: string, g: string)
    ensures TokenFind(Regap(ps, g), k) ==
            match TokenFind(ps, k) case None => None case Some(after) => Some(Regap(after, g))
  {
    if ps.Next? {
      RegapFind(ps.rest, k, g);
    }
  }

  lemma {:induction false} RegapColon(ps: Pieces, g: string)
    ensures TokenColon(Regap(ps, g)) == match TokenColon(ps) case None => None case Some(c) => Some(Regap(c, g))
  {
    if ps.Next? {
      RegapColon(ps.rest, g);
    }
  }

  function RegapAt(at: Landing, g: string): Landing {
    match at
    case AtValue(v) => AtValue(Regap(v, g))
    case InLiteral(x, n) => InLiteral(x, Regap(n, g))
    case _ => at
  }

  lemma {:induction false} RegapLands(ps: Pieces, k: string, g: string)
    ensures LandsAt(Regap(ps, g), k) == RegapAt(LandsAt(ps, k), g)
  {
    RegapFind(ps, k, g);
    if TokenFind(ps, k).Some? {
      RegapColon(TokenFind(ps, k).value, g);
    }
    hide DropSpace, AfterColon, TokenFind, TokenColon;
  }

  // ----- what is read from inside a literal, in other whitespace

  lemma {:induction false} RegapNext(n: Pieces, g: string)
    ensures NextLiteral(Regap(n, g)) == match NextLiteral(n) case None => None case Some(l) => Some(Regap(l, g))
  {
    if n.Next? {
      RegapNext(n.rest, g);
    }
  }

  /** More whitespace makes the text between two literals longer. */
  lemma {:induction false} BetweenGrows(n: Pieces)
    ensures |Between(Regap(n, ""))| < |Between(Regap(n, " "))|
  {
    if n.Next? {
      BetweenGrows(n.rest);
    }
  }

  lemma {:induction false} RegapEntry(n: Pieces, g: string)
    ensures match EntryIn(n)
            case Err(e) => EntryIn(Regap(n, g)) == Err(e)
            case Ok((_, m)) => EntryIn(Regap(n, g)).Ok? && EntryIn(Regap(n, g)).value.1 == Regap(m, g)
  {
    hide Between, NextLiteral, DropSpace;
    RegapNext(n, g);
    if NextLiteral(n).Some? {
      RegapNext(NextLiteral(n).value.rest, g);
    }
  }

  lemma {:induction false} RegapTurn(x: string, n: Pieces, g: string)
    ensures var turn := TurnIn(x, Regap(n, g));
            match TurnIn(x, n)
            case Stop(e) => turn == Stop(e)
            case Closed => turn == Closed
            case Final(_) => turn.Final?
            case Further(_, y, m) => turn.Further? && turn.text == y && turn.next == Regap(m, g)
  {
    hide EntryIn, DropSpace;
    RegapEntry(n, g);
  }

  /** Whitespace decides neither the error nor the number of entries. */
  lemma {:induction false} RegapEntries(x: string, n: Pieces, g: string)
    ensures match EntriesIn(x, n)
            case Err(e) => EntriesIn(x, Regap(n, g)) == Err(e)
            case Ok(es) => EntriesIn(x, Regap(n, g)).Ok? && |EntriesIn(x, Regap(n, g)).value| == |es|
    decreases Count(n)
  {
    hide TurnIn;
    RegapTurn(x, n, g);
    var turn := TurnIn(x, n);
    if turn.Further? {
      RegapEntries(turn.text, turn.next, g);
    }
  }

  lemma {:induction false} EntryGrows(n: Pieces)
    requires EntryIn(Regap(n, "")).Ok? && EntryIn(Regap(n, " ")).Ok?
    ensures |EntryIn(Regap(n, "")).value.0.key| < |EntryIn(Regap(n, " ")).value.0.key|
  {
    hide Between, NextLiteral, DropSpace;
    BetweenGrows(n);
  }

  lemma {:induction false} TurnGrows(x: string, n: Pieces)
    ensures var a, b := TurnIn(x, Regap(n, "")), TurnIn(x, Regap(n, " "));
            (a.Final? || a.Further?) && (b.Final? || b.Further?) ==> |a.item.key| < |b.item.key|
  {
    hide EntryIn, DropSpace;
    if EntryIn(Regap(n, "")).Ok? && EntryIn(Regap(n, " ")).Ok? {
      EntryGrows(n);
    }
  }

  lemma {:induction false} EntriesGrow(x: string, n: Pieces)
    requires EntriesIn(x, Regap(n, "")).Ok? && EntriesIn(x, Regap(n, " ")).Ok?
    ensures var a, b := EntriesIn(x, Regap(n, "")).value, EntriesIn(x, Regap(n, " ")).value;
            |a| == |b| && forall i :: 0 <= i < |a| ==> |a[i].key| < |b[i].key|
    decreases Count(n)
  {
    hide TurnIn;
    RegapTurn(x, n, "");
    RegapTurn(x, n, " ");
    TurnGrows(x, n);
    var turn := TurnIn(x, n);
    if turn.Further? {
      EntriesGrow(turn.text, turn.next);
    }
  }

  lemma {:induction false} LongestKey(es: seq<Entry>) returns (j: nat)
    requires es != []
    ensures j < |es| && forall i :: 0 <= i < |es| ==> |es[i].key| <= |es[j].key|
  {
    j := 0;
    for k := 0 to |es|
      invariant j < |es| && forall i :: 0 <= i < k ==> |es[i].key| <= |es[j].key|
    {
      if |es[j].key| < |es[k].key| {
        j := k;
      }
    }
  }

  lemma {:induction false} MapsDiffer(a: seq<Entry>, b: seq<Entry>)
    requires a != [] && |a| == |b| && forall i :: 0 <= i < |a| ==> |a[i].key| < |b[i].key|
    ensures MapOf(a) != MapOf(b)
  {
    hide MapOf;
    var j := LongestKey(a);
    MapOfKeys(a);
    MapOfKeys(b);
    assert b[j].key in MapOf(b);
    assert b[j].key !in MapOf(a);
  }

  // ----- one lookup in two layouts

  /** A string read from the closing quote of a literal up to the next literal. */
  predicate StrayString(at: Landing) { at.InLiteral? && at.text == "" && NextLiteral(at.next).Some? }

  /** A map with entries read from a '{' inside a literal. */
  predicate StrayMap(at: Landing) {
    at.InLiteral? && at.text != "" && at.text[0] == '{' &&
    var es := EntriesIn(at.text[1..], at.next);
    es.Ok? && es.value != []
  }

  /** One document in two layouts. */
  ghost predicate TwoLayouts(a: Pieces, b: Pieces) {
    Laid(a) && Laid(b) && Valued(a) && Regap(a, "") == Regap(b, "")
  }

  lemma {:induction false} SameLanding(a: Pieces, b: Pieces, k: string)
    requires Regap(a, "") == Regap(b, "")
    ensures RegapAt(LandsAt(a, k), "") == RegapAt(LandsAt(b, k), "")
  {
    RegapLands(a, k, "");
    RegapLands(b, k, "");
  }

  lemma {:induction false} SameValue(a: Pieces, b: Pieces, k: string) returns (v: Value, x: Pieces, y: Pieces)
    requires TwoLayouts(a, b) && LandsAt(a, k).AtValue?
    ensures LandsAt(b, k).AtValue?
    ensures Spells(LandsAt(a, k).value, ValueTokens(v), x) && Spells(LandsAt(b, k).value, ValueTokens(v), y)
  {
    hide LandsAt, Laid, Valued, Regap, Spells, ValueTokens;
    SameLanding(a, b, k);
    LandsOnValue(a, k);
    v, x :| Spells(LandsAt(a, k).value, ValueTokens(v), x);
    y := SpelledToo(LandsAt(a, k).value, LandsAt(b, k).value, ValueTokens(v), x);
  }

  /** A string field reads alike in two layouts, or its text is stray. */
  lemma {:induction false} StringAlike(a: Pieces, b: Pieces, k: string, required: bool)
    requires TwoLayouts(a, b) && IsKeyName(k)
    ensures !StrayString(LandsAt(a, k)) ==> StringField(Flat(a), k, required) == StringField(Flat(b), k, required)
    ensures StrayString(LandsAt(a, k)) ==>
              LandsAt(b, k).InLiteral? && StringField(Flat(a), k, required) == Ok(Between(LandsAt(a, k).next)) &&
              StringField(Flat(b), k, required) == Ok(Between(LandsAt(b, k).next))
  {
    hide Flat, IsKeyName, StringField, LandsAt, Laid, Valued, Regap, Spells, ValueTokens, AsString, Between,
      NextLiteral, HasAt;
    SameLanding(a, b, k);
    StringLands(a, k, required);
    StringLands(b, k, required);
    var at := LandsAt(a, k);
    if at.AtValue? {
      var v, x, y := SameValue(a, b, k);
      ValueReads(a, k, required, v, x);
      ValueReads(b, k, required, v, y);
    } else if at.InLiteral? {
      RegapNext(at.next, "");
      RegapNext(LandsAt(b, k).next, "");
      NoNull();
    }
  }

  lemma NoNull()
    ensures !HasAt("", 0, "null")
  {
  }

  /** A map field reads alike in two layouts, or its entries are stray. */
  lemma {:induction false} MapAlike(a: Pieces, b: Pieces, k: string, required: bool)
    requires TwoLayouts(a, b) && IsKeyName(k)
    ensures !StrayMap(LandsAt(a, k)) ==> MapField(Flat(a), k, required) == MapField(Flat(b), k, required)
    ensures StrayMap(LandsAt(a, k)) ==>
              LandsAt(b, k).InLiteral? && MapField(Flat(a), k, required).Ok? && MapField(Flat(b), k, required).Ok? &&
              MapField(Flat(a), k, required) == MapIn(LandsAt(a, k).text, LandsAt(a, k).next) &&
              MapField(Flat(b), k, required) == MapIn(LandsAt(b, k).text, LandsAt(b, k).next)
  {
    hide Flat, IsKeyName, MapField, LandsAt, Laid, Valued, Regap, Spells, ValueTokens, AsMap, EntriesIn, MapOf;
    SameLanding(a, b, k);
    MapLands(a, k, required);
    MapLands(b, k, required);
    var at := LandsAt(a, k);
    if at.AtValue? {
      var v, x, y := SameValue(a, b, k);
      ValueReads(a, k, required, v, x);
      ValueReads(b, k, required, v, y);
    } else if at.InLiteral? && at.text != "" {
      RegapEntries(at.text[1..], at.next, "");
      RegapEntries(at.text[1..], LandsAt(b, k).next, "");
    }
  }

  // ----- runtime.json

  lemma {:induction false} KeyHasNoColon(k: string)
    requires IsKeyName(k)
    ensures !HasColon(Quoted(k)) && IsKey(Quoted(k), k) && HasColon(Sym(':')) && !HasColon(Sym(','))
  {
    var chars := "\"" + k + "\"";
    forall i | 0 <= i < |chars| ensures chars[i] != ':' {
      if 0 < i < |chars| - 1 {
        assert chars[i] == k[i - 1];
      }
    }
  }

  lemma LandsStep(ps: Pieces, k: string)
    requires ps.Next?
    ensures LandsAt(ps, k) == if IsKey(ps.token, k) then FromColon(TokenColon(ps.rest)) else LandsAt(ps.rest, k)
    ensures TokenColon(ps) == if HasColon(ps.token) then Some(ps) else TokenColon(ps.rest)
    ensures !IsKey(Sym(':'), k) && !IsKey(Sym(','), k) && !IsKey(Sym('{'), k)
  {
  }

  /** A field of a string: four tokens. */
  lemma {:induction false} ScalarField(ps: Pieces, fields: Fields, f: nat, field: Pieces)
    requires 0 < f <= |fields| && Spells(ps, FieldsBefore(fields, f), field) && fields[0].1.Str?
    ensures ps.Next? && ps.rest.Next? && ps.rest.rest.Next? && ps.rest.rest.rest.Next?
    ensures ps.token == Literal(fields[0].0) && ps.rest.token == Sym(':')
    ensures ps.rest.rest.token == Literal(fields[0].1.s)
    ensures ps.rest.rest.rest.token == Sym(',')
    ensures Spells(ps.rest.rest.rest.rest, FieldsBefore(fields[1..], f - 1), field)
  {
    var key, value := [Literal(fields[0].0), Sym(':')], [Literal(fields[0].1.s), Sym(',')];
    var more := FieldsBefore(fields[1..], f - 1);
    assert FieldsBefore(fields, f) == key + (value + more);
    hide FieldsBefore, Literal, Spells;
    var mid := SpellsSplit(ps, key, value + more, field);
    TwoSpelled(ps, key, mid);
    var next := SpellsSplit(mid, value, more, field);
    TwoSpelled(mid, value, next);
  }

  /** A key whose field stands after string fields only is always looked up at a value. */
  lemma {:induction false} ScalarLanding(ps: Pieces, fields: Fields, f: nat, field: Pieces, k: string)
    requires f <= |fields| && Spells(ps, FieldsBefore(fields, f), field) && IsKeyName(k)
    requires field.Next? && field.token == Quoted(k) && field.rest.Next? && field.rest.token == Sym(':')
    requires forall i :: 0 <= i < f ==> fields[i].1.Str? && IsKeyName(fields[i].0)
    ensures LandsAt(ps, k).AtValue?
    ensures ps.Next? && ps.rest.Next? && !HasColon(ps.token) && ps.rest.token == Sym(':')
    decreases f
  {
    hide Spells, FieldsBefore, LandsAt, TokenColon, HasColon, IsKey, Literal, IsKeyName;
    KeyHasNoColon(k);
    if f == 0 {
      FieldsNone(ps, fields, field);
      LandsStep(ps, k);
      LandsStep(ps.rest, k);
    } else {
      ScalarField(ps, fields, f, field);
      KeyHasNoColon(fields[0].0);
      KeyLiteral(fields[0].0);
      var comma := ps.rest.rest.rest;
      forall i | 0 <= i < f - 1 ensures fields[1..][i].1.Str? && IsKeyName(fields[1..][i].0) {
        assert fields[1..][i] == fields[i + 1];
      }
      ScalarLanding(comma.rest, fields[1..], f - 1, field, k);
      LandsStep(comma.rest, k);
      LandsStep(comma, k);
      LandsStep(ps.rest.rest, k);
      LandsStep(ps.rest, k);
      LandsStep(ps, k);
      LandsStep(comma.rest.rest, k);
    }
  }

  lemma {:induction false} FieldsNone(ps: Pieces, fields: Fields, field: Pieces)
    requires Spells(ps, FieldsBefore(fields, 0), field)
    ensures ps == field
  {
    SpellsNothing(ps, field);
  }

  lemma {:induction false} CommandLands(ps: Pieces, config: AxisConfig, rootfs: string, id: string)
    requires LayoutOf(ps, RuntimeFields(config, rootfs, id))
    ensures LandsAt(ps, "command").AtValue?
  {
    hide *;
    var fields := RuntimeFields(config, rootfs, id);
    KeyNames();
    FirstFields(config, rootfs, id);
    var field, after := FieldSpelled(ps, fields, 4);
    FieldParts(field, "command", fields[4].1, after);
    BeforeParts(ps, fields, 4, field);
    ScalarLanding(ps.rest, fields, 4, field, "command");
    LandsStep(ps, "command");
    NoKeySymbol("command");
  }

  lemma NoKeySymbol(k: string)
    ensures !IsKey(Sym('{'), k)
  {
  }

  lemma {:induction false} BeforeParts(ps: Pieces, fields: Fields, f: nat, field: Pieces)
    requires f <= |fields| && Spells(ps, Before(fields, f), field)
    ensures ps.Next? && ps.token == Sym('{') && Spells(ps.rest, FieldsBefore(fields, f), field)
  {
    hide FieldsBefore, Spells;
    SpellsStep(ps, Before(fields, f), field);
    assert Before(fields, f)[1..] == FieldsBefore(fields, f);
  }

  /** Some field of the configuration is read from text between literals. */
  predicate Stray(ps: Pieces) {
    StrayString(LandsAt(ps, "name")) || StrayString(LandsAt(ps, "rootfs")) || StrayString(LandsAt(ps, "hostname")) ||
    StrayString(LandsAt(ps, "workdir")) || StrayMap(LandsAt(ps, "env")) || StrayMap(LandsAt(ps, "bind_mounts")) ||
    StrayString(LandsAt(ps, "cgroup_path")) || StrayString(LandsAt(ps, "memory")) || StrayString(LandsAt(ps, "cpu"))
  }

  /** Equal, or both succeed. */
  predicate Agree<T(==)>(r: Result<T, Error>, s: Result<T, Error>) { r == s || (r.Ok? && s.Ok?) }

  lemma {:induction false} LayoutsTwo(a: Pieces, b: Pieces, fields: Fields)
    requires LayoutOf(a, fields) && LayoutOf(b, fields)
    ensures TwoLayouts(a, b) && TwoLayouts(b, a)
  {
    LayoutParts(a, fields);
    LayoutParts(b, fields);
    LayoutValued(a, fields);
    LayoutValued(b, fields);
    hide Spaced, Readable, Valued, DocTokens, Spells;
    SameTokens(a, b, DocTokens(fields));
  }

  lemma {:induction false} StringAgree(a: Pieces, b: Pieces, k: string, required: bool)
    requires TwoLayouts(a, b) && IsKeyName(k)
    ensures Agree(StringField(Flat(a), k, required), StringField(Flat(b), k, required))
    ensures !StrayString(LandsAt(a, k)) ==> StringField(Flat(a), k, required) == StringField(Flat(b), k, required)
  {
    hide Flat, IsKeyName, StringField, LandsAt, TwoLayouts, StrayString;
    StringAlike(a, b, k, required);
  }

  lemma {:induction false} MapAgree(a: Pieces, b: Pieces, k: string, required: bool)
    requires TwoLayouts(a, b) && IsKeyName(k)
    ensures Agree(MapField(Flat(a), k, required), MapField(Flat(b), k, required))
    ensures !StrayMap(LandsAt(a, k)) ==> MapField(Flat(a), k, required) == MapField(Flat(b), k, required)
  {
    hide Flat, IsKeyName, MapField, LandsAt, TwoLayouts, StrayMap;
    MapAlike(a, b, k, required);
  }

  lemma {:induction false} CommandAlike(a: Pieces, b: Pieces, config: AxisConfig, rootfs: string, id: string)
    requires TwoLayouts(a, b) && LayoutOf(a, RuntimeFields(config, rootfs, id))
    ensures ArrayField(Flat(a), "command") == ArrayField(Flat(b), "command")
  {
    hide *;
    KeyNames();
    CommandLands(a, config, rootfs, id);
    LaidTwo(a, b);
    var v, x, y := SameValue(a, b, "command");
    ValueReads(a, "command", true, v, x);
    ValueReads(b, "command", true, v, y);
  }

  lemma LaidTwo(a: Pieces, b: Pieces)
    requires TwoLayouts(a, b)
    ensures Laid(a) && Laid(b)
  {
  }

  /** The ten fields in two layouts. */
  lemma {:induction false} FieldsAgree(a: Pieces, b: Pieces, config: AxisConfig, rootfs: string, id: string)
    requires LayoutOf(a, RuntimeFields(config, rootfs, id)) && LayoutOf(b, RuntimeFields(config, rootfs, id))
    ensures Agree(Load(Flat(a)), Load(Flat(b)))
    ensures !Stray(a) ==> Load(Flat(a)) == Load(Flat(b))
  {
    hide RuntimeFields, LayoutOf, LandsAt, StrayString, StrayMap, StringField, MapField, ArrayField, Flat, IsKeyName,
      TwoLayouts;
    LayoutsTwo(a, b, RuntimeFields(config, rootfs, id));
    KeyNames();
    StringAgree(a, b, "name", true);
    StringAgree(a, b, "rootfs", true);
    StringAgree(a, b, "hostname", true);
    StringAgree(a, b, "workdir", true);
    CommandAlike(a, b, config, rootfs, id);
    MapAgree(a, b, "env", true);
    MapAgree(a, b, "bind_mounts", false);
    StringAgree(a, b, "cgroup_path", true);
    StringAgree(a, b, "memory", false);
    StringAgree(a, b, "cpu", false);
  }

  // ----- exactly when it matters

  lemma {:induction false} StringDiffers(ps: Pieces, k: string, required: bool)
    requires TwoLayouts(Regap(ps, ""), Regap(ps, " ")) && IsKeyName(k) && StrayString(LandsAt(ps, k))
    ensures StringField(Flat(Regap(ps, "")), k, required) != StringField(Flat(Regap(ps, " ")), k, required)
  {
    hide Flat, IsKeyName, StringField, LandsAt, TwoLayouts, Regap, Between, NextLiteral;
    var n := LandsAt(ps, k).next;
    RegapLands(ps, k, "");
    RegapLands(ps, k, " ");
    RegapNext(n, "");
    StringAlike(Regap(ps, ""), Regap(ps, " "), k, required);
    BetweenGrows(n);
  }

  lemma {:induction false} MapDiffers(ps: Pieces, k: string, required: bool)
    requires TwoLayouts(Regap(ps, ""), Regap(ps, " ")) && IsKeyName(k) && StrayMap(LandsAt(ps, k))
    ensures MapField(Flat(Regap(ps, "")), k, required) != MapField(Flat(Regap(ps, " ")), k, required)
  {
    hide Flat, IsKeyName, MapField, LandsAt, TwoLayouts, Regap, EntriesIn, MapOf;
    var n, x := LandsAt(ps, k).next, LandsAt(ps, k).text[1..];
    RegapLands(ps, k, "");
    RegapLands(ps, k, " ");
    RegapEntries(x, n, "");
    RegapEntries(x, n, " ");
    MapAlike(Regap(ps, ""), Regap(ps, " "), k, required);
    EntriesGrow(x, n);
    MapsDiffer(EntriesIn(x, Regap(n, "")).value, EntriesIn(x, Regap(n, " ")).value);
  }

  lemma {:induction false} LoadOk(t: string)
    requires Load(t).Ok?
    ensures var r := Load(t).value;
            && StringField(t, "name", true) == Ok(r.name) && StringField(t, "rootfs", true) == Ok(r.rootfs)
            && StringField(t, "hostname", true) == Ok(r.hostname) && StringField(t, "workdir", true) == Ok(r.workdir)
            && ArrayField(t, "command") == Ok(r.command) && MapField(t, "env", true) == Ok(r.env)
            && MapField(t, "bind_mounts", false) == Ok(r.bindMounts)
            && StringField(t, "cgroup_path", true) == Ok(r.cgroupPath)
            && StringField(t, "memory", false) == Ok(r.memory) && StringField(t, "cpu", false) == Ok(r.cpu)
  {
    hide StringField, ArrayField, MapField;
  }

  lemma {:induction false} StrayDiffers(ps: Pieces)
    requires TwoLayouts(Regap(ps, ""), Regap(ps, " ")) && Stray(ps)
    requires Load(Flat(Regap(ps, ""))).Ok? && Load(Flat(Regap(ps, " "))).Ok?
    ensures Load(Flat(Regap(ps, ""))) != Load(Flat(Regap(ps, " ")))
  {
    hide LandsAt, StrayString, StrayMap, StringField, MapField, ArrayField, Flat, IsKeyName, TwoLayouts, Load, Regap;
    KeyNames();
    LoadOk(Flat(Regap(ps, "")));
    LoadOk(Flat(Regap(ps, " ")));
    if StrayString(LandsAt(ps, "name")) {
      StringDiffers(ps, "name", true);
    } else if StrayString(LandsAt(ps, "rootfs")) {
      StringDiffers(ps, "rootfs", true);
    } else if StrayString(LandsAt(ps, "hostname")) {
      StringDiffers(ps, "hostname", true);
    } else if StrayString(LandsAt(ps, "workdir")) {
      StringDiffers(ps, "workdir", true);
    } else if StrayMap(LandsAt(ps, "env")) {
      MapDiffers(ps, "env", true);
    } else if StrayMap(LandsAt(ps, "bind_mounts")) {
      MapDiffers(ps, "bind_mounts", false);
    } else if StrayString(LandsAt(ps, "cgroup_path")) {
      StringDiffers(ps, "cgroup_path", true);
    } else if StrayString(LandsAt(ps, "memory")) {
      StringDiffers(ps, "memory", false);
    } else {
      StringDiffers(ps, "cpu", false);
    }
  }

  /** The file loads alike, errors included, in every layout. */
  ghost predicate LoadsAlike(fields: Fields) {
    forall a, b :: LayoutOf(a, fields) && LayoutOf(b, fields) ==> Load(Flat(a)) == Load(Flat(b))
  }

  /**
    Adding or removing whitespace between the tokens of the printed file changes nothing, for every
    configuration, if and only if some lookup reads nothing or none lands on stray text. Both are
    conditions on the tokens alone.
   */
  lemma {:induction false} WhitespaceIrrelevant(config: AxisConfig, rootfs: string, id: string)
    ensures var fields := RuntimeFields(config, rootfs, id);
            LoadsAlike(fields) <==> !AllRead(DocPieces(fields)) || !Stray(DocPieces(fields))
  {
    hide RuntimeFields, LayoutOf, Load, Flat, DocPieces, Stray, Regap, TwoLayouts, AllRead, ReadsConfig;
    var fields := RuntimeFields(config, rootfs, id);
    var ps := DocPieces(fields);
    DumpsFlat(fields);
    DumpsIsLayout(fields);
    LoadsAs(ps, fields, Intended(config, rootfs, id));
    if Load(Dumps(fields)).Err? || !Stray(ps) {
      forall a, b | LayoutOf(a, fields) && LayoutOf(b, fields) ensures Load(Flat(a)) == Load(Flat(b)) {
        FieldsAgree(ps, a, config, rootfs, id);
        FieldsAgree(ps, b, config, rootfs, id);
      }
    } else {
      var a, b := Regap(ps, ""), Regap(ps, " ");
      RegapLayout(ps, fields, "");
      RegapLayout(ps, fields, " ");
      LayoutsTwo(a, b, fields);
      FieldsAgree(ps, a, config, rootfs, id);
      FieldsAgree(ps, b, config, rootfs, id);
      StrayDiffers(ps);
    }
  }

  /** A key that is found lands on its value. */
  lemma {:induction false} FoundLands(ps: Pieces, fields: Fields, f: nat)
    requires LayoutOf(ps, fields) && Found(fields, f) && IsKeyName(fields[f].0)
    ensures LandsAt(ps, fields[f].0).AtValue?
  {
    hide *;
    FoundMeans(fields, f);
    var k := fields[f].0;
    KeyHasNoColon(k);
    var field, after := FieldSpelled(ps, fields, f);
    FieldParts(field, k, fields[f].1, after);
    NoColonKey(k);
    SearchFrom(ps, Before(fields, f), field, k);
    LandsAtMeans(ps, k);
    LandsStep(field.rest, k);
    FromSymbol(field.rest);
  }

  lemma NoColonKey(k: string)
    requires IsKeyName(k)
    ensures ':' !in k
  {
  }

  lemma FromSymbol(c: Pieces)
    requires c.Next? && c.token == Sym(':')
    ensures FromColon(Some(c)) == AtValue(c.rest)
  {
  }
}
