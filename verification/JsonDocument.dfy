/**
  A reader of JSON documents as RFC 8259 describes them, which knows nothing of any printer, and what
  it makes of the documents that json.dumps prints. Numbers, which runtime.json has none of, are not
  read, and the two halves of a surrogate pair must stand together.
 */
module JsonDocument {
  import opened Wrappers
  import opened JsonText
  import opened JsonStrings

  datatype JsonValue =
    | JNull
    | JBool(b: bool)
    | JString(s: string)
    | JArray(items: seq<JsonValue>)
    | JObject(members: seq<(string, JsonValue)>)

  // ----- strings: section 7

  /** The value of a hexadecimal digit in either case. */
  function HexValue(c: char): Option<nat> {
    if '0' <= c <= '9' then Some(c as int - '0' as int)
    else if 'a' <= c <= 'f' then Some(c as int - 'a' as int + 10)
    else if 'A' <= c <= 'F' then Some(c as int - 'A' as int + 10)
    else None
  }

  /** The value of four hexadecimal digits at the start of a text. */
  function HexFour(t: string): (n: Option<nat>)
    ensures n.Some? ==> n.value < 0x10000 && |t| >= 4
  {
    if |t| < 4 then None
    else
      var a, b, c, d := HexValue(t[0]), HexValue(t[1]), HexValue(t[2]), HexValue(t[3]);
      if a.None? || b.None? || c.None? || d.None? then None
      else
        HexBound(t[0]);
        HexBound(t[1]);
        HexBound(t[2]);
        HexBound(t[3]);
        Some(4096 * a.value + 256 * b.value + 16 * c.value + d.value)
  }

  lemma HexBound(c: char)
    ensures HexValue(c).Some? ==> HexValue(c).value < 16
  {
  }

  /** The character of a \u escape, given the text after the u, and the text after the escape. */
  function Unicode(t: string): (r: Option<(char, string)>)
    ensures r.Some? ==> |r.value.1| < |t|
  {
    match HexFour(t)
    case None => None
    case Some(n) =>
      if 0xD800 <= n < 0xDC00 then
        if |t| < 6 || t[4] != '\\' || t[5] != 'u' then None
        else
          match HexFour(t[6..])
          case None => None
          case Some(m) =>
            if 0xDC00 <= m < 0xE000 then Some(((0x10000 + (n - 0xD800) * 0x400 + (m - 0xDC00)) as char, t[10..]))
            else None
      else if 0xDC00 <= n < 0xE000 then None
      else Some((n as char, t[4..]))
  }

  /** One character of a string, escaped or not, and the text after it. */
  function OneChar(t: string): (r: Option<(char, string)>)
    requires t != ""
    ensures r.Some? ==> |r.value.1| < |t|
  {
    if t[0] as int < 0x20 || t[0] == '"' then None
    else if t[0] != '\\' then Some((t[0], t[1..]))
    else if |t| == 1 then None
    else
      match t[1]
      case '"' => Some(('"', t[2..]))
      case '\\' => Some(('\\', t[2..]))
      case '/' => Some(('/', t[2..]))
      case 'b' => Some((8 as char, t[2..]))
      case 'f' => Some((12 as char, t[2..]))
      case 'n' => Some((10 as char, t[2..]))
      case 'r' => Some((13 as char, t[2..]))
      case 't' => Some((9 as char, t[2..]))
      case 'u' => Unicode(t[2..])
      case _ => None
  }

  /** The string that begins after a quotation mark, and the text after its closing one. */
  function ReadString(t: string): (r: Option<(string, string)>)
    ensures r.Some? ==> |r.value.1| < |t|
    decreases |t|
  {
    if t == "" then None
    else if t[0] == '"' then Some(("", t[1..]))
    else
      match OneChar(t)
      case None => None
      case Some((c, after)) =>
        match ReadString(after)
        case None => None
        case Some((s, rest)) => Some(([c] + s, rest))
  }

  // ----- values: sections 2 to 5

  predicate JsonSpace(c: char) { c == ' ' || c == '\t' || c == '\n' || c == '\r' }

  predicate AllJsonSpace(s: string) { forall i :: 0 <= i < |s| ==> JsonSpace(s[i]) }

  function SkipSpace(t: string): (r: string)
    ensures |r| <= |t|
  {
    if t != "" && JsonSpace(t[0]) then SkipSpace(t[1..]) else t
  }

  /** The first character after white space is this one. */
  predicate NextIs(t: string, c: char) { SkipSpace(t) != "" && SkipSpace(t)[0] == c }

  /** The text after it. */
  function Past(t: string): (r: string)
    requires SkipSpace(t) != ""
    ensures |r| < |t|
  {
    SkipSpace(t)[1..]
  }

  function ReadValue(t: string): (r: Option<(JsonValue, string)>)
    ensures r.Some? ==> |r.value.1| < |t|
    decreases |t|, 0
  {
    if NextIs(t, '"') then
      match ReadString(Past(t)) case None => None case Some((s, rest)) => Some((JString(s), rest))
    else if NextIs(t, '[') then
      var u := Past(t);
      if NextIs(u, ']') then Some((JArray([]), Past(u)))
      else match ReadItems(u) case None => None case Some((items, rest)) => Some((JArray(items), rest))
    else if NextIs(t, '{') then
      var u := Past(t);
      if NextIs(u, '}') then Some((JObject([]), Past(u)))
      else match ReadMembers(u) case None => None case Some((members, rest)) => Some((JObject(members), rest))
    else
      var u := SkipSpace(t);
      if "null" <= u then Some((JNull, u[4..]))
      else if "true" <= u then Some((JBool(true), u[4..]))
      else if "false" <= u then Some((JBool(false), u[5..]))
      else None
  }

  /** Values up to the closing bracket. */
  function ReadItems(t: string): (r: Option<(seq<JsonValue>, string)>)
    ensures r.Some? ==> |r.value.1| < |t|
    decreases |t|, 1
  {
    match ReadValue(t)
    case None => None
    case Some((v, u)) =>
      if NextIs(u, ']') then Some(([v], Past(u)))
      else if !NextIs(u, ',') then None
      else
        match ReadItems(Past(u))
        case None => None
        case Some((items, rest)) => Some(([v] + items, rest))
  }

  /** Names and values up to the closing brace. */
  function ReadMembers(t: string): (r: Option<(seq<(string, JsonValue)>, string)>)
    ensures r.Some? ==> |r.value.1| < |t|
    decreases |t|, 1
  {
    if !NextIs(t, '"') then None
    else
      match ReadString(Past(t))
      case None => None
      case Some((name, u)) =>
        if !NextIs(u, ':') then None
        else
          match ReadValue(Past(u))
          case None => None
          case Some((v, w)) =>
            if NextIs(w, '}') then Some(([(name, v)], Past(w)))
            else if !NextIs(w, ',') then None
            else
              match ReadMembers(Past(w))
              case None => None
              case Some((members, rest)) => Some(([(name, v)] + members, rest))
  }

  /** One value, and nothing but white space after it. */
  function ReadDocument(t: string): Option<JsonValue> {
    match ReadValue(t)
    case None => None
    case Some((v, rest)) => if SkipSpace(rest) == "" then Some(v) else None
  }

  // ----- a printed string is read back

  lemma {:induction false} HexDigitValue(n: nat)
    requires n < 16
    ensures HexValue(HexDigit(n)) == Some(n) && ('0' <= HexDigit(n) <= '9' || 'a' <= HexDigit(n) <= 'f')
  {
  }

  lemma {:induction false} FourDigits(n: nat)
    requires n < 0x10000
    ensures n == 4096 * (n / 4096) + 256 * (n / 256 % 16) + 16 * (n / 16 % 16) + n % 16 && n / 4096 < 16
  {
    var a := n / 16;
    var b := a / 16;
    assert n == 16 * a + n % 16 && a == 16 * b + a % 16 && b == 16 * (b / 16) + b % 16;
    assert n / 256 == b && n / 4096 == b / 16;
  }

  /** A \u escape has four lower-case digits whose value is the number. */
  lemma {:induction false} EscapeValue(n: nat)
    requires n < 0x10000
    ensures var e := UnicodeEscape(n);
            |e| == 6 && e[0] == '\\' && e[1] == 'u' && HexFour(e[2..]) == Some(n) && e[1..] == HexDigits(n) &&
            forall i :: 2 <= i < 6 ==> '0' <= e[i] <= '9' || 'a' <= e[i] <= 'f'
  {
    hide HexDigit, HexValue;
    HexDigitValue(n / 4096);
    HexDigitValue(n / 256 % 16);
    HexDigitValue(n / 16 % 16);
    HexDigitValue(n % 16);
    FourDigits(n);
  }

  lemma {:induction false} HexPrefix(e: string, t: string)
    requires |e| >= 4
    ensures HexFour(e + t) == HexFour(e)
  {
    assert forall i :: 0 <= i < 4 ==> (e + t)[i] == e[i];
  }

  /** The encoder's form of a character is read as the character. */
  lemma {:induction false} CharRead(c: char, t: string)
    ensures EscapeChar(c) + t != "" && OneChar(EscapeChar(c) + t) == Some((c, t)) && EscapeChar(c)[0] != '"'
  {
    hide UnicodeEscape, HexFour;
    var n := c as int;
    var e := EscapeChar(c) + t;
    if c == '\\' || c == '"' || n == 8 || n == 12 || c == '\n' || c == '\r' || c == '\t' {
      assert e[2..] == t;
    } else if 0x20 <= n <= 0x7E {
      assert e[1..] == t;
    } else {
      UnicodeRead(c, t);
    }
  }

  /** A character outside ASCII, or a control character without a short form. */
  lemma {:induction false} UnicodeRead(c: char, t: string)
    requires EscapeChar(c) == if c as int < 0x10000 then UnicodeEscape(c as int)
                              else UnicodeEscape(0xD800 + (c as int - 0x10000) / 1024) +
                                   UnicodeEscape(0xDC00 + (c as int - 0x10000) % 1024)
    ensures var e := EscapeChar(c) + t; EscapeChar(c) != "" && e[0] == '\\' && OneChar(e) == Some((c, t))
  {
    hide UnicodeEscape, HexFour;
    var n := c as int;
    var e := EscapeChar(c) + t;
    if n < 0x10000 {
      EscapeValue(n);
      HexPrefix(UnicodeEscape(n)[2..], t);
      assert e[2..] == UnicodeEscape(n)[2..] + t && e[2..][4..] == t;
    } else {
      var hi, lo := 0xD800 + (n - 0x10000) / 1024, 0xDC00 + (n - 0x10000) % 1024;
      EscapeValue(hi);
      EscapeValue(lo);
      var a, b := UnicodeEscape(hi), UnicodeEscape(lo);
      HexPrefix(a[2..], b + t);
      HexPrefix(b[2..], t);
      assert e[2..] == a[2..] + (b + t);
      assert e[2..][6..] == b[2..] + t && e[2..][10..] == t;
    }
  }

  /** A printed string is read back as the string, whatever follows it. */
  lemma {:induction false} StringRead(s: string, rest: string)
    ensures ReadString(Escape(s) + "\"" + rest) == Some((s, rest))
    decreases |s|
  {
    hide EscapeChar, OneChar;
    var t := Escape(s) + "\"" + rest;
    if s == "" {
      assert t[1..] == rest;
    } else {
      var after := Escape(s[1..]) + "\"" + rest;
      assert t == EscapeChar(s[0]) + after;
      CharRead(s[0], after);
      StringRead(s[1..], rest);
      assert s == [s[0]] + s[1..];
    }
  }

  /** The printed form is plain ASCII: the encoder's ensure_ascii. */
  lemma {:induction false} PrintedAscii(s: string)
    ensures forall i :: 0 <= i < |Escape(s)| ==> 0x20 <= Escape(s)[i] as int <= 0x7E
  {
    hide EscapeChar;
    if s != "" {
      CharAscii(s[0]);
      PrintedAscii(s[1..]);
    }
  }

  lemma {:induction false} CharAscii(c: char)
    ensures forall i :: 0 <= i < |EscapeChar(c)| ==> 0x20 <= EscapeChar(c)[i] as int <= 0x7E
  {
    hide UnicodeEscape, HexFour;
    var n := c as int;
    if n < 0x20 || 0x7E < n < 0x10000 {
      EscapeValue(n);
    } else if n >= 0x10000 {
      EscapeValue(0xD800 + (n - 0x10000) / 1024);
      EscapeValue(0xDC00 + (n - 0x10000) % 1024);
    }
  }

  // ----- a printed document is read back

  /** The white space between the tokens is that of section 2. */
  predicate JsonSpaced(ps: Pieces) {
    AllJsonSpace(ps.gap) && (ps.Next? ==> JsonSpaced(ps.rest))
  }

  /** std::isspace adds the vertical tab and the form feed. */
  lemma {:induction false} SpacesExactly(c: char)
    ensures IsSpace(c) <==> JsonSpace(c) || c == 11 as char || c == 12 as char
  {
  }

  /** What is said of every layout is said of those in JSON white space. */
  lemma {:induction false} JsonSpacedIsSpaced(ps: Pieces)
    requires JsonSpaced(ps)
    ensures Spaced(ps)
  {
    forall i | 0 <= i < |ps.gap| ensures IsSpace(ps.gap[i]) {
      SpacesExactly(ps.gap[i]);
    }
    if ps.Next? {
      JsonSpacedIsSpaced(ps.rest);
    }
  }

  function Strings(items: seq<string>): seq<JsonValue> {
    if items == [] then [] else [JString(items[0])] + Strings(items[1..])
  }

  function Members(entries: seq<Entry>): seq<(string, JsonValue)> {
    if entries == [] then [] else [(entries[0].key, JString(entries[0].value))] + Members(entries[1..])
  }

  function JsonOf(v: Value): JsonValue {
    match v
    case Str(s) => JString(s)
    case Null => JNull
    case Arr(items) => JArray(Strings(items))
    case Obj(entries) => JObject(Members(entries))
  }

  function FieldMembers(fields: Fields): seq<(string, JsonValue)> {
    if fields == [] then [] else [(fields[0].0, JsonOf(fields[0].1))] + FieldMembers(fields[1..])
  }

  lemma {:induction false} SkipGap(gap: string, t: string)
    requires AllJsonSpace(gap) && t != "" && !JsonSpace(t[0])
    ensures SkipSpace(gap + t) == t
    decreases |gap|
  {
    if gap == "" {
      assert gap + t == t;
    } else {
      assert (gap + t)[1..] == gap[1..] + t;
      SkipGap(gap[1..], t);
    }
  }

  lemma {:induction false} SkipOnly(gap: string)
    requires AllJsonSpace(gap)
    ensures SkipSpace(gap) == ""
    decreases |gap|
  {
    if gap != "" {
      SkipOnly(gap[1..]);
    }
  }

  /** The tokens that a document is made of. */
  predicate JsonToken(t: Token) { t.Sym? ==> t.c in {'[', ']', '{', '}', ',', ':'} }

  /** The next token stands where the white space ends. */
  lemma {:induction false} AtToken(ps: Pieces)
    requires ps.Next? && JsonSpaced(ps) && JsonToken(ps.token)
    ensures SkipSpace(Flat(ps)) == ps.token.Chars() + Flat(ps.rest)
    ensures forall c :: NextIs(Flat(ps), c) <==> c == ps.token.First()
    ensures JsonSpaced(ps.rest)
  {
    var t := ps.token.Chars() + Flat(ps.rest);
    assert t[0] == ps.token.First();
    SkipGap(ps.gap, t);
  }

  /** A symbol is passed. */
  lemma {:induction false} AtSymbol(ps: Pieces, c: char)
    requires ps.Next? && JsonSpaced(ps) && ps.token == Sym(c) && JsonToken(ps.token)
    ensures forall d :: NextIs(Flat(ps), d) <==> d == c
    ensures SkipSpace(Flat(ps)) != "" && Past(Flat(ps)) == Flat(ps.rest) && JsonSpaced(ps.rest)
  {
    AtToken(ps);
    assert ([c] + Flat(ps.rest))[1..] == Flat(ps.rest);
  }

  /** A literal is read. */
  lemma {:induction false} AtLiteral(ps: Pieces, s: string)
    requires ps.Next? && JsonSpaced(ps) && ps.token == Literal(s)
    ensures forall d :: NextIs(Flat(ps), d) <==> d == '"'
    ensures SkipSpace(Flat(ps)) != "" && ReadString(Past(Flat(ps))) == Some((s, Flat(ps.rest)))
    ensures ReadValue(Flat(ps)) == Some((JString(s), Flat(ps.rest))) && JsonSpaced(ps.rest)
  {
    hide Escape, ReadString, SkipSpace;
    AtToken(ps);
    var t := Escape(s) + "\"" + Flat(ps.rest);
    assert Past(Flat(ps)) == t;
    StringRead(s, Flat(ps.rest));
  }

  lemma {:induction false} AtNull(ps: Pieces)
    requires ps.Next? && JsonSpaced(ps) && ps.token == NullWord
    ensures ReadValue(Flat(ps)) == Some((JNull, Flat(ps.rest))) && JsonSpaced(ps.rest)
  {
    hide SkipSpace;
    AtToken(ps);
    var u := SkipSpace(Flat(ps));
    assert u == "null" + Flat(ps.rest) && u[..4] == "null" && u[4..] == Flat(ps.rest);
  }

  lemma {:induction false} SpelledOne(ps: Pieces, ts: seq<Token>, rest: Pieces)
    requires ts != [] && Spells(ps, ts, rest)
    ensures ps.Next? && ps.token == ts[0] && Spells(ps.rest, ts[1..], rest)
  {
  }

  lemma {:induction false} ItemsRead(ps: Pieces, items: seq<string>, rest: Pieces)
    requires items != [] && JsonSpaced(ps) && Spells(ps, ItemTokens(items) + [Sym(']')], rest)
    ensures ReadItems(Flat(ps)) == Some((Strings(items), Flat(rest))) && JsonSpaced(rest)
    decreases |items|
  {
    hide Literal, ReadValue, Flat, JsonSpaced, SkipSpace, NextIs, Past, Spells;
    var ts := ItemTokens(items) + [Sym(']')];
    SpelledOne(ps, ts, rest);
    var after := ps.rest;
    AtLiteral(ps, items[0]);
    SpelledOne(after, ts[1..], rest);
    if |items| == 1 {
      assert ts[1..] == [Sym(']')] && ts[1..][1..] == [];
      AtSymbol(after, ']');
      SpelledNone(after.rest, rest);
      assert items[1..] == [] && Strings(items) == [JString(items[0])];
    } else {
      var more := ItemTokens(items[1..]) + [Sym(']')];
      assert ts[1..] == [Sym(',')] + more && ts[1..][1..] == more;
      AtSymbol(after, ',');
      ItemsRead(after.rest, items[1..], rest);
    }
  }

  lemma SpelledNone(ps: Pieces, rest: Pieces)
    requires Spells(ps, [], rest)
    ensures ps == rest
  {
  }

  /** One step of the reading of an object. */
  lemma {:induction false} MemberStep(t: string, name: string, u: string, v: JsonValue, w: string)
    requires NextIs(t, '"') && ReadString(Past(t)) == Some((name, u)) && NextIs(u, ':')
    requires ReadValue(Past(u)) == Some((v, w)) && SkipSpace(w) != ""
    ensures NextIs(w, '}') ==> ReadMembers(t) == Some(([(name, v)], Past(w)))
    ensures !NextIs(w, '}') && NextIs(w, ',') && ReadMembers(Past(w)).Some? ==>
              ReadMembers(t) ==
              Some(([(name, v)] + ReadMembers(Past(w)).value.0, ReadMembers(Past(w)).value.1))
  {
    hide ReadString, ReadValue, SkipSpace, Past;
  }

  lemma {:induction false} EntriesRead(ps: Pieces, entries: seq<Entry>, rest: Pieces)
    requires entries != [] && JsonSpaced(ps) && Spells(ps, EntryTokens(entries) + [Sym('}')], rest)
    ensures ReadMembers(Flat(ps)) == Some((Members(entries), Flat(rest))) && JsonSpaced(rest)
    decreases |entries|
  {
    hide Literal, ReadValue, Flat, JsonSpaced, SkipSpace, NextIs, Past, Spells, ReadString, ReadMembers;
    var ts := EntryTokens(entries) + [Sym('}')];
    var tail := ts[3..];
    assert ts[1..][1..] == ts[2..] && ts[2..][1..] == tail;
    SpelledOne(ps, ts, rest);
    AtLiteral(ps, entries[0].key);
    SpelledOne(ps.rest, ts[1..], rest);
    AtSymbol(ps.rest, ':');
    SpelledOne(ps.rest.rest, ts[2..], rest);
    AtLiteral(ps.rest.rest, entries[0].value);
    var after := ps.rest.rest.rest;
    SpelledOne(after, tail, rest);
    AtSymbol(after, if |entries| == 1 then '}' else ',');
    MemberStep(Flat(ps), entries[0].key, Flat(ps.rest), JString(entries[0].value), Flat(after));
    if |entries| == 1 {
      assert tail == [Sym('}')] && tail[1..] == [];
      SpelledNone(after.rest, rest);
      assert entries[1..] == [] && Members(entries) == [(entries[0].key, JString(entries[0].value))];
    } else {
      var more := EntryTokens(entries[1..]) + [Sym('}')];
      assert tail == [Sym(',')] + more && tail[1..] == more;
      EntriesRead(after.rest, entries[1..], rest);
    }
  }

  lemma {:induction false} ArrayRead(ps: Pieces, items: seq<string>, rest: Pieces)
    requires JsonSpaced(ps) && Spells(ps, ValueTokens(Arr(items)), rest)
    ensures ReadValue(Flat(ps)) == Some((JArray(Strings(items)), Flat(rest))) && JsonSpaced(rest)
  {
    hide Literal, Flat, JsonSpaced, SkipSpace, NextIs, Past, Spells, ReadItems, ReadMembers, ReadString, ItemTokens;
    var ts := ValueTokens(Arr(items));
    var more := ItemTokens(items) + [Sym(']')];
    assert ts == [Sym('[')] + more && ts[1..] == more;
    SpelledOne(ps, ts, rest);
    AtSymbol(ps, '[');
    if items == [] {
      NoTokens();
      assert more == [Sym(']')] && more[1..] == [];
      SpelledOne(ps.rest, more, rest);
      AtSymbol(ps.rest, ']');
      SpelledNone(ps.rest.rest, rest);
    } else {
      FirstItem(items);
      SpelledOne(ps.rest, more, rest);
      AtLiteral(ps.rest, items[0]);
      ItemsRead(ps.rest, items, rest);
    }
  }

  lemma NoTokens()
    ensures ItemTokens([]) == [] && EntryTokens([]) == []
  {
  }

  lemma FirstItem(items: seq<string>)
    requires items != []
    ensures ItemTokens(items) != [] && ItemTokens(items)[0] == Literal(items[0])
  {
  }

  lemma FirstEntry(entries: seq<Entry>)
    requires entries != []
    ensures EntryTokens(entries) != [] && EntryTokens(entries)[0] == Literal(entries[0].key)
  {
  }

  lemma {:induction false} ObjectRead(ps: Pieces, entries: seq<Entry>, rest: Pieces)
    requires JsonSpaced(ps) && Spells(ps, ValueTokens(Obj(entries)), rest)
    ensures ReadValue(Flat(ps)) == Some((JObject(Members(entries)), Flat(rest))) && JsonSpaced(rest)
  {
    hide Literal, Flat, JsonSpaced, SkipSpace, NextIs, Past, Spells, ReadItems, ReadMembers, ReadString, EntryTokens;
    var ts := ValueTokens(Obj(entries));
    var more := EntryTokens(entries) + [Sym('}')];
    assert ts == [Sym('{')] + more && ts[1..] == more;
    SpelledOne(ps, ts, rest);
    AtSymbol(ps, '{');
    if entries == [] {
      NoTokens();
      assert more == [Sym('}')] && more[1..] == [];
      SpelledOne(ps.rest, more, rest);
      AtSymbol(ps.rest, '}');
      SpelledNone(ps.rest.rest, rest);
    } else {
      FirstEntry(entries);
      SpelledOne(ps.rest, more, rest);
      AtLiteral(ps.rest, entries[0].key);
      EntriesRead(ps.rest, entries, rest);
    }
  }

  lemma {:induction false} ValueRead(ps: Pieces, v: Value, rest: Pieces)
    requires JsonSpaced(ps) && Spells(ps, ValueTokens(v), rest)
    ensures ReadValue(Flat(ps)) == Some((JsonOf(v), Flat(rest))) && JsonSpaced(rest)
  {
    hide Literal, Flat, JsonSpaced, Spells, ReadValue;
    match v
    case Str(s) =>
      SpelledOne(ps, [Literal(s)], rest);
      assert [Literal(s)][1..] == [];
      SpelledNone(ps.rest, rest);
      AtLiteral(ps, s);
    case Null =>
      SpelledOne(ps, [NullWord], rest);
      assert [NullWord][1..] == [];
      SpelledNone(ps.rest, rest);
      AtNull(ps);
    case Arr(items) => ArrayRead(ps, items, rest);
    case Obj(entries) => ObjectRead(ps, entries, rest);
  }

  lemma {:induction false} FieldsRead(ps: Pieces, fields: Fields, rest: Pieces)
    requires fields != [] && JsonSpaced(ps) && Spells(ps, FieldTokens(fields) + [Sym('}')], rest)
    ensures ReadMembers(Flat(ps)) == Some((FieldMembers(fields), Flat(rest))) && JsonSpaced(rest)
    decreases |fields|
  {
    hide Literal, ReadValue, Flat, JsonSpaced, SkipSpace, NextIs, Past, Spells, ReadString, ReadMembers, ValueTokens,
      JsonOf;
    var ts := FieldTokens(fields) + [Sym('}')];
    var v := ValueTokens(fields[0].1);
    var tail := if |fields| == 1 then [Sym('}')] else [Sym(',')] + (FieldTokens(fields[1..]) + [Sym('}')]);
    assert ts == [Literal(fields[0].0), Sym(':')] + (v + tail);
    assert ts[1..] == [Sym(':')] + (v + tail) && ts[1..][1..] == v + tail;
    SpelledOne(ps, ts, rest);
    AtLiteral(ps, fields[0].0);
    SpelledOne(ps.rest, ts[1..], rest);
    AtSymbol(ps.rest, ':');
    var after := SpellsSplit(ps.rest.rest, v, tail, rest);
    ValueRead(ps.rest.rest, fields[0].1, after);
    SpelledOne(after, tail, rest);
    AtSymbol(after, if |fields| == 1 then '}' else ',');
    MemberStep(Flat(ps), fields[0].0, Flat(ps.rest), JsonOf(fields[0].1), Flat(after));
    if |fields| == 1 {
      assert tail[1..] == [];
      SpelledNone(after.rest, rest);
      assert fields[1..] == [] && FieldMembers(fields) == [(fields[0].0, JsonOf(fields[0].1))];
    } else {
      assert tail[1..] == FieldTokens(fields[1..]) + [Sym('}')];
      FieldsRead(after.rest, fields[1..], rest);
    }
  }

  /**
    Every layout of a document in the white space of section 2 is read as the document's fields, in
    order.
   */
  lemma {:induction false} LayoutRead(ps: Pieces, fields: Fields)
    requires JsonSpaced(ps) && exists tail :: Spells(ps, DocTokens(fields), Tail(tail))
    ensures LayoutOf(ps, fields)
    ensures ReadDocument(Flat(ps)) == Some(JObject(FieldMembers(fields)))
  {
    JsonSpacedIsSpaced(ps);
    var tail :| Spells(ps, DocTokens(fields), Tail(tail));
    DocumentRead(ps, fields, tail);
  }

  lemma {:induction false} DocumentRead(ps: Pieces, fields: Fields, tail: string)
    requires JsonSpaced(ps) && Spells(ps, DocTokens(fields), Tail(tail))
    ensures ReadDocument(Flat(ps)) == Some(JObject(FieldMembers(fields)))
  {
    ObjectOfFields(ps, fields, Tail(tail));
    assert Flat(Tail(tail)) == tail && AllJsonSpace(tail);
    SkipOnly(tail);
  }

  lemma {:induction false} ObjectOfFields(ps: Pieces, fields: Fields, rest: Pieces)
    requires JsonSpaced(ps) && Spells(ps, DocTokens(fields), rest)
    ensures ReadValue(Flat(ps)) == Some((JObject(FieldMembers(fields)), Flat(rest))) && JsonSpaced(rest)
  {
    hide Literal, Flat, JsonSpaced, SkipSpace, NextIs, Past, Spells, ReadItems, ReadMembers, ReadString, FieldTokens;
    var ts := DocTokens(fields);
    var more := FieldTokens(fields) + [Sym('}')];
    assert ts == [Sym('{')] + more && ts[1..] == more;
    SpelledOne(ps, ts, rest);
    AtSymbol(ps, '{');
    if fields == [] {
      NoFields();
      assert more == [Sym('}')] && more[1..] == [];
      SpelledOne(ps.rest, more, rest);
      AtSymbol(ps.rest, '}');
      SpelledNone(ps.rest.rest, rest);
    } else {
      FirstOfFields(fields);
      SpelledOne(ps.rest, more, rest);
      AtLiteral(ps.rest, fields[0].0);
      FieldsRead(ps.rest, fields, rest);
    }
  }

  lemma NoFields()
    ensures FieldTokens([]) == [] && FieldMembers([]) == []
  {
  }

  lemma FirstOfFields(fields: Fields)
    requires fields != []
    ensures FieldTokens(fields) != [] && FieldTokens(fields)[0] == Literal(fields[0].0)
  {
  }

  // ----- json.dumps uses no other white space

  lemma {:induction false} ItemsSpaced(items: seq<string>, rest: Pieces)
    requires JsonSpaced(rest)
    ensures JsonSpaced(ItemPieces(items, rest))
  {
    if |items| > 1 {
      ItemsSpaced(items[1..], rest);
    }
  }

  lemma {:induction false} EntriesSpaced(entries: seq<Entry>, rest: Pieces)
    requires JsonSpaced(rest)
    ensures JsonSpaced(EntryPieces(entries, rest))
  {
    if entries != [] {
      if |entries| > 1 {
        EntriesSpaced(entries[1..], rest);
      }
      var after := EntryPieces(entries, rest).rest.rest.rest;
      assert JsonSpaced(after);
      assert JsonSpaced(Next(" ", Literal(entries[0].value), after));
    }
  }

  lemma {:induction false} ValueSpaced(v: Value, rest: Pieces)
    requires JsonSpaced(rest)
    ensures JsonSpaced(ValuePieces(v, rest))
  {
    match v
    case Str(s) =>
    case Null =>
    case Arr(items) => ItemsSpaced(items, Next(if items == [] then "" else "\n  ", Sym(']'), rest));
    case Obj(entries) => EntriesSpaced(entries, Next(if entries == [] then "" else "\n  ", Sym('}'), rest));
  }

  lemma {:induction false} FieldsSpaced(fields: Fields, rest: Pieces)
    requires JsonSpaced(rest)
    ensures JsonSpaced(FieldPieces(fields, rest))
  {
    if fields != [] {
      var after := if |fields| == 1 then rest else Next("", Sym(','), FieldPieces(fields[1..], rest));
      if |fields| > 1 {
        FieldsSpaced(fields[1..], rest);
      }
      ValueSpaced(fields[0].1, after);
    }
  }

  /** What json.dumps prints is read back as the document's fields. */
  lemma {:induction false} DumpsRead(fields: Fields)
    ensures ReadDocument(Dumps(fields)) == Some(JObject(FieldMembers(fields)))
  {
    DumpsIsLayout(fields);
    FieldsSpaced(fields, Next(if fields == [] then "" else "\n", Sym('}'), Tail("\n")));
    hide ReadDocument, FieldMembers;
    LayoutRead(DocPieces(fields), fields);
  }
}
