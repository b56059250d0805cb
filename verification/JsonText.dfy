/**
  The printed side of runtime.json: string escaping as Python's default JSON encoder does it, the
  document printed with an indent of two, and the token stream that any other layout of the same
  document shares with it.
 */
module JsonText {
  import opened Text

  /** std::isspace in the C locale. */
  predicate IsSpace(c: char) { c == ' ' || 9 <= c as int <= 13 }

  predicate AllSpace(s: string) { forall i :: 0 <= i < |s| ==> IsSpace(s[i]) }

  // ----- string literals

  function HexDigit(n: nat): char
    requires n < 16
  {
    "0123456789abcdef"[n]
  }

  function UnicodeEscape(n: nat): string
    requires n < 0x10000
  {
    ['\\', 'u', HexDigit(n / 4096), HexDigit(n / 256 % 16), HexDigit(n / 16 % 16), HexDigit(n % 16)]
  }

  /** One character of a string literal, with the encoder's ensure_ascii setting. */
  function EscapeChar(c: char): string {
    var n := c as int;
    if c == '\\' then "\\\\"
    else if c == '"' then "\\\""
    else if n == 8 then "\\b"
    else if n == 12 then "\\f"
    else if c == '\n' then "\\n"
    else if c == '\r' then "\\r"
    else if c == '\t' then "\\t"
    else if 0x20 <= n <= 0x7E then [c]
    else if n < 0x10000 then UnicodeEscape(n)
    else UnicodeEscape(0xD800 + (n - 0x10000) / 1024) + UnicodeEscape(0xDC00 + (n - 0x10000) % 1024)
  }

  function Escape(s: string): string {
    if s == "" then "" else EscapeChar(s[0]) + Escape(s[1..])
  }

  lemma {:induction false} EscapeConcat(a: string, b: string)
    ensures Escape(a + b) == Escape(a) + Escape(b)
  {
    if a == "" {
      assert a + b == b;
    } else {
      assert (a + b)[1..] == a[1..] + b;
      EscapeConcat(a[1..], b);
    }
  }

  // ----- tokens and layouts

  datatype Token = Quoted(body: string) | Sym(c: char) | NullWord {
    function Chars(): string {
      match this
      case Quoted(body) => "\"" + body + "\""
      case Sym(c) => [c]
      case NullWord => "null"
    }

    function First(): (c: char)
      ensures Chars() != "" && Chars()[0] == c
    {
      match this
      case Quoted(_) => '"'
      case Sym(c) => c
      case NullWord => 'n'
    }
  }

  /** A text cut into tokens, each with the gap before it. */
  datatype Pieces = Tail(gap: string) | Next(gap: string, token: Token, rest: Pieces)

  function Flat(ps: Pieces): string {
    match ps
    case Tail(gap) => gap
    case Next(gap, token, rest) => gap + (token.Chars() + Flat(rest))
  }

  /** Only whitespace stands between the tokens. */
  predicate Spaced(ps: Pieces) {
    AllSpace(ps.gap) && (ps.Next? ==> Spaced(ps.rest))
  }

  /** `ps` lays out the tokens `ts`, in any whitespace, and goes on with `rest`. */
  predicate Spells(ps: Pieces, ts: seq<Token>, rest: Pieces) {
    if ts == [] then ps == rest
    else ps.Next? && ps.token == ts[0] && Spells(ps.rest, ts[1..], rest)
  }

  lemma {:induction false} SpellsJoin(ps: Pieces, a: seq<Token>, mid: Pieces, b: seq<Token>, rest: Pieces)
    requires Spells(ps, a, mid) && Spells(mid, b, rest)
    ensures Spells(ps, a + b, rest)
  {
    if a == [] {
      assert a + b == b;
    } else {
      assert (a + b)[1..] == a[1..] + b;
      SpellsJoin(ps.rest, a[1..], mid, b, rest);
    }
  }

  lemma {:induction false} SpellsSplit(ps: Pieces, a: seq<Token>, b: seq<Token>, rest: Pieces) returns (mid: Pieces)
    requires Spells(ps, a + b, rest)
    ensures Spells(ps, a, mid) && Spells(mid, b, rest)
  {
    if a == [] {
      assert a + b == b;
      mid := ps;
    } else {
      assert (a + b)[1..] == a[1..] + b;
      mid := SpellsSplit(ps.rest, a[1..], b, rest);
    }
  }

  // ----- documents

  datatype Entry = Entry(key: string, value: string)

  datatype Value = Str(s: string) | Null | Arr(items: seq<string>) | Obj(entries: seq<Entry>)

  /** The dictionary built by storing the entries in order: the last value of a key stays. */
  function MapOf(entries: seq<Entry>): map<string, string> {
    if entries == [] then map[]
    else
      var last := entries[|entries| - 1];
      MapOf(entries[..|entries| - 1])[last.key := last.value]
  }

  lemma MapOfNone()
    ensures MapOf([]) == map[]
  {
  }

  lemma {:induction false} MapOfSnoc(entries: seq<Entry>, e: Entry)
    ensures MapOf(entries + [e]) == MapOf(entries)[e.key := e.value]
  {
    assert (entries + [e])[..|entries|] == entries;
  }

  type Fields = seq<(string, Value)>

  function Literal(s: string): Token { Quoted(Escape(s)) }

  function ItemTokens(items: seq<string>): seq<Token> {
    if items == [] then []
    else if |items| == 1 then [Literal(items[0])]
    else [Literal(items[0]), Sym(',')] + ItemTokens(items[1..])
  }

  function EntryTokens(entries: seq<Entry>): seq<Token> {
    if entries == [] then []
    else
      [Literal(entries[0].key), Sym(':'), Literal(entries[0].value)] +
      (if |entries| == 1 then [] else [Sym(',')] + EntryTokens(entries[1..]))
  }

  function ValueTokens(v: Value): seq<Token> {
    match v
    case Str(s) => [Literal(s)]
    case Null => [NullWord]
    case Arr(items) => [Sym('[')] + ItemTokens(items) + [Sym(']')]
    case Obj(entries) => [Sym('{')] + EntryTokens(entries) + [Sym('}')]
  }

  function FieldTokens(fields: Fields): seq<Token> {
    if fields == [] then []
    else
      [Literal(fields[0].0), Sym(':')] + ValueTokens(fields[0].1) +
      (if |fields| == 1 then [] else [Sym(',')] + FieldTokens(fields[1..]))
  }

  function DocTokens(fields: Fields): seq<Token> {
    [Sym('{')] + FieldTokens(fields) + [Sym('}')]
  }

  // ----- json.dumps(document, indent=2): every token with the whitespace printed before it

  function ItemPieces(items: seq<string>, rest: Pieces): Pieces {
    if items == [] then rest
    else
      Next("\n    ", Literal(items[0]),
           if |items| == 1 then rest else Next("", Sym(','), ItemPieces(items[1..], rest)))
  }

  function EntryPieces(entries: seq<Entry>, rest: Pieces): Pieces {
    if entries == [] then rest
    else
      Next("\n    ", Literal(entries[0].key), Next("", Sym(':'), Next(" ", Literal(entries[0].value),
           if |entries| == 1 then rest else Next("", Sym(','), EntryPieces(entries[1..], rest)))))
  }

  function ValuePieces(v: Value, rest: Pieces): Pieces {
    match v
    case Str(s) => Next(" ", Literal(s), rest)
    case Null => Next(" ", NullWord, rest)
    case Arr(items) =>
      Next(" ", Sym('['), ItemPieces(items, Next(if items == [] then "" else "\n  ", Sym(']'), rest)))
    case Obj(entries) =>
      Next(" ", Sym('{'), EntryPieces(entries, Next(if entries == [] then "" else "\n  ", Sym('}'), rest)))
  }

  function FieldPieces(fields: Fields, rest: Pieces): Pieces {
    if fields == [] then rest
    else
      Next("\n  ", Literal(fields[0].0), Next("", Sym(':'), ValuePieces(fields[0].1,
           if |fields| == 1 then rest else Next("", Sym(','), FieldPieces(fields[1..], rest)))))
  }

  /** The document followed by the newline that write_runtime_config adds. */
  function DocPieces(fields: Fields): Pieces {
    Next("", Sym('{'), FieldPieces(fields, Next(if fields == [] then "" else "\n", Sym('}'), Tail("\n"))))
  }

  /** The text of json.dumps with indent=2 and a final newline. */
  function Dumps(fields: Fields): string { Flat(DocPieces(fields)) }

  /** Any text made of the document's tokens and whitespace between, before and after them. */
  ghost predicate LayoutOf(ps: Pieces, fields: Fields) {
    Spaced(ps) && exists tail :: Spells(ps, DocTokens(fields), Tail(tail))
  }

  lemma {:induction false} ItemPiecesSpell(items: seq<string>, rest: Pieces)
    requires Spaced(rest)
    ensures Spaced(ItemPieces(items, rest)) && Spells(ItemPieces(items, rest), ItemTokens(items), rest)
  {
    if |items| > 1 {
      ItemPiecesSpell(items[1..], rest);
      SpellsJoin(ItemPieces(items, rest), [Literal(items[0]), Sym(',')], ItemPieces(items[1..], rest),
                 ItemTokens(items[1..]), rest);
    }
  }

  lemma {:induction false} SpellsThree(ps: Pieces)
    requires ps.Next? && ps.rest.Next? && ps.rest.rest.Next?
    ensures Spells(ps, [ps.token, ps.rest.token, ps.rest.rest.token], ps.rest.rest.rest)
  {
    var ts := [ps.token, ps.rest.token, ps.rest.rest.token];
    assert Spells(ps.rest.rest, ts[2..], ps.rest.rest.rest) by {
      assert ts[2..][1..] == [];
    }
    assert ts[1..][1..] == ts[2..];
  }

  lemma {:induction false} EntryPiecesSpell(entries: seq<Entry>, rest: Pieces)
    requires Spaced(rest)
    ensures Spaced(EntryPieces(entries, rest)) && Spells(EntryPieces(entries, rest), EntryTokens(entries), rest)
  {
    if entries != [] {
      var ps := EntryPieces(entries, rest);
      var after := ps.rest.rest.rest;
      SpellsThree(ps);
      if |entries| > 1 {
        EntryPiecesSpell(entries[1..], rest);
        assert [Sym(',')][1..] == [];
        SpellsJoin(after, [Sym(',')], after.rest, EntryTokens(entries[1..]), rest);
      }
      assert Spaced(after) && Spaced(ps.rest.rest);
      SpellsJoin(ps, [Literal(entries[0].key), Sym(':'), Literal(entries[0].value)], after,
                 if |entries| == 1 then [] else [Sym(',')] + EntryTokens(entries[1..]), rest);
    }
  }

  lemma {:induction false} ValuePiecesSpell(v: Value, rest: Pieces)
    requires Spaced(rest)
    ensures Spaced(ValuePieces(v, rest)) && Spells(ValuePieces(v, rest), ValueTokens(v), rest)
  {
    var ps := ValuePieces(v, rest);
    match v {
      case Str(s) => assert [Literal(s)][1..] == [];
      case Null => assert [NullWord][1..] == [];
      case Arr(items) =>
        var close := Next(if items == [] then "" else "\n  ", Sym(']'), rest);
        ItemPiecesSpell(items, close);
        assert [Sym(']')][1..] == [] && [Sym('[')][1..] == [];
        SpellsJoin(ps, [Sym('[')], ps.rest, ItemTokens(items), close);
        SpellsJoin(ps, [Sym('[')] + ItemTokens(items), close, [Sym(']')], rest);
      case Obj(entries) =>
        var close := Next(if entries == [] then "" else "\n  ", Sym('}'), rest);
        EntryPiecesSpell(entries, close);
        assert [Sym('}')][1..] == [] && [Sym('{')][1..] == [];
        SpellsJoin(ps, [Sym('{')], ps.rest, EntryTokens(entries), close);
        SpellsJoin(ps, [Sym('{')] + EntryTokens(entries), close, [Sym('}')], rest);
    }
  }

  lemma {:induction false} FieldPiecesSpell(fields: Fields, rest: Pieces)
    requires Spaced(rest)
    ensures Spaced(FieldPieces(fields, rest)) && Spells(FieldPieces(fields, rest), FieldTokens(fields), rest)
  {
    if fields != [] {
      var ps := FieldPieces(fields, rest);
      var head := [Literal(fields[0].0), Sym(':')];
      var v := fields[0].1;
      var after := if |fields| == 1 then rest else Next("", Sym(','), FieldPieces(fields[1..], rest));
      if |fields| > 1 {
        FieldPiecesSpell(fields[1..], rest);
        assert [Sym(',')][1..] == [];
        SpellsJoin(after, [Sym(',')], after.rest, FieldTokens(fields[1..]), rest);
      }
      ValuePiecesSpell(v, after);
      assert head[1..] == [Sym(':')] && head[1..][1..] == [];
      SpellsJoin(ps, head, ps.rest.rest, ValueTokens(v), after);
      SpellsJoin(ps, head + ValueTokens(v), after,
                 if |fields| == 1 then [] else [Sym(',')] + FieldTokens(fields[1..]), rest);
    }
  }

  /** json.dumps with indent=2 prints one layout of the document. */
  lemma {:induction false} DumpsIsLayout(fields: Fields)
    ensures LayoutOf(DocPieces(fields), fields)
  {
    var ps := DocPieces(fields);
    var close := Next(if fields == [] then "" else "\n", Sym('}'), Tail("\n"));
    FieldPiecesSpell(fields, close);
    assert [Sym('}')][1..] == [] && [Sym('{')][1..] == [];
    SpellsJoin(ps, [Sym('{')], ps.rest, FieldTokens(fields), close);
    SpellsJoin(ps, [Sym('{')] + FieldTokens(fields), close, [Sym('}')], Tail("\n"));
  }
}
