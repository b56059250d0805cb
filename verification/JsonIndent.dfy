/**
  The layout that json.dumps gives a document with indent=2, told by the tokens alone: a line for each
  element, two spaces for each bracket that is open, and one space after a colon.
 */
module JsonIndent {
  import opened JsonText

  predicate Opens(t: Token) { t == Sym('[') || t == Sym('{') }

  predicate Closes(t: Token) { t == Sym(']') || t == Sym('}') }

  /** A new line at this depth. */
  function Line(depth: nat): string { if depth == 0 then "\n" else Line(depth - 1) + "  " }

  /** What is printed between two tokens with this many brackets open after the first. */
  function Gap(before: Token, depth: nat, after: Token): string {
    if after == Sym(',') || after == Sym(':') then ""
    else if before == Sym(':') then " "
    else if Closes(after) then if Opens(before) || depth == 0 then "" else Line(depth - 1)
    else Line(depth)
  }

  function DepthAfter(depth: nat, t: Token): nat {
    if Opens(t) then depth + 1 else if Closes(t) && depth > 0 then depth - 1 else depth
  }

  /** The tokens laid out after the token `before`, and then `rest`. */
  function Indented(before: Token, depth: nat, ts: seq<Token>, rest: Pieces): Pieces
    decreases |ts|
  {
    if ts == [] then rest
    else Next(Gap(before, depth, ts[0]), ts[0], Indented(ts[0], DepthAfter(depth, ts[0]), ts[1..], rest))
  }

  /** The first token without a gap, the others indented, and a new line at the end. */
  function Pretty(ts: seq<Token>): string
    requires ts != []
  {
    Flat(Next("", ts[0], Indented(ts[0], DepthAfter(0, ts[0]), ts[1..], Tail("\n"))))
  }

  lemma {:induction false} IndentedOne(before: Token, depth: nat, t: Token, ts: seq<Token>, rest: Pieces)
    ensures Indented(before, depth, [t] + ts, rest) ==
            Next(Gap(before, depth, t), t, Indented(t, DepthAfter(depth, t), ts, rest))
  {
    assert ([t] + ts)[1..] == ts;
  }

  lemma Lines()
    ensures Line(0) == "\n" && Line(1) == "\n  " && Line(2) == "\n    "
  {
    assert Line(1) == Line(0) + "  ";
    assert Line(2) == Line(1) + "  ";
  }

  lemma {:induction false} NothingIndented(before: Token, depth: nat, rest: Pieces)
    ensures Indented(before, depth, [], rest) == rest
  {
  }

  /** The elements of an array, its closing bracket, and more. */
  lemma {:induction false} ItemsIndented(
    before: Token, items: seq<string>, ts: seq<Token>, rest: Pieces)
    requires items != [] && (before == Sym('[') || before == Sym(','))
    ensures Indented(before, 2, ItemTokens(items) + ([Sym(']')] + ts), rest) ==
            ItemPieces(items, Next("\n  ", Sym(']'), Indented(Sym(']'), 1, ts, rest)))
    decreases |items|
  {
    hide Literal, Indented, Line;
    Lines();
    var first := Literal(items[0]);
    LiteralQuoted(items[0]);
    var close := [Sym(']')] + ts;
    IndentedOne(first, 2, Sym(']'), ts, rest);
    if |items| == 1 {
      assert ItemTokens(items) + close == [first] + close;
      IndentedOne(before, 2, first, close, rest);
    } else {
      var more := ItemTokens(items[1..]) + close;
      assert ItemTokens(items) + close == [first] + ([Sym(',')] + more);
      IndentedOne(before, 2, first, [Sym(',')] + more, rest);
      IndentedOne(first, 2, Sym(','), more, rest);
      ItemsIndented(Sym(','), items[1..], ts, rest);
    }
  }

  lemma LiteralQuoted(s: string)
    ensures Literal(s).Quoted?
  {
  }

  /** A key, its colon and its value. */
  lemma {:induction false} EntryIndented(
    before: Token, depth: nat, key: Token, value: Token, ts: seq<Token>, rest: Pieces)
    requires key.Quoted? && value.Quoted? && (before == Sym('{') || before == Sym(','))
    ensures Indented(before, depth, [key] + ([Sym(':')] + ([value] + ts)), rest) ==
            Next(Line(depth), key, Next("", Sym(':'), Next(" ", value, Indented(value, depth, ts, rest))))
  {
    hide Indented, Line;
    IndentedOne(before, depth, key, [Sym(':')] + ([value] + ts), rest);
    IndentedOne(key, depth, Sym(':'), [value] + ts, rest);
    IndentedOne(Sym(':'), depth, value, ts, rest);
  }

  /** The tokens of the first entry, and more. */
  lemma {:induction false} FirstEntry(entries: seq<Entry>, close: seq<Token>)
    requires entries != []
    ensures EntryTokens(entries) + close ==
            [Literal(entries[0].key)] + ([Sym(':')] + ([Literal(entries[0].value)] +
            (if |entries| == 1 then close else [Sym(',')] + (EntryTokens(entries[1..]) + close))))
  {
    hide Literal;
  }

  lemma FirstEntryPieces(entries: seq<Entry>, rest: Pieces)
    requires entries != []
    ensures EntryPieces(entries, rest) ==
            Next("\n    ", Literal(entries[0].key), Next("", Sym(':'), Next(" ", Literal(entries[0].value),
                 if |entries| == 1 then rest else Next("", Sym(','), EntryPieces(entries[1..], rest)))))
  {
  }

  lemma {:induction false} EntriesIndented(
    before: Token, entries: seq<Entry>, ts: seq<Token>, rest: Pieces)
    requires entries != [] && (before == Sym('{') || before == Sym(','))
    ensures Indented(before, 2, EntryTokens(entries) + ([Sym('}')] + ts), rest) ==
            EntryPieces(entries, Next("\n  ", Sym('}'), Indented(Sym('}'), 1, ts, rest)))
    decreases |entries|
  {
    hide Literal, Indented, Line, EntryTokens, EntryPieces;
    Lines();
    var key, value := Literal(entries[0].key), Literal(entries[0].value);
    LiteralQuoted(entries[0].key);
    LiteralQuoted(entries[0].value);
    var close := [Sym('}')] + ts;
    var more := if |entries| == 1 then close else [Sym(',')] + (EntryTokens(entries[1..]) + close);
    FirstEntry(entries, close);
    FirstEntryPieces(entries, Next("\n  ", Sym('}'), Indented(Sym('}'), 1, ts, rest)));
    EntryIndented(before, 2, key, value, more, rest);
    if |entries| == 1 {
      IndentedOne(value, 2, Sym('}'), ts, rest);
    } else {
      IndentedOne(value, 2, Sym(','), EntryTokens(entries[1..]) + close, rest);
      EntriesIndented(Sym(','), entries[1..], ts, rest);
    }
  }

  lemma {:induction false} ValueIndented(v: Value, ts: seq<Token>, rest: Pieces) returns (last: Token)
    ensures Indented(Sym(':'), 1, ValueTokens(v) + ts, rest) == ValuePieces(v, Indented(last, 1, ts, rest))
    ensures last != Sym(':') && !Opens(last)
  {
    hide Literal, Indented, Line, ItemTokens, EntryTokens, ItemPieces, EntryPieces;
    match v
    case Str(s) =>
      LiteralQuoted(s);
      last := Literal(s);
      IndentedOne(Sym(':'), 1, last, ts, rest);
    case Null =>
      last := NullWord;
      IndentedOne(Sym(':'), 1, last, ts, rest);
    case Arr(items) =>
      last := Sym(']');
      ArrayIndented(items, ts, rest);
    case Obj(entries) =>
      last := Sym('}');
      ObjectIndented(entries, ts, rest);
  }

  lemma {:induction false} ArrayIndented(items: seq<string>, ts: seq<Token>, rest: Pieces)
    ensures Indented(Sym(':'), 1, ValueTokens(Arr(items)) + ts, rest) ==
            ValuePieces(Arr(items), Indented(Sym(']'), 1, ts, rest))
  {
    hide Indented, Line;
    var close := [Sym(']')] + ts;
    assert ValueTokens(Arr(items)) + ts == [Sym('[')] + (ItemTokens(items) + close);
    IndentedOne(Sym(':'), 1, Sym('['), ItemTokens(items) + close, rest);
    if items == [] {
      assert ItemTokens(items) + close == close;
      IndentedOne(Sym('['), 2, Sym(']'), ts, rest);
    } else {
      ItemsIndented(Sym('['), items, ts, rest);
    }
  }

  lemma {:induction false} ObjectIndented(entries: seq<Entry>, ts: seq<Token>, rest: Pieces)
    ensures Indented(Sym(':'), 1, ValueTokens(Obj(entries)) + ts, rest) ==
            ValuePieces(Obj(entries), Indented(Sym('}'), 1, ts, rest))
  {
    hide Indented, Line;
    var close := [Sym('}')] + ts;
    assert ValueTokens(Obj(entries)) + ts == [Sym('{')] + (EntryTokens(entries) + close);
    IndentedOne(Sym(':'), 1, Sym('{'), EntryTokens(entries) + close, rest);
    if entries == [] {
      assert EntryTokens(entries) + close == close;
      IndentedOne(Sym('{'), 2, Sym('}'), ts, rest);
    } else {
      EntriesIndented(Sym('{'), entries, ts, rest);
    }
  }

  /** The tokens of the first field, and more. */
  lemma {:induction false} FirstField(fields: Fields, close: seq<Token>)
    requires fields != []
    ensures FieldTokens(fields) + close ==
            [Literal(fields[0].0)] + ([Sym(':')] + (ValueTokens(fields[0].1) +
            (if |fields| == 1 then close else [Sym(',')] + (FieldTokens(fields[1..]) + close))))
  {
    hide Literal, ValueTokens;
  }

  lemma FirstFieldPieces(fields: Fields, rest: Pieces)
    requires fields != []
    ensures FieldPieces(fields, rest) ==
            Next("\n  ", Literal(fields[0].0), Next("", Sym(':'), ValuePieces(fields[0].1,
                 if |fields| == 1 then rest else Next("", Sym(','), FieldPieces(fields[1..], rest)))))
  {
  }

  lemma {:induction false} FieldsIndented(before: Token, fields: Fields, rest: Pieces)
    requires fields != [] && (before == Sym('{') || before == Sym(','))
    ensures Indented(before, 1, FieldTokens(fields) + [Sym('}')], rest) ==
            FieldPieces(fields, Next("\n", Sym('}'), rest))
    decreases |fields|
  {
    hide Literal, Indented, Line, ValueTokens, ValuePieces, FieldTokens, FieldPieces;
    Lines();
    var key, v := Literal(fields[0].0), fields[0].1;
    LiteralQuoted(fields[0].0);
    var close := [Sym('}')];
    var more := if |fields| == 1 then close else [Sym(',')] + (FieldTokens(fields[1..]) + close);
    FirstField(fields, close);
    FirstFieldPieces(fields, Next("\n", Sym('}'), rest));
    IndentedOne(before, 1, key, [Sym(':')] + (ValueTokens(v) + more), rest);
    IndentedOne(key, 1, Sym(':'), ValueTokens(v) + more, rest);
    var last := ValueIndented(v, more, rest);
    if |fields| == 1 {
      assert close == [Sym('}')] + [];
      IndentedOne(last, 1, Sym('}'), [], rest);
      NothingIndented(Sym('}'), 0, rest);
    } else {
      IndentedOne(last, 1, Sym(','), FieldTokens(fields[1..]) + close, rest);
      FieldsIndented(Sym(','), fields[1..], rest);
    }
  }

  /** Dumps prints the tokens of the document in this layout. */
  lemma {:induction false} DumpsIsPretty(fields: Fields)
    ensures Dumps(fields) == Pretty(DocTokens(fields))
  {
    hide Indented, Line, FieldTokens, FieldPieces, Flat;
    var close := [Sym('}')];
    var ts := FieldTokens(fields) + close;
    assert DocTokens(fields)[1..] == ts && DocTokens(fields)[0] == Sym('{');
    if fields == [] {
      NoneIndented();
    } else {
      FieldsIndented(Sym('{'), fields, Tail("\n"));
    }
  }

  lemma {:induction false} NoneIndented()
    ensures Indented(Sym('{'), 1, FieldTokens([]) + [Sym('}')], Tail("\n")) == Next("", Sym('}'), Tail("\n"))
    ensures FieldPieces([], Next("", Sym('}'), Tail("\n"))) == Next("", Sym('}'), Tail("\n"))
  {
    assert FieldTokens([]) + [Sym('}')] == [Sym('}')] + [];
    IndentedOne(Sym('{'), 1, Sym('}'), [], Tail("\n"));
  }
}
