/**
  What the reader accepts, as a grammar over tokens: string bodies with lenient escapes, arrays and
  maps with an optional trailing comma, any whitespace between tokens. Each scan succeeds exactly on
  a text of the grammar and returns its meaning, for arbitrary text.
 */
module JsonGrammar {
  import opened Wrappers
  import opened Text
  import opened JsonText
  import opened JsonReader

  // ----- strings

  /** A sequence of plain characters and of backslash-plus-any-character pairs. */
  predicate StringBody(b: string) {
    b == "" ||
    (b[0] != '"' && if b[0] == '\\' then |b| >= 2 && StringBody(b[2..]) else StringBody(b[1..]))
  }

  function Unescape(b: string): string
    requires StringBody(b)
  {
    if b == "" then ""
    else if b[0] == '\\' then [Unescaped(b[1])] + Unescape(b[2..])
    else [b[0]] + Unescape(b[1..])
  }

  lemma BodyEscape(b: string)
    requires |b| >= 2 && b[0] == '\\'
    ensures StringBody(b) <==> StringBody(b[2..])
    ensures StringBody(b) ==> Unescape(b) == [Unescaped(b[1])] + Unescape(b[2..])
  {
  }

  lemma BodyPlain(b: string)
    requires b != "" && b[0] != '\\'
    ensures StringBody(b) <==> b[0] != '"' && StringBody(b[1..])
    ensures StringBody(b) ==> Unescape(b) == [b[0]] + Unescape(b[1..])
  {
  }

  lemma BodyCases(b: string)
    requires StringBody(b)
    ensures b != "" && b[0] == '\\' ==> |b| >= 2 && StringBody(b[2..])
    ensures b != "" && b[0] != '\\' ==> b[0] != '"' && StringBody(b[1..])
    ensures b == "" ==> Unescape(b) == ""
  {
  }

  lemma {:induction false} BodyScan(t: string, p: nat, b: string, v: string)
    requires StringBody(b) && HasAt(t, p, b + "\"")
    ensures ScanBody(t, p, v) == Ok((v + Unescape(b), p + |b| + 1))
    decreases |b|
  {
    hide StringBody, Unescape, HasAt, Unescaped;
    HasAtChar(t, p, b + "\"", 0);
    BodyCases(b);
    if b == "" {
      assert v + Unescape(b) == v;
    } else if b[0] == '\\' {
      BodyEscape(b);
      HasAtChar(t, p, b + "\"", 1);
      assert b + "\"" == b[..2] + (b[2..] + "\"");
      HasAtSplit(t, p, b[..2], b[2..] + "\"");
      var v' := v + [Unescaped(b[1])];
      BodyScan(t, p + 2, b[2..], v');
      assert v' + Unescape(b[2..]) == v + Unescape(b);
    } else {
      BodyPlain(b);
      assert b + "\"" == b[..1] + (b[1..] + "\"");
      HasAtSplit(t, p, b[..1], b[1..] + "\"");
      var v' := v + [b[0]];
      BodyScan(t, p + 1, b[1..], v');
      assert v' + Unescape(b[1..]) == v + Unescape(b);
    }
  }

  lemma {:induction false} BodyParse(t: string, p: nat, v: string, s: string, e: nat)
    requires ScanBody(t, p, v) == Ok((s, e))
    ensures p < e <= |t| && t[e - 1] == '"' && StringBody(t[p..e - 1])
    ensures s == v + Unescape(t[p..e - 1])
    decreases |t| - p
  {
    if t[p] == '"' {
      assert t[p..e - 1] == "";
    } else if t[p] == '\\' {
      BodyParse(t, p + 2, v + [Unescaped(t[p + 1])], s, e);
      assert t[p..e - 1][2..] == t[p + 2..e - 1];
    } else {
      BodyParse(t, p + 1, v + [t[p]], s, e);
      assert t[p..e - 1][1..] == t[p + 1..e - 1];
    }
  }

  /** parseString succeeds exactly on a quoted string body, and returns what the body denotes. */
  lemma {:induction false} StringGrammar(t: string, p: nat, s: string, e: nat)
    ensures ScanString(t, p) == Ok((s, e)) <==>
            p + 2 <= e <= |t| && t[p] == '"' && t[e - 1] == '"' &&
            StringBody(t[p + 1..e - 1]) && s == Unescape(t[p + 1..e - 1])
  {
    if ScanString(t, p) == Ok((s, e)) {
      BodyParse(t, p + 1, "", s, e);
      assert "" + Unescape(t[p + 1..e - 1]) == Unescape(t[p + 1..e - 1]);
    } else if p + 2 <= e <= |t| && t[p] == '"' && t[e - 1] == '"' && StringBody(t[p + 1..e - 1]) {
      var b := t[p + 1..e - 1];
      assert t[p + 1..e] == b + "\"";
      BodyScan(t, p + 1, b, "");
      assert "" + Unescape(b) == Unescape(b);
    }
  }

  /** The token is a string literal that denotes `s`. */
  predicate Denotes(token: Token, s: string) {
    token.Quoted? && StringBody(token.body) && Unescape(token.body) == s
  }

  lemma {:induction false} DenotesParts(token: Token, s: string)
    requires Denotes(token, s)
    ensures token.Quoted? && token.Chars() == "\"" + (token.body + "\"") && StringBody(token.body)
    ensures Unescape(token.body) == s
  {
    hide StringBody, Unescape;
  }

  lemma {:induction false} LiteralText(t: string, p: nat, body: string)
    requires HasAt(t, p, "\"" + (body + "\""))
    ensures p + |body| + 2 <= |t| && t[p] == '"' && t[p + |body| + 1] == '"' && t[p + 1..p + |body| + 1] == body
  {
    HasAtSplit(t, p, "\"", body + "\"");
    HasAtSplit(t, p + 1, body, "\"");
    HasAtChar(t, p, "\"", 0);
    HasAtChar(t, p + 1 + |body|, "\"", 0);
  }

  lemma {:induction false} LiteralScan(t: string, p: nat, token: Token, s: string)
    requires Denotes(token, s) && HasAt(t, p, token.Chars())
    ensures ScanString(t, p) == Ok((s, p + |token.Chars()|))
  {
    hide *;
    DenotesParts(token, s);
    var body := token.body;
    LiteralText(t, p, body);
    StringGrammar(t, p, s, p + |body| + 2);
  }

  lemma {:induction false} LiteralParse(t: string, p: nat, s: string, e: nat) returns (token: Token)
    requires ScanString(t, p) == Ok((s, e))
    ensures Denotes(token, s) && HasAt(t, p, token.Chars()) && e == p + |token.Chars()|
  {
    StringGrammar(t, p, s, e);
    token := Quoted(t[p + 1..e - 1]);
    assert t[p..e] == ['"'] + t[p + 1..e - 1] + ['"'];
  }

  // ----- the first piece of a text

  predicate Solid(token: Token) { !(token.Sym? && IsSpace(token.c)) }

  lemma {:induction false} SkipGap(t: string, p: nat, gap: string)
    requires AllSpace(gap) && HasAt(t, p, gap)
    ensures p <= |t| && Skip(t, p) == Skip(t, p + |gap|)
    decreases |gap|
  {
    if gap != "" {
      HasAtChar(t, p, gap, 0);
      assert gap == gap[..1] + gap[1..];
      HasAtSplit(t, p, gap[..1], gap[1..]);
      SkipGap(t, p + 1, gap[1..]);
    }
  }

  /** Where the text of the first piece ends. */
  function After(p: nat, ps: Pieces): nat
    requires ps.Next?
  {
    p + |ps.gap| + |ps.token.Chars()|
  }

  /** Skipping the gap of the first piece leads to its token; the rest follows. */
  lemma {:induction false} FirstPiece(t: string, p: nat, ps: Pieces)
    requires ps.Next? && AllSpace(ps.gap) && Solid(ps.token) && HasAt(t, p, Flat(ps))
    ensures p <= Skip(t, p) < After(p, ps) <= |t| && Skip(t, p) == p + |ps.gap|
    ensures HasAt(t, Skip(t, p), ps.token.Chars()) && t[Skip(t, p)] == ps.token.First()
    ensures HasAt(t, After(p, ps), Flat(ps.rest)) && After(p, ps) + |Flat(ps.rest)| == p + |Flat(ps)|
  {
    var chars := ps.token.Chars();
    assert chars != "" && chars[0] == ps.token.First() && !IsSpace(chars[0]);
    FlatNext(ps.gap, ps.token, ps.rest);
    assert ps == Next(ps.gap, ps.token, ps.rest);
    hide HasAt, Flat, Token.Chars, Token.First, IsSpace, Solid;
    HasAtSplit(t, p, ps.gap, chars + Flat(ps.rest));
    HasAtSplit(t, p + |ps.gap|, chars, Flat(ps.rest));
    HasAtChar(t, p + |ps.gap|, chars, 0);
    SkipGap(t, p, ps.gap);
  }

  lemma {:induction false} GapThere(t: string, p: nat, q: nat)
    requires p <= q <= |t|
    ensures HasAt(t, p, t[p..q])
    ensures (forall i :: p <= i < q ==> IsSpace(t[i])) ==> AllSpace(t[p..q])
  {
    assert p + |t[p..q]| == q;
  }

  lemma {:induction false} FlatNext(gap: string, token: Token, rest: Pieces)
    ensures Flat(Next(gap, token, rest)) == gap + (token.Chars() + Flat(rest))
  {
  }

  lemma {:induction false} SpacedNext(gap: string, token: Token, rest: Pieces)
    requires AllSpace(gap) && Spaced(rest)
    ensures Spaced(Next(gap, token, rest))
  {
  }

  /** Reading a piece back: the whitespace skipped and the token found there, then more text. */
  lemma {:induction false} PutPiece(t: string, p: nat, token: Token, rest: Pieces) returns (ps: Pieces)
    requires p <= |t| && HasAt(t, Skip(t, p), token.Chars()) && Spaced(rest)
    requires HasAt(t, Skip(t, p) + |token.Chars()|, Flat(rest))
    ensures ps.Next? && ps.token == token && ps.rest == rest && Spaced(ps)
    ensures HasAt(t, p, Flat(ps)) && p + |Flat(ps)| == Skip(t, p) + |token.Chars()| + |Flat(rest)|
  {
    hide *;
    ps := Next(t[p..Skip(t, p)], token, rest);
    GapThere(t, p, Skip(t, p));
    FlatNext(ps.gap, token, rest);
    SpacedNext(ps.gap, token, rest);
    HasAtSplit(t, Skip(t, p), token.Chars(), Flat(rest));
    HasAtSplit(t, p, ps.gap, token.Chars() + Flat(rest));
  }

  lemma {:induction false} PutSym(t: string, p: nat, rest: Pieces) returns (ps: Pieces)
    requires p <= |t| && Skip(t, p) < |t| && Spaced(rest) && HasAt(t, Skip(t, p) + 1, Flat(rest))
    ensures ps.Next? && ps.token == Sym(t[Skip(t, p)]) && ps.rest == rest && Spaced(ps)
    ensures HasAt(t, p, Flat(ps)) && p + |Flat(ps)| == Skip(t, p) + 1 + |Flat(rest)|
  {
    ps := PutPiece(t, p, Sym(t[Skip(t, p)]), rest);
  }

  lemma {:induction false} PutLiteral(t: string, p: nat, s: string, e: nat, rest: Pieces) returns (ps: Pieces)
    requires p <= |t| && ScanString(t, Skip(t, p)) == Ok((s, e)) && Spaced(rest) && HasAt(t, e, Flat(rest))
    ensures ps.Next? && Denotes(ps.token, s) && ps.rest == rest && Spaced(ps)
    ensures HasAt(t, p, Flat(ps)) && p + |Flat(ps)| == e + |Flat(rest)|
  {
    hide HasAt, Flat, Skip, Denotes;
    var token := LiteralParse(t, Skip(t, p), s, e);
    ps := PutPiece(t, p, token, rest);
  }

  lemma Nothing(t: string, p: nat)
    requires p <= |t|
    ensures HasAt(t, p, Flat(Tail(""))) && Flat(Tail("")) == "" && Spaced(Tail(""))
  {
  }

  // ----- arrays

  /** What follows an opening bracket up to the closing one, holding the items `vs`, then `rest`. */
  predicate ItemList(ps: Pieces, vs: seq<string>, rest: Pieces) {
    ps.Next? &&
    if vs == [] then ps.token == Sym(']') && ps.rest == rest
    else
      Denotes(ps.token, vs[0]) && ps.rest.Next? &&
      if ps.rest.token == Sym(',') then ItemList(ps.rest.rest, vs[1..], rest)
      else ps.rest.token == Sym(']') && |vs| == 1 && ps.rest.rest == rest
  }

  lemma {:induction false} CloseScan(t: string, p: nat, ps: Pieces)
    requires ps.Next? && Spaced(ps) && HasAt(t, p, Flat(ps)) && (ps.token == Sym(']') || ps.token == Sym('}'))
    ensures p <= |t| && p < After(p, ps) && After(p, ps) + |Flat(ps.rest)| == p + |Flat(ps)|
    ensures ps.token == Sym(']') ==> ItemTurn(t, p) == Close(After(p, ps))
    ensures ps.token == Sym('}') ==> EntryTurn(t, p) == Close(After(p, ps))
  {
    hide HasAt, Flat, ScanString, ScanEntry, Skip;
    FirstPiece(t, p, ps);
  }

  lemma {:induction false} ItemScan(t: string, p: nat, ps: Pieces, v: string)
    requires ps.Next? && ps.rest.Next? && Spaced(ps) && HasAt(t, p, Flat(ps))
    requires Denotes(ps.token, v) && (ps.rest.token == Sym(',') || ps.rest.token == Sym(']'))
    ensures var m := After(After(p, ps), ps.rest);
            p < m <= |t| && HasAt(t, m, Flat(ps.rest.rest)) && m + |Flat(ps.rest.rest)| == p + |Flat(ps)| &&
            ItemTurn(t, p) == if ps.rest.token == Sym(',') then More(v, m) else Last(v, m)
  {
    hide HasAt, Flat, ScanString, Skip;
    FirstPiece(t, p, ps);
    LiteralScan(t, Skip(t, p), ps.token, v);
    FirstPiece(t, After(p, ps), ps.rest);
  }

  lemma {:induction false} ItemsScan(
    t: string, p: nat, ps: Pieces, vs: seq<string>, rest: Pieces, acc: seq<string>)
    requires Spaced(ps) && ItemList(ps, vs, rest) && HasAt(t, p, Flat(ps))
    ensures p <= |t| && |Flat(rest)| <= |Flat(ps)|
    ensures ScanItems(t, p, acc) == Ok((acc + vs, p + |Flat(ps)| - |Flat(rest)|))
    decreases ps
  {
    hide HasAt, Flat, ItemTurn, Denotes;
    if vs == [] {
      CloseScan(t, p, ps);
      assert acc + vs == acc;
    } else {
      ItemScan(t, p, ps, vs[0]);
      if ps.rest.token == Sym(',') {
        ItemsScan(t, After(After(p, ps), ps.rest), ps.rest.rest, vs[1..], rest, acc + [vs[0]]);
        assert acc + [vs[0]] + vs[1..] == acc + vs;
      } else {
        assert vs == [vs[0]];
      }
    }
  }

  /** Reading one turn of the array loop back, the text going on with `rest`. */
  lemma {:induction false} ItemBack(t: string, p: nat, m: nat, rest: Pieces) returns (ps: Pieces)
    requires p <= |t| && Spaced(rest) && HasAt(t, m, Flat(rest))
    requires var turn := ItemTurn(t, p); !turn.Fail? && m == if turn.More? then turn.next else turn.end
    ensures Spaced(ps) && HasAt(t, p, Flat(ps)) && p + |Flat(ps)| == m + |Flat(rest)| && ps.Next?
    ensures ItemTurn(t, p).Close? ==> ps.token == Sym(']') && ps.rest == rest
    ensures !ItemTurn(t, p).Close? ==>
              Denotes(ps.token, ItemTurn(t, p).item) && ps.rest.Next? && ps.rest.rest == rest &&
              ps.rest.token == if ItemTurn(t, p).More? then Sym(',') else Sym(']')
  {
    hide HasAt, Flat, ScanString, Skip, Denotes;
    if ItemTurn(t, p).Close? {
      ps := PutSym(t, p, rest);
    } else {
      var (item, next) := ScanString(t, Skip(t, p)).value;
      ps := PutSym(t, next, rest);
      ps := PutLiteral(t, p, item, next, ps);
    }
  }

  lemma {:induction false} ItemsParse(t: string, p: nat, acc: seq<string>, r: seq<string>, e: nat)
    returns (ps: Pieces, vs: seq<string>)
    requires p <= |t| && ScanItems(t, p, acc) == Ok((r, e))
    ensures r == acc + vs
    ensures Spaced(ps) && ItemList(ps, vs, Tail("")) && HasAt(t, p, Flat(ps)) && e == p + |Flat(ps)|
    decreases |t| - p
  {
    hide HasAt, Flat, ItemTurn, Spaced, Denotes;
    match ItemTurn(t, p) {
      case Close(end) =>
        Nothing(t, end);
        ps := ItemBack(t, p, end, Tail(""));
        vs := [];
      case Last(item, end) =>
        Nothing(t, end);
        ps := ItemBack(t, p, end, Tail(""));
        vs := [item];
      case More(item, next) =>
        ps, vs := ItemsParse(t, next, acc + [item], r, e);
        ps := ItemBack(t, p, next, ps);
        vs := [item] + vs;
    }
  }

  /** The text from `p` to `e` is the rest of an array holding `vs`, laid out as `ps`. */
  predicate ItemsText(t: string, p: nat, e: nat, ps: Pieces, vs: seq<string>) {
    Spaced(ps) && ItemList(ps, vs, Tail("")) && HasAt(t, p, Flat(ps)) && e == p + |Flat(ps)|
  }

  /** The array loop succeeds exactly on an array of the grammar, and returns its items. */
  lemma {:induction false} ArrayGrammar(t: string, p: nat, e: nat, vs: seq<string>)
    requires p <= |t|
    ensures ScanItems(t, p, []) == Ok((vs, e)) <==> exists ps :: ItemsText(t, p, e, ps, vs)
  {
    hide HasAt, Flat, ScanItems, Spaced, ItemList;
    if ScanItems(t, p, []) == Ok((vs, e)) {
      var ps, ws := ItemsParse(t, p, [], vs, e);
      assert [] + ws == ws;
      assert ItemsText(t, p, e, ps, vs);
    }
    forall ps | ItemsText(t, p, e, ps, vs) ensures ScanItems(t, p, []) == Ok((vs, e)) {
      ItemsScan(t, p, ps, vs, Tail(""), []);
      Nothing(t, p);
      assert [] + vs == vs;
    }
  }

  // ----- maps

  /** The three pieces of one map entry. */
  predicate IsEntry(ps: Pieces, entry: Entry) {
    ps.Next? && Denotes(ps.token, entry.key) &&
    ps.rest.Next? && ps.rest.token == Sym(':') &&
    ps.rest.rest.Next? && Denotes(ps.rest.rest.token, entry.value)
  }

  predicate EntryList(ps: Pieces, es: seq<Entry>, rest: Pieces) {
    ps.Next? &&
    if es == [] then ps.token == Sym('}') && ps.rest == rest
    else
      IsEntry(ps, es[0]) &&
      var sep := ps.rest.rest.rest;
      sep.Next? &&
      if sep.token == Sym(',') then EntryList(sep.rest, es[1..], rest)
      else sep.token == Sym('}') && |es| == 1 && sep.rest == rest
  }

  lemma {:induction false} EntryValueScan(t: string, p: nat, ps: Pieces, key: string, value: string)
    requires ps.Next? && ps.token == Sym(':') && ps.rest.Next? && Denotes(ps.rest.token, value)
    requires Spaced(ps) && HasAt(t, p, Flat(ps))
    ensures var n := After(After(p, ps), ps.rest);
            p < n <= |t| && ScanEntryValue(t, p, key) == Ok((Entry(key, value), n)) &&
            HasAt(t, n, Flat(ps.rest.rest)) && n + |Flat(ps.rest.rest)| == p + |Flat(ps)|
  {
    hide HasAt, Flat, ScanString, Skip;
    FirstPiece(t, p, ps);
    var m := After(p, ps);
    FirstPiece(t, m, ps.rest);
    LiteralScan(t, Skip(t, m), ps.rest.token, value);
  }

  lemma {:induction false} EntryScan(t: string, p: nat, ps: Pieces, entry: Entry)
    requires Spaced(ps) && IsEntry(ps, entry) && HasAt(t, p, Flat(ps))
    ensures var n := After(After(After(p, ps), ps.rest), ps.rest.rest);
            p <= Skip(t, p) < n <= |t| && t[Skip(t, p)] == '"' && ScanEntry(t, Skip(t, p)) == Ok((entry, n)) &&
            HasAt(t, n, Flat(ps.rest.rest.rest)) && n + |Flat(ps.rest.rest.rest)| == p + |Flat(ps)|
  {
    hide HasAt, Flat, ScanString, Skip, ScanEntryValue;
    FirstPiece(t, p, ps);
    LiteralScan(t, Skip(t, p), ps.token, entry.key);
    EntryValueScan(t, After(p, ps), ps.rest, entry.key, entry.value);
  }

  lemma {:induction false} EntryTurnScan(t: string, p: nat, ps: Pieces, entry: Entry)
    requires Spaced(ps) && IsEntry(ps, entry) && HasAt(t, p, Flat(ps)) && ps.rest.rest.rest.Next?
    requires ps.rest.rest.rest.token == Sym(',') || ps.rest.rest.rest.token == Sym('}')
    ensures var sep := ps.rest.rest.rest; var m := p + |Flat(ps)| - |Flat(sep.rest)|;
            p < m <= |t| && HasAt(t, m, Flat(sep.rest)) &&
            EntryTurn(t, p) == if sep.token == Sym(',') then More(entry, m) else Last(entry, m)
  {
    hide *;
    EntryShape(ps, entry);
    var n := After(After(After(p, ps), ps.rest), ps.rest.rest);
    EntryScan(t, p, ps, entry);
    TurnOfEntry(t, p, entry, n);
    SeparatorScan(t, n, ps.rest.rest.rest, entry);
  }

  lemma {:induction false} EntryShape(ps: Pieces, entry: Entry)
    requires IsEntry(ps, entry) && Spaced(ps)
    ensures ps.Next? && ps.rest.Next? && ps.rest.rest.Next?
    ensures ps.rest.rest.rest.Next? ==> AllSpace(ps.rest.rest.rest.gap)
  {
    hide Denotes, AllSpace;
    assert Spaced(ps.rest.rest) && Spaced(ps.rest.rest.rest);
  }

  lemma {:induction false} TurnOfEntry(t: string, p: nat, entry: Entry, n: nat)
    requires p <= |t| && Skip(t, p) < |t| && t[Skip(t, p)] == '"' && n <= |t|
    requires ScanEntry(t, Skip(t, p)) == Ok((entry, n))
    ensures EntryTurn(t, p) == Separator(t, n, entry, '}')
  {
    hide Skip, ScanEntry, Separator;
  }

  lemma {:induction false} SeparatorScan<T>(t: string, n: nat, sep: Pieces, item: T)
    requires sep.Next? && AllSpace(sep.gap) && (sep.token == Sym(',') || sep.token == Sym('}'))
    requires HasAt(t, n, Flat(sep)) && n <= |t|
    ensures var m := n + |Flat(sep)| - |Flat(sep.rest)|;
            n < m <= |t| && HasAt(t, m, Flat(sep.rest)) &&
            Separator(t, n, item, '}') == if sep.token == Sym(',') then More(item, m) else Last(item, m)
  {
    hide HasAt, Flat, Skip, AllSpace;
    FirstPiece(t, n, sep);
  }

  lemma {:induction false} EntriesScan(
    t: string, p: nat, ps: Pieces, es: seq<Entry>, rest: Pieces, acc: seq<Entry>)
    requires Spaced(ps) && EntryList(ps, es, rest) && HasAt(t, p, Flat(ps))
    ensures p <= |t| && |Flat(rest)| <= |Flat(ps)|
    ensures ScanEntries(t, p, acc) == Ok((acc + es, p + |Flat(ps)| - |Flat(rest)|))
    decreases ps
  {
    hide HasAt, Flat, EntryTurn, Denotes;
    if es == [] {
      CloseScan(t, p, ps);
      assert acc + es == acc;
    } else {
      var sep := ps.rest.rest.rest;
      assert Spaced(ps.rest.rest) && Spaced(sep);
      EntryTurnScan(t, p, ps, es[0]);
      if sep.token == Sym(',') {
        EntriesScan(t, p + |Flat(ps)| - |Flat(sep.rest)|, sep.rest, es[1..], rest, acc + [es[0]]);
        assert acc + [es[0]] + es[1..] == acc + es;
      } else {
        assert es == [es[0]];
      }
    }
  }

  lemma {:induction false} PutEntry(t: string, p: nat, entry: Entry, e: nat, rest: Pieces) returns (ps: Pieces)
    requires p <= |t| && ScanEntry(t, Skip(t, p)) == Ok((entry, e))
    requires Spaced(rest) && HasAt(t, e, Flat(rest))
    ensures IsEntry(ps, entry) && ps.rest.rest.rest == rest && Spaced(ps)
    ensures HasAt(t, p, Flat(ps)) && p + |Flat(ps)| == e + |Flat(rest)|
  {
    hide HasAt, Flat, ScanString, Skip, Denotes;
    var (key, n) := ScanString(t, Skip(t, p)).value;
    var m := Skip(t, n) + 1;
    ps := PutLiteral(t, m, entry.value, e, rest);
    ps := PutSym(t, n, ps);
    ps := PutLiteral(t, p, key, n, ps);
  }

  /** Reading one turn of the map loop back, the text going on with `rest`. */
  lemma {:induction false} EntryBack(t: string, p: nat, m: nat, rest: Pieces) returns (ps: Pieces)
    requires p <= |t| && Spaced(rest) && HasAt(t, m, Flat(rest))
    requires var turn := EntryTurn(t, p); !turn.Fail? && m == if turn.More? then turn.next else turn.end
    ensures Spaced(ps) && HasAt(t, p, Flat(ps)) && p + |Flat(ps)| == m + |Flat(rest)| && ps.Next?
    ensures EntryTurn(t, p).Close? ==> ps.token == Sym('}') && ps.rest == rest
    ensures !EntryTurn(t, p).Close? ==>
              IsEntry(ps, EntryTurn(t, p).item) && ps.rest.rest.rest.Next? && ps.rest.rest.rest.rest == rest &&
              ps.rest.rest.rest.token == if EntryTurn(t, p).More? then Sym(',') else Sym('}')
  {
    hide HasAt, Flat, ScanEntry, Skip, Denotes;
    if EntryTurn(t, p).Close? {
      ps := PutSym(t, p, rest);
    } else {
      var (entry, next) := ScanEntry(t, Skip(t, p)).value;
      ps := PutSym(t, next, rest);
      ps := PutEntry(t, p, entry, next, ps);
    }
  }

  lemma {:induction false} EntriesParse(t: string, p: nat, acc: seq<Entry>, r: seq<Entry>, e: nat)
    returns (ps: Pieces, es: seq<Entry>)
    requires p <= |t| && ScanEntries(t, p, acc) == Ok((r, e))
    ensures r == acc + es
    ensures Spaced(ps) && EntryList(ps, es, Tail("")) && HasAt(t, p, Flat(ps)) && e == p + |Flat(ps)|
    decreases |t| - p
  {
    hide HasAt, Flat, EntryTurn, Spaced, IsEntry;
    match EntryTurn(t, p) {
      case Close(end) =>
        Nothing(t, end);
        ps := EntryBack(t, p, end, Tail(""));
        es := [];
      case Last(entry, end) =>
        Nothing(t, end);
        ps := EntryBack(t, p, end, Tail(""));
        es := [entry];
      case More(entry, next) =>
        ps, es := EntriesParse(t, next, acc + [entry], r, e);
        ps := EntryBack(t, p, next, ps);
        es := [entry] + es;
    }
  }

  predicate EntriesText(t: string, p: nat, e: nat, ps: Pieces, es: seq<Entry>) {
    Spaced(ps) && EntryList(ps, es, Tail("")) && HasAt(t, p, Flat(ps)) && e == p + |Flat(ps)|
  }

  /** The map loop succeeds exactly on a map of the grammar, and returns its entries. */
  lemma {:induction false} MapGrammar(t: string, p: nat, e: nat, es: seq<Entry>)
    requires p <= |t|
    ensures ScanEntries(t, p, []) == Ok((es, e)) <==> exists ps :: EntriesText(t, p, e, ps, es)
  {
    hide HasAt, Flat, ScanEntries, Spaced, EntryList;
    if ScanEntries(t, p, []) == Ok((es, e)) {
      var ps, ws := EntriesParse(t, p, [], es, e);
      assert [] + ws == ws;
      assert EntriesText(t, p, e, ps, es);
    }
    forall ps | EntriesText(t, p, e, ps, es) ensures ScanEntries(t, p, []) == Ok((es, e)) {
      EntriesScan(t, p, ps, es, Tail(""), []);
      Nothing(t, p);
      assert [] + es == es;
    }
  }
}
