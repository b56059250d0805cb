/**
  Key lookup by substring search. In any laid-out document a quoted key is found only at the end of
  a string literal that is the key or ends in an escaped quote followed by the key. The search lands
  on the value of the real field exactly when no such literal stands before it with a ':' in between.
 */
module KeyLookup {
  import opened Wrappers
  import opened Text
  import opened JsonText
  import opened JsonReader
  import opened JsonGrammar

  predicate KeyChar(c: char) { 'a' <= c <= 'z' || 'A' <= c <= 'Z' || c == '_' }

  predicate IsKeyName(k: string) { k != "" && forall i :: 0 <= i < |k| ==> KeyChar(k[i]) }

  /** The body of a literal after whose last key-length characters the closing quote makes `"k"`. */
  predicate Mimics(body: string, k: string) { body == k || EndsWith(body, "\\\"" + k) }

  predicate IsKey(token: Token, k: string) { token.Quoted? && Mimics(token.body, k) }

  predicate HasColon(token: Token) { ':' in token.Chars() }

  // ----- texts the search is well behaved on

  predicate Plain(token: Token) {
    match token
    case Quoted(body) => StringBody(body)
    case Sym(c) => c != '"' && c != '\\' && !KeyChar(c) && !IsSpace(c)
    case NullWord => true
  }

  /** A literal is followed by a symbol or by whitespace. */
  predicate Readable(ps: Pieces) {
    ps.Next? ==>
      Plain(ps.token) && Readable(ps.rest) &&
      (ps.token.Quoted? && ps.rest.Next? ==> ps.rest.token.Sym? || ps.rest.gap != "")
  }

  predicate TokensReadable(ts: seq<Token>) {
    forall i :: 0 <= i < |ts| ==> Plain(ts[i]) && (ts[i].Quoted? && i + 1 < |ts| ==> ts[i + 1].Sym?)
  }

  lemma {:induction false} SpelledReadable(ps: Pieces, ts: seq<Token>, rest: Pieces)
    requires Spells(ps, ts, rest) && TokensReadable(ts) && rest.Tail?
    ensures Readable(ps)
  {
    if ts != [] {
      assert TokensReadable(ts[1..]) by {
        forall i | 0 <= i < |ts[1..]|
          ensures Plain(ts[1..][i]) && (ts[1..][i].Quoted? && i + 1 < |ts[1..]| ==> ts[1..][i + 1].Sym?)
        {
          assert ts[1..][i] == ts[i + 1];
        }
      }
      SpelledReadable(ps.rest, ts[1..], rest);
    }
  }

  // ----- where a quoted key can stand

  lemma {:induction false} BodyQuote(body: string, i: nat)
    requires StringBody(body) && i < |body| && body[i] == '"'
    ensures i >= 1 && body[i - 1] == '\\'
  {
    if body[0] == '\\' {
      if i > 1 {
        BodyQuote(body[2..], i - 2);
      }
    } else {
      BodyQuote(body[1..], i - 1);
    }
  }

  lemma {:induction false} WordChars(t: string, p: nat, w: string)
    requires HasAt(t, p, w)
    ensures p + |w| <= |t| && forall i :: 0 <= i < |w| ==> t[p + i] == w[i]
  {
    forall i | 0 <= i < |w| ensures t[p + i] == w[i] {
      HasAtChar(t, p, w, i);
    }
  }

  lemma {:induction false} WordAt(t: string, p: nat, w: string, j: nat)
    requires HasAt(t, p, w) && p <= j < p + |w|
    ensures j < |t| && t[j] == w[j - p]
  {
    HasAtChar(t, p, w, j - p);
  }

  lemma {:induction false} LiteralEnds(t: string, a: nat, body: string)
    requires HasAt(t, a, Quoted(body).Chars())
    ensures a + |body| + 2 <= |t| && t[a] == '"' && t[a + |body| + 1] == '"'
  {
    hide HasAt;
    HasAtChar(t, a, Quoted(body).Chars(), 0);
    HasAtChar(t, a, Quoted(body).Chars(), |body| + 1);
  }

  lemma {:induction false} LiteralAt(t: string, a: nat, body: string, j: nat)
    requires HasAt(t, a, Quoted(body).Chars()) && a < j <= a + |body|
    ensures j < |t| && t[j] == body[j - a - 1]
  {
    hide HasAt;
    HasAtChar(t, a, Quoted(body).Chars(), j - a);
  }

  /** A key as a literal. */
  lemma KeyShape(k: string)
    requires IsKeyName(k)
    ensures k != "" && QuotedKey(k) == Quoted(k).Chars()
    ensures forall i :: 0 <= i < |k| ==> KeyChar(k[i]) && k[i] != '"' && k[i] != '\\'
  {
  }

  /** Inside a literal, `"k"` can only end where the literal does. */
  lemma {:induction false} KeyEndsLiteral(t: string, a: nat, body: string, q: nat, k: string)
    requires IsKeyName(k) && StringBody(body) && HasAt(t, a, Quoted(body).Chars())
    requires a + |body| + 2 < |t| ==> !KeyChar(t[a + |body| + 2])
    requires a <= q < a + |body| + 2 && HasAt(t, q, QuotedKey(k))
    ensures q == a + |body| - |k|
  {
    hide *;
    KeyShape(k);
    LiteralEnds(t, a, body);
    LiteralEnds(t, q, k);
    var z, c := q + |k| + 1, a + |body| + 1;
    if q == c {
      LiteralAt(t, q, k, c + 1);
    } else if c < z {
      LiteralAt(t, q, k, c);
    } else if z < c {
      LiteralAt(t, q, k, z - 1);
      LiteralAt(t, a, body, z - 1);
      LiteralAt(t, a, body, z);
      BodyQuote(body, z - a - 1);
    }
  }

  /** Inside a literal, `"k"` stands only at its end, and only if the body mimics the key. */
  lemma {:induction false} KeyInLiteral(t: string, a: nat, body: string, q: nat, k: string)
    requires IsKeyName(k) && StringBody(body) && HasAt(t, a, Quoted(body).Chars())
    requires a + |body| + 2 < |t| ==> !KeyChar(t[a + |body| + 2])
    requires a <= q < a + |body| + 2 && HasAt(t, q, QuotedKey(k))
    ensures q == a + |body| - |k| && Mimics(body, k)
  {
    hide *;
    KeyEndsLiteral(t, a, body, q, k);
    KeyShape(k);
    LiteralEnds(t, q, k);
    var m := |body| - |k|;
    forall i | 0 <= i < |k| ensures body[m + i] == k[i] {
      LiteralAt(t, a, body, q + 1 + i);
      LiteralAt(t, q, k, q + 1 + i);
    }
    if m > 0 {
      LiteralAt(t, a, body, q);
      BodyQuote(body, m - 1);
    }
    MimicsFrom(body, k);
  }

  lemma {:induction false} MimicsFrom(body: string, k: string)
    requires |k| <= |body| && forall i :: 0 <= i < |k| ==> body[|body| - |k| + i] == k[i]
    requires |body| > |k| ==> |body| >= |k| + 2 && body[|body| - |k| - 1] == '"' && body[|body| - |k| - 2] == '\\'
    ensures Mimics(body, k)
  {
    var m := |body| - |k|;
    if m == 0 {
      assert body == k;
    } else {
      var tail, key := body[m - 2..], "\\\"" + k;
      assert |tail| == |key| && tail[0] == key[0] && tail[1] == key[1];
      forall i | 0 <= i < |tail| ensures tail[i] == key[i] {
        if i >= 2 {
          assert tail[i] == body[m + (i - 2)] && key[i] == k[i - 2];
        }
      }
      assert tail == key;
    }
  }

  lemma {:induction false} MimicStands(t: string, a: nat, body: string, k: string)
    requires Mimics(body, k) && HasAt(t, a, Quoted(body).Chars())
    ensures |k| <= |body| && HasAt(t, a + |body| - |k|, QuotedKey(k))
  {
    var chars := Quoted(body).Chars();
    var at := |body| - |k|;
    if body != k {
      assert body[|body| - |k| - 1..] == ("\\\"" + k)[1..] == "\"" + k;
    }
    assert chars[at..] == QuotedKey(k);
    assert chars == chars[..at] + chars[at..];
    HasAtSplit(t, a, chars[..at], chars[at..]);
  }

  /** `ps` is all the text from `p` on. */
  predicate RestOf(t: string, p: nat, ps: Pieces) { HasAt(t, p, Flat(ps)) && p + |Flat(ps)| == |t| }

  lemma WholeText(ps: Pieces)
    ensures RestOf(Flat(ps), 0, ps)
  {
  }

  function PosOf(t: string, ps: Pieces): int { |t| - |Flat(ps)| }

  lemma {:induction false} RestStep(t: string, p: nat, ps: Pieces)
    requires RestOf(t, p, ps) && ps.Next?
    ensures RestOf(t, After(p, ps), ps.rest) && After(p, ps) == PosOf(t, ps.rest)
    ensures HasAt(t, p, ps.gap) && HasAt(t, p + |ps.gap|, ps.token.Chars())
  {
    hide HasAt, Flat, Token.Chars;
    FlatNext(ps.gap, ps.token, ps.rest);
    assert ps == Next(ps.gap, ps.token, ps.rest);
    HasAtSplit(t, p, ps.gap, ps.token.Chars() + Flat(ps.rest));
    HasAtSplit(t, p + |ps.gap|, ps.token.Chars(), Flat(ps.rest));
  }

  lemma {:induction false} FindSkip(t: string, w: string, p: nat, n: nat)
    requires p <= n <= |t| && forall q :: p <= q < n ==> !HasAt(t, q, w)
    ensures Find(t, w, p) == Find(t, w, n)
    decreases n - p
  {
    if p < n {
      FindSkip(t, w, p + 1, n);
    }
  }

  /** The character after a literal is never a letter or underscore. */
  lemma {:induction false} AfterLiteral(t: string, p: nat, ps: Pieces)
    requires RestOf(t, p, ps) && Readable(ps) && Spaced(ps) && ps.Next? && ps.token.Quoted?
    ensures After(p, ps) < |t| ==> !KeyChar(t[After(p, ps)])
  {
    RestStep(t, p, ps);
    var n := After(p, ps);
    if n < |t| {
      assert Flat(ps.rest) != "";
      HasAtChar(t, n, Flat(ps.rest), 0);
      assert Spaced(ps.rest) && AllSpace(ps.rest.gap);
      assert ps.rest.Next? ==> Plain(ps.rest.token);
    }
  }

  lemma {:induction false} KeyQuote(t: string, q: nat, k: string)
    requires HasAt(t, q, QuotedKey(k))
    ensures q < |t| && t[q] == '"'
  {
    hide HasAt;
    HasAtChar(t, q, QuotedKey(k), 0);
  }

  lemma {:induction false} NoQuoteInGap(t: string, p: nat, gap: string, q: nat)
    requires HasAt(t, p, gap) && AllSpace(gap) && p <= q < p + |gap|
    ensures q < |t| && t[q] != '"'
  {
    hide HasAt;
    WordAt(t, p, gap, q);
  }

  lemma {:induction false} NoQuoteInToken(t: string, p: nat, token: Token, q: nat)
    requires HasAt(t, p, token.Chars()) && Plain(token) && !token.Quoted? && p <= q < p + |token.Chars()|
    ensures q < |t| && t[q] != '"'
  {
    hide HasAt;
    WordAt(t, p, token.Chars(), q);
  }

  /** The parts of the first piece of a readable text. */
  lemma {:induction false} FirstReadable(ps: Pieces)
    requires Readable(ps) && Spaced(ps) && ps.Next?
    ensures AllSpace(ps.gap) && Plain(ps.token)
    ensures ps.token.Quoted? ==> StringBody(ps.token.body) && ps.token == Quoted(ps.token.body) &&
                                 |ps.token.Chars()| == |ps.token.body| + 2
  {
    hide AllSpace, StringBody;
  }

  lemma {:induction false} LiteralKey(token: Token, k: string)
    requires token.Quoted? && Mimics(token.body, k)
    ensures IsKey(token, k)
  {
    hide Mimics;
  }

  /** Within the first piece, `"k"` stands only where a mimicking literal ends. */
  lemma {:induction false} KeyInPiece(t: string, p: nat, ps: Pieces, k: string, q: nat)
    requires IsKeyName(k) && RestOf(t, p, ps) && Readable(ps) && Spaced(ps) && ps.Next?
    requires p <= q < After(p, ps) && HasAt(t, q, QuotedKey(k))
    ensures IsKey(ps.token, k) && q + |k| + 2 == After(p, ps)
  {
    hide *;
    RestStep(t, p, ps);
    RestSize(t, p, ps);
    FirstReadable(ps);
    KeyQuote(t, q, k);
    if q < p + |ps.gap| {
      NoQuoteInGap(t, p, ps.gap, q);
    } else if ps.token.Quoted? {
      AfterLiteral(t, p, ps);
      KeyInLiteral(t, p + |ps.gap|, ps.token.body, q, k);
      LiteralKey(ps.token, k);
    } else {
      NoQuoteInToken(t, p + |ps.gap|, ps.token, q);
    }
  }

  /** The pieces after the first literal that mimics `k`. */
  function TokenFind(ps: Pieces, k: string): Option<Pieces> {
    match ps
    case Tail(_) => None
    case Next(_, token, rest) => if IsKey(token, k) then Some(rest) else TokenFind(rest, k)
  }

  /** The substring search for `"k"` finds the end of the first literal that mimics `k`. */
  lemma {:induction false} KeySearch(t: string, p: nat, ps: Pieces, k: string)
    requires IsKeyName(k) && RestOf(t, p, ps) && Readable(ps) && Spaced(ps)
    ensures Find(t, QuotedKey(k), p).Some? <==> TokenFind(ps, k).Some?
    ensures TokenFind(ps, k).Some? ==>
              Find(t, QuotedKey(k), p).value + |QuotedKey(k)| == PosOf(t, TokenFind(ps, k).value)
    decreases ps
  {
    match ps {
      case Tail(gap) =>
        WordChars(t, p, gap);
        assert forall q :: p <= q < |t| ==> t[q] == gap[q - p] && IsSpace(t[q]);
        if Find(t, QuotedKey(k), p).Some? {
          HasAtChar(t, Find(t, QuotedKey(k), p).value, QuotedKey(k), 0);
        }
      case Next(gap, token, rest) =>
        RestStep(t, p, ps);
        var n := After(p, ps);
        if IsKey(token, k) {
          MimicStands(t, p + |gap|, token.body, k);
          var at := p + |gap| + |token.body| - |k|;
          forall q | p <= q < at ensures !HasAt(t, q, QuotedKey(k)) {
            if HasAt(t, q, QuotedKey(k)) {
              KeyInPiece(t, p, ps, k, q);
            }
          }
          FindSkip(t, QuotedKey(k), p, at);
        } else {
          forall q | p <= q < n ensures !HasAt(t, q, QuotedKey(k)) {
            if HasAt(t, q, QuotedKey(k)) {
              KeyInPiece(t, p, ps, k, q);
            }
          }
          FindSkip(t, QuotedKey(k), p, n);
          KeySearch(t, n, rest, k);
        }
    }
  }

  /** The first piece whose token holds a ':'. */
  function TokenColon(ps: Pieces): Option<Pieces> {
    match ps
    case Tail(_) => None
    case Next(_, token, rest) => if HasColon(token) then Some(ps) else TokenColon(rest)
  }

  lemma {:induction false} NoColonIn(t: string, p: nat, w: string)
    requires HasAt(t, p, w) && ':' !in w
    ensures forall q :: p <= q < p + |w| ==> !HasAt(t, q, ":")
  {
    WordChars(t, p, w);
    forall q | p <= q < p + |w| ensures !HasAt(t, q, ":") {
      assert t[q] == w[q - p];
      if HasAt(t, q, ":") {
        HasAtChar(t, q, ":", 0);
      }
    }
  }

  lemma {:induction false} ColonFrom(t: string, p: nat, w: string)
    requires HasAt(t, p, w) && ':' in w
    ensures Position(w, ':') < |w| && Find(t, ":", p) == Some(p + Position(w, ':'))
  {
    hide HasAt, Find, Position;
    var i := Position(w, ':');
    WordChars(t, p, w);
    ThisChar(t, p + i, ':');
    forall q | p <= q < p + i ensures !HasAt(t, q, ":") {
      WordAt(t, p, w, q);
      OtherChar(t, q, ':');
    }
    FindFirst(t, ":", p, p + i);
  }

  lemma {:induction false} ThisChar(t: string, q: nat, c: char)
    requires q < |t| && t[q] == c
    ensures HasAt(t, q, [c])
  {
  }

  lemma {:induction false} FindFirst(t: string, w: string, p: nat, q: nat)
    requires p <= q <= |t| && HasAt(t, q, w) && forall r :: p <= r < q ==> !HasAt(t, r, w)
    ensures Find(t, w, p) == Some(q)
  {
    hide HasAt, Find;
  }

  lemma {:induction false} OtherChar(t: string, q: nat, c: char)
    requires q < |t| && t[q] != c
    ensures !HasAt(t, q, [c])
  {
    hide HasAt;
    if HasAt(t, q, [c]) {
      HasAtChar(t, q, [c], 0);
    }
  }

  lemma {:induction false} RestSize(t: string, p: nat, ps: Pieces)
    requires RestOf(t, p, ps)
    ensures HasAt(t, p, Flat(ps)) && p + |Flat(ps)| == |t| && (ps.Tail? ==> Flat(ps) == ps.gap)
    ensures ps.Next? ==> |Flat(ps)| == |ps.gap| + |ps.token.Chars()| + |Flat(ps.rest)| &&
                         After(p, ps) == p + |ps.gap| + |ps.token.Chars()|
  {
    hide HasAt;
  }

  lemma {:induction false} SpacedGap(ps: Pieces)
    requires Spaced(ps)
    ensures AllSpace(ps.gap) && ':' !in ps.gap && (ps.Next? ==> Spaced(ps.rest))
  {
  }

  lemma {:induction false} PosIs(t: string, p: nat, ps: Pieces)
    requires RestOf(t, p, ps)
    ensures PosOf(t, ps) == p && p + |Flat(ps)| == |t|
  {
    hide HasAt, Flat;
  }

  lemma {:induction false} HasColonMeans(token: Token)
    ensures HasColon(token) <==> ':' in token.Chars()
  {
  }

  lemma {:induction false} TokenColonStep(ps: Pieces)
    ensures TokenColon(ps) ==
            if ps.Tail? then None else if HasColon(ps.token) then Some(ps) else TokenColon(ps.rest)
  {
    hide HasColon;
  }

  /** The next ':' of the text lies in the token of the first piece that holds one. */
  lemma {:induction false} ColonSearch(t: string, p: nat, ps: Pieces)
    requires RestOf(t, p, ps) && Spaced(ps) && TokenColon(ps).Some?
    ensures var c := TokenColon(ps).value; var f := Find(t, ":", p);
            c.Next? && HasColon(c.token) && f.Some? && PosOf(t, c) + |c.gap| <= f.value < PosOf(t, c.rest) &&
            f.value == PosOf(t, c) + |c.gap| + Position(c.token.Chars(), ':')
    decreases ps
  {
    hide *;
    SpacedGap(ps);
    TokenColonStep(ps);
    RestSize(t, p, ps);
    RestStep(t, p, ps);
    PosIs(t, p, ps);
    PosIs(t, After(p, ps), ps.rest);
    HasColonMeans(ps.token);
    var n := p + |ps.gap|;
    NoColonIn(t, p, ps.gap);
    FindSkip(t, ":", p, n);
    if HasColon(ps.token) {
      ColonFrom(t, n, ps.token.Chars());
    } else {
      NoColonIn(t, n, ps.token.Chars());
      FindSkip(t, ":", n, After(p, ps));
      ColonSearch(t, After(p, ps), ps.rest);
    }
  }

  // ----- when the search lands on the field

  predicate AnyColon(ts: seq<Token>) { exists i :: 0 <= i < |ts| && HasColon(ts[i]) }

  /** A literal among the tokens before the field mimics its key, and a ':' follows it there. */
  predicate Shadowed(before: seq<Token>, k: string) {
    exists i, j :: 0 <= i < j < |before| && IsKey(before[i], k) && HasColon(before[j])
  }

  lemma {:induction false} AnyColonStep(ts: seq<Token>)
    requires ts != []
    ensures AnyColon(ts) <==> HasColon(ts[0]) || AnyColon(ts[1..])
  {
    if AnyColon(ts) {
      var i :| 0 <= i < |ts| && HasColon(ts[i]);
      assert i > 0 ==> HasColon(ts[1..][i - 1]);
    }
    if AnyColon(ts[1..]) {
      var i :| 0 <= i < |ts[1..]| && HasColon(ts[1..][i]);
      assert HasColon(ts[i + 1]);
    }
  }

  lemma {:induction false} ShadowedStep(ts: seq<Token>, k: string)
    requires ts != []
    ensures Shadowed(ts, k) <==> (IsKey(ts[0], k) && AnyColon(ts[1..])) || Shadowed(ts[1..], k)
  {
    if Shadowed(ts, k) {
      var i, j :| 0 <= i < j < |ts| && IsKey(ts[i], k) && HasColon(ts[j]);
      assert HasColon(ts[1..][j - 1]);
      assert i > 0 ==> IsKey(ts[1..][i - 1], k);
    }
    if AnyColon(ts[1..]) {
      var j :| 0 <= j < |ts[1..]| && HasColon(ts[1..][j]);
      assert HasColon(ts[j + 1]);
    }
    if Shadowed(ts[1..], k) {
      var i, j :| 0 <= i < j < |ts[1..]| && IsKey(ts[1..][i], k) && HasColon(ts[1..][j]);
      assert IsKey(ts[i + 1], k) && HasColon(ts[j + 1]);
    }
  }

  lemma {:induction false} ShadowedColon(ts: seq<Token>, k: string)
    requires Shadowed(ts, k)
    ensures AnyColon(ts)
  {
    var i, j :| 0 <= i < j < |ts| && IsKey(ts[i], k) && HasColon(ts[j]);
  }

  /** A piece before `field` holds the first ':' of `ps`. */
  predicate ColonBefore(ps: Pieces, field: Pieces) {
    TokenColon(ps).Some? && TokenColon(ps).value.Next? && |Flat(field)| <= |Flat(TokenColon(ps).value.rest)|
  }

  lemma {:induction false} ColonIn(ps: Pieces, ts: seq<Token>, field: Pieces)
    requires Spells(ps, ts, field)
    ensures AnyColon(ts) ==> ColonBefore(ps, field)
    ensures !AnyColon(ts) ==> TokenColon(ps) == TokenColon(field)
  {
    if ts != [] {
      AnyColonStep(ts);
      ColonIn(ps.rest, ts[1..], field);
      SpellsLength(ps.rest, ts[1..], field);
    }
  }

  /** What the searches see, when `ps` spells `before` and then the field's own key. */
  lemma {:induction false} SearchFrom(ps: Pieces, before: seq<Token>, field: Pieces, k: string)
    requires Spells(ps, before, field) && field.Next? && field.token == Quoted(k) && ':' !in k
    ensures TokenFind(ps, k).Some?
    ensures Shadowed(before, k) ==> ColonBefore(TokenFind(ps, k).value, field)
    ensures !Shadowed(before, k) ==> TokenColon(TokenFind(ps, k).value) == TokenColon(field.rest)
  {
    if before != [] {
      ShadowedStep(before, k);
      if IsKey(before[0], k) {
        ColonIn(ps.rest, before[1..], field);
        if Shadowed(before[1..], k) {
          ShadowedColon(before[1..], k);
        }
        assert !HasColon(field.token);
      } else {
        SearchFrom(ps.rest, before[1..], field, k);
      }
    }
  }

  lemma {:induction false} SpellsLength(ps: Pieces, ts: seq<Token>, rest: Pieces)
    requires Spells(ps, ts, rest)
    ensures |Flat(rest)| <= |Flat(ps)|
  {
    if ts != [] {
      SpellsLength(ps.rest, ts[1..], rest);
    }
  }

  lemma {:induction false} SpellsRest(t: string, p: nat, ps: Pieces, ts: seq<Token>, rest: Pieces)
    requires RestOf(t, p, ps) && Spells(ps, ts, rest)
    ensures 0 <= PosOf(t, rest) && RestOf(t, PosOf(t, rest), rest)
    decreases ps
  {
    if ts != [] {
      RestStep(t, p, ps);
      SpellsRest(t, After(p, ps), ps.rest, ts[1..], rest);
    }
  }

  lemma SkipStops(t: string, p: nat, q: nat)
    requires p <= q < |t| && !IsSpace(t[q])
    ensures Skip(t, p) <= q
  {
  }

  lemma {:induction false} SpacedTail(ps: Pieces, ts: seq<Token>, rest: Pieces)
    requires Spaced(ps) && Spells(ps, ts, rest)
    ensures Spaced(rest)
  {
    if ts != [] {
      SpacedTail(ps.rest, ts[1..], rest);
    }
  }

  lemma {:induction false} AfterFind(t: string, p: nat, ps: Pieces, k: string)
    requires RestOf(t, p, ps) && Spaced(ps) && TokenFind(ps, k).Some?
    ensures var after := TokenFind(ps, k).value;
            0 <= PosOf(t, after) && RestOf(t, PosOf(t, after), after) && Spaced(after)
    decreases ps
  {
    RestStep(t, p, ps);
    if !IsKey(ps.token, k) {
      AfterFind(t, After(p, ps), ps.rest, k);
    }
  }

  /** Where the key and the value of a field stand. */
  lemma {:induction false} FieldPlace(t: string, p: nat, field: Pieces)
    requires RestOf(t, p, field) && Spaced(field) && field.Next? && field.token.Quoted?
    requires field.rest.Next? && field.rest.token == Sym(':')
    requires field.rest.rest.Next? && Solid(field.rest.rest.token)
    ensures var value := field.rest.rest;
            p + |field.gap| < PosOf(t, field.rest) < PosOf(t, value) && t[p + |field.gap|] == '"' &&
            PosOf(t, value) == PosOf(t, field.rest) + |field.rest.gap| + 1 &&
            PosOf(t, value) + |value.gap| < |t| && Skip(t, PosOf(t, value)) == PosOf(t, value) + |value.gap| &&
            RestOf(t, PosOf(t, value), value)
  {
    var value := field.rest.rest;
    assert Spaced(field.rest) && Spaced(value);
    RestStep(t, p, field);
    RestStep(t, After(p, field), field.rest);
    FirstPiece(t, p, field);
    FirstPiece(t, PosOf(t, value), value);
  }

  lemma {:induction false} StartFrom(t: string, k: string, required: bool, e: nat)
    requires Find(t, QuotedKey(k), 0).Some? && Find(t, QuotedKey(k), 0).value + |QuotedKey(k)| == e
    requires Find(t, ":", e).Some?
    ensures ValueStart(t, k, required) == Ok(Some(Skip(t, Find(t, ":", e).value + 1)))
  {
    hide Find, Skip, HasAt;
  }

  /** The two searches, one after the other, in a text laid out as `ps`. */
  lemma {:induction false} TwoSearches(t: string, ps: Pieces, k: string, required: bool) returns (colon: nat)
    requires RestOf(t, 0, ps) && IsKeyName(k) && Readable(ps) && Spaced(ps)
    requires TokenFind(ps, k).Some? && TokenColon(TokenFind(ps, k).value).Some?
    ensures var c := TokenColon(TokenFind(ps, k).value).value;
            c.Next? && HasColon(c.token) && colon < |t| && ValueStart(t, k, required) == Ok(Some(Skip(t, colon + 1))) &&
            PosOf(t, c) + |c.gap| <= colon < PosOf(t, c.rest) &&
            colon == PosOf(t, c) + |c.gap| + Position(c.token.Chars(), ':')
  {
    hide Flat, HasAt, Readable, Spaced, TokenFind, TokenColon, RestOf, Skip, Find, IsKeyName, ValueStart, QuotedKey,
      PosOf;
    KeySearch(t, 0, ps, k);
    AfterFind(t, 0, ps, k);
    var after := TokenFind(ps, k).value;
    ColonSearch(t, PosOf(t, after), after);
    colon := Find(t, ":", PosOf(t, after)).value;
    StartFrom(t, k, required, PosOf(t, after));
  }

  lemma {:induction false} LookupColon(
    t: string, ps: Pieces, before: seq<Token>, field: Pieces, k: string, required: bool) returns (colon: nat)
    requires RestOf(t, 0, ps) && IsKeyName(k) && Readable(ps) && Spaced(ps) && Spells(ps, before, field)
    requires field.Next? && field.token == Quoted(k) && field.rest.Next? && field.rest.token == Sym(':')
    ensures colon < |t| && ValueStart(t, k, required) == Ok(Some(Skip(t, colon + 1)))
    ensures Shadowed(before, k) ==> colon < PosOf(t, field)
    ensures !Shadowed(before, k) ==> PosOf(t, field.rest) + |field.rest.gap| <= colon < PosOf(t, field.rest.rest)
  {
    assert ':' !in k;
    assert HasColon(field.rest.token) && TokenColon(field.rest) == Some(field.rest);
    hide Flat, HasAt, Readable, Spaced, Spells, TokenFind, TokenColon, HasColon, RestOf, Shadowed, Skip, Find,
      IsKeyName, ValueStart, QuotedKey;
    SearchFrom(ps, before, field, k);
    colon := TwoSearches(t, ps, k, required);
  }

  /**
    The lookup is exact: it yields the position of the field's own value if and only if no literal
    before the field mimics the key with a ':' between the two.
   */
  lemma {:induction false} LookupExact(
    t: string, ps: Pieces, before: seq<Token>, field: Pieces, k: string, required: bool)
    requires RestOf(t, 0, ps) && IsKeyName(k) && Readable(ps) && Spaced(ps) && Spells(ps, before, field)
    requires field.Next? && field.token == Quoted(k) && field.rest.Next? && field.rest.token == Sym(':')
    requires field.rest.rest.Next? && Solid(field.rest.rest.token)
    ensures var value := field.rest.rest;
            0 <= PosOf(t, value) && RestOf(t, PosOf(t, value), value) &&
            PosOf(t, value) + |value.gap| < |t| &&
            (ValueStart(t, k, required) == Ok(Some(PosOf(t, value) + |value.gap|)) <==> !Shadowed(before, k))
  {
    hide Flat, HasAt, Readable, Spaced, Spells, RestOf, Shadowed, Skip, IsKeyName, ValueStart, Solid;
    var colon := LookupColon(t, ps, before, field, k, required);
    SpellsRest(t, 0, ps, before, field);
    SpacedTail(ps, before, field);
    FieldPlace(t, PosOf(t, field), field);
    if Shadowed(before, k) {
      SkipStops(t, colon + 1, PosOf(t, field) + |field.gap|);
    }
  }

  /** A literal that mimics `k` ends where `left` characters of the text are still to come. */
  predicate KeyLiteralEnds(ps: Pieces, k: string, left: nat) {
    ps.Next? && ((IsKey(ps.token, k) && |Flat(ps.rest)| == left) || KeyLiteralEnds(ps.rest, k, left))
  }

  lemma {:induction false} NoKeyInGap(t: string, p: nat, gap: string, k: string, q: nat)
    requires HasAt(t, p, gap) && p + |gap| == |t| && AllSpace(gap) && p <= q
    ensures !HasAt(t, q, QuotedKey(k))
  {
    hide HasAt;
    if HasAt(t, q, QuotedKey(k)) {
      HasAtChar(t, q, QuotedKey(k), 0);
      WordAt(t, p, gap, q);
    }
  }

  lemma {:induction false} KeyEndsStep(ps: Pieces, k: string, left: nat)
    ensures ps.Tail? ==> !KeyLiteralEnds(ps, k, left)
    ensures ps.Next? ==> (KeyLiteralEnds(ps, k, left) <==>
                           (IsKey(ps.token, k) && |Flat(ps.rest)| == left) || KeyLiteralEnds(ps.rest, k, left))
  {
    hide IsKey, Flat;
  }

  lemma {:induction false} RestLaid(ps: Pieces)
    requires Spaced(ps) && Readable(ps)
    ensures AllSpace(ps.gap) && (ps.Next? ==> Spaced(ps.rest) && Readable(ps.rest))
  {
    hide AllSpace, Plain;
  }

  lemma {:induction false} KeyToken(token: Token, k: string)
    requires IsKey(token, k)
    ensures token.Quoted? && Mimics(token.body, k) && token.Chars() == Quoted(token.body).Chars() &&
            |token.Chars()| == |token.body| + 2 && |QuotedKey(k)| == |k| + 2
  {
  }

  /** Every occurrence of `"k"` in the text is the end of such a literal, and the other way round. */
  lemma {:induction false} KeyOccurrences(t: string, p: nat, ps: Pieces, k: string, q: nat)
    requires IsKeyName(k) && RestOf(t, p, ps) && Readable(ps) && Spaced(ps) && p <= q && q + |k| + 2 <= |t|
    ensures HasAt(t, q, QuotedKey(k)) ==> KeyLiteralEnds(ps, k, |t| - (q + |k| + 2))
    ensures KeyLiteralEnds(ps, k, |t| - (q + |k| + 2)) ==> HasAt(t, q, QuotedKey(k))
    decreases ps
  {
    hide *;
    var left := |t| - (q + |k| + 2);
    KeyEndsStep(ps, k, left);
    RestLaid(ps);
    RestSize(t, p, ps);
    match ps {
      case Tail(gap) =>
        NoKeyInGap(t, p, gap, k, q);
      case Next(gap, token, rest) =>
        RestStep(t, p, ps);
        var n := After(p, ps);
        RestSize(t, n, rest);
        if IsKey(token, k) && |Flat(rest)| == left {
          KeyToken(token, k);
          MimicStands(t, p + |gap|, token.body, k);
        } else if q >= n {
          KeyOccurrences(t, n, rest, k, q);
        } else {
          if HasAt(t, q, QuotedKey(k)) {
            KeyInPiece(t, p, ps, k, q);
          }
          if KeyLiteralEnds(rest, k, left) {
            LateKey(t, n, rest, k, left);
          }
        }
    }
  }

  lemma {:induction false} LateKey(t: string, n: nat, ps: Pieces, k: string, left: nat)
    requires RestOf(t, n, ps) && KeyLiteralEnds(ps, k, left)
    ensures left + |k| + 2 <= |t| - n
    decreases ps
  {
    RestStep(t, n, ps);
    if IsKey(ps.token, k) && |Flat(ps.rest)| == left {
      MimicStands(t, n + |ps.gap|, ps.token.body, k);
    } else {
      LateKey(t, After(n, ps), ps.rest, k, left);
    }
  }
}
