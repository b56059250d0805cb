/**
  Where a key lookup lands, in terms of the tokens of the document alone: on a value, or inside a
  string literal that holds the first ':' after the key.
 */
module Landing {
  import opened Wrappers
  import opened Text
  import opened JsonText
  import opened JsonReader
  import opened JsonGrammar
  import opened KeyLookup

  /** `text` is what is left of the literal's body after the ':' and the whitespace behind it. */
  datatype Landing = KeyMissing | ColonMissing | AtValue(value: Pieces) | InLiteral(text: string, next: Pieces)

  function DropSpace(s: string): (r: string)
    ensures |r| <= |s| && r == s[|s| - |r|..] && (r != "" ==> !IsSpace(r[0]))
  {
    if s != "" && IsSpace(s[0]) then DropSpace(s[1..]) else s
  }

  function AfterColon(s: string): string {
    if Position(s, ':') < |s| then s[Position(s, ':') + 1..] else ""
  }

  /** From the first token with a ':' behind the key. */
  function FromColon(c: Option<Pieces>): Landing {
    if c.None? || c.value.Tail? then ColonMissing
    else if c.value.token.Quoted? then InLiteral(DropSpace(AfterColon(c.value.token.body)), c.value.rest)
    else AtValue(c.value.rest)
  }

  function LandsAt(ps: Pieces, k: string): Landing {
    match TokenFind(ps, k)
    case None => KeyMissing
    case Some(after) => FromColon(TokenColon(after))
  }

  // ----- positions inside a literal

  /** From `p` on the text is the rest `x` of a literal's body, its closing quote, and `n`. */
  predicate InText(t: string, p: nat, x: string, n: Pieces) {
    p <= |t| && t[p..] == x + ("\"" + Flat(n))
  }

  /** Every quote has a backslash before it. */
  predicate Unquoted(x: string) {
    forall i :: 0 <= i < |x| && x[i] == '"' ==> i > 0 && x[i - 1] == '\\'
  }

  lemma {:induction false} BodyUnquoted(body: string)
    requires StringBody(body)
    ensures Unquoted(body)
  {
    hide StringBody;
    forall i | 0 <= i < |body| && body[i] == '"' ensures i > 0 && body[i - 1] == '\\' {
      BodyQuote(body, i);
    }
  }

  /** What follows a character other than a backslash begins with no quote. */
  lemma UnquotedFrom(x: string, i: nat)
    requires Unquoted(x) && 0 < i <= |x| && x[i - 1] != '\\'
    ensures Unquoted(x[i..])
  {
  }

  lemma {:induction false} UnquotedDrop(x: string)
    requires Unquoted(x)
    ensures Unquoted(DropSpace(x))
  {
    if x != "" && IsSpace(x[0]) {
      UnquotedFrom(x, 1);
      UnquotedDrop(x[1..]);
    }
  }

  lemma {:induction false} InTextStep(t: string, p: nat, x: string, n: Pieces)
    requires InText(t, p, x, n)
    ensures p < |t| && t[p] == (if x == "" then '"' else x[0])
    ensures x != "" ==> InText(t, p + 1, x[1..], n)
  {
    hide Flat;
    assert t[p] == t[p..][0];
    assert t[p + 1..] == t[p..][1..];
    if x != "" {
      assert (x + ("\"" + Flat(n)))[1..] == x[1..] + ("\"" + Flat(n));
    }
  }

  lemma SkipOne(t: string, p: nat)
    requires p < |t|
    ensures Skip(t, p) == if IsSpace(t[p]) then Skip(t, p + 1) else p
  {
  }

  lemma DropOne(x: string)
    ensures DropSpace(x) == if x != "" && IsSpace(x[0]) then DropSpace(x[1..]) else x
    ensures !IsSpace('"')
  {
  }

  /** Skipping whitespace stays inside the literal: its closing quote is no space. */
  lemma {:induction false} SkipInText(t: string, p: nat, x: string, n: Pieces)
    requires InText(t, p, x, n)
    ensures Skip(t, p) < |t| && InText(t, Skip(t, p), DropSpace(x), n)
    ensures t[Skip(t, p)] == if DropSpace(x) == "" then '"' else DropSpace(x)[0]
    decreases |x|
  {
    hide InText, Skip, DropSpace, IsSpace;
    InTextStep(t, p, x, n);
    SkipOne(t, p);
    DropOne(x);
    if x != "" && IsSpace(x[0]) {
      SkipInText(t, p + 1, x[1..], n);
    }
  }

  // ----- the landing of a lookup

  lemma {:induction false} NoColonSearch(t: string, p: nat, ps: Pieces)
    requires RestOf(t, p, ps) && Spaced(ps) && TokenColon(ps).None?
    ensures Find(t, ":", p).None?
    decreases ps
  {
    assert AllSpace(ps.gap) && ':' !in ps.gap;
    match ps {
      case Tail(gap) =>
        NoColonIn(t, p, gap);
        NoColonPast(t);
        FindSkip(t, ":", p, |t|);
      case Next(gap, token, rest) =>
        RestStep(t, p, ps);
        NoColonIn(t, p, gap);
        NoColonIn(t, p + |gap|, token.Chars());
        FindSkip(t, ":", p, After(p, ps));
        NoColonSearch(t, After(p, ps), rest);
    }
  }

  lemma NoColonPast(t: string)
    ensures Find(t, ":", |t|).None?
  {
  }

  lemma QuotedChar(body: string, j: nat)
    requires j < |body|
    ensures ("\"" + body + "\"")[j + 1] == body[j]
  {
  }

  lemma {:induction false} ColonInside(body: string)
    requires HasColon(Quoted(body))
    ensures ':' in body
  {
    var chars := "\"" + body + "\"";
    var q :| 0 <= q < |chars| && chars[q] == ':';
    assert 0 < q < |chars| - 1;
    QuotedChar(body, q - 1);
  }

  lemma {:induction false} ColonQuoted(body: string)
    requires HasColon(Quoted(body))
    ensures Position(body, ':') < |body| && Position(Quoted(body).Chars(), ':') == Position(body, ':') + 1
  {
    hide Position;
    ColonInside(body);
    hide HasColon;
    var i := Position(body, ':');
    var chars := "\"" + body + "\"";
    QuotedChar(body, i);
    forall j | 0 <= j < i + 1 ensures chars[j] != ':' {
      if j > 0 {
        QuotedChar(body, j - 1);
      }
    }
    FirstPosition(chars, ':', i + 1);
  }

  lemma {:induction false} FirstPosition(s: string, c: char, i: nat)
    requires i < |s| && s[i] == c && forall j :: 0 <= j < i ==> s[j] != c
    ensures Position(s, c) == i
  {
    hide Position;
  }

  lemma {:induction false} AfterQuoted(gap: string, body: string, more: string, i: nat)
    requires i < |body|
    ensures (gap + ("\"" + body + "\"" + more))[|gap| + i + 2..] == body[i + 1..] + ("\"" + more)
  {
    var s := "\"" + body + "\"" + more;
    assert (gap + s)[|gap| + i + 2..] == s[i + 2..];
    assert s == ("\"" + body[..i + 1]) + (body[i + 1..] + ("\"" + more));
    assert |"\"" + body[..i + 1]| == i + 2;
  }

  /** The text after the ':' inside a literal. */
  lemma {:induction false} ColonInLiteral(t: string, c: Pieces, colon: nat)
    requires c.Next? && c.token.Quoted? && HasColon(c.token)
    requires 0 <= PosOf(t, c) && RestOf(t, PosOf(t, c), c)
    requires colon == PosOf(t, c) + |c.gap| + Position(c.token.Chars(), ':')
    ensures InText(t, colon + 1, AfterColon(c.token.body), c.rest)
  {
    var p, body := PosOf(t, c), c.token.body;
    var chars := c.token.Chars();
    var i := Position(body, ':');
    ColonQuoted(body);
    hide Position, HasColon;
    var more := chars + Flat(c.rest);
    assert t[p..] == Flat(c) == c.gap + more;
    hide Flat;
    assert t[colon + 1..] == t[p..][|c.gap| + i + 2..];
    AfterQuoted(c.gap, body, Flat(c.rest), i);
  }

  predicate Laid(ps: Pieces) { Spaced(ps) && Readable(ps) }

  /** What the two searches see of a document laid out as `ps`. */
  ghost predicate LandedAt(t: string, k: string, required: bool, at: Landing) {
    var r := ValueStart(t, k, required);
    match at
    case KeyMissing => r == if required then Err(MissingKey(k)) else Ok(None)
    case ColonMissing => r == Err(InvalidKey(k))
    case AtValue(v) =>
      0 <= PosOf(t, v) <= |t| && RestOf(t, PosOf(t, v), v) && Laid(v) && r == Ok(Some(Skip(t, PosOf(t, v))))
    case InLiteral(x, n) => r.Ok? && r.value.Some? && InText(t, r.value.value, x, n) && Laid(n) && Unquoted(x)
  }

  lemma {:induction false} TailsLaid(t: string, p: nat, ps: Pieces, k: string)
    requires RestOf(t, p, ps) && Laid(ps)
    ensures TokenFind(ps, k).Some? ==>
              var after := TokenFind(ps, k).value;
              Laid(after) && 0 <= PosOf(t, after) && RestOf(t, PosOf(t, after), after)
    ensures TokenColon(ps).Some? ==>
              var c := TokenColon(ps).value;
              c.Next? && HasColon(c.token) && Plain(c.token) && Laid(c) && Laid(c.rest) && 0 <= PosOf(t, c) &&
              RestOf(t, PosOf(t, c), c) && 0 <= PosOf(t, c.rest) && RestOf(t, PosOf(t, c.rest), c.rest)
    decreases ps
  {
    if ps.Next? {
      RestStep(t, p, ps);
      TailsLaid(t, After(p, ps), ps.rest, k);
    }
  }

  lemma {:induction false} StartMissing(t: string, k: string, required: bool)
    ensures Find(t, QuotedKey(k), 0).None? ==>
              ValueStart(t, k, required) == if required then Err(MissingKey(k)) else Ok(None)
    ensures Find(t, QuotedKey(k), 0).Some? && Find(t, ":", Find(t, QuotedKey(k), 0).value + |QuotedKey(k)|).None? ==>
              ValueStart(t, k, required) == Err(InvalidKey(k))
  {
    hide Find;
  }

  lemma {:induction false} LandsInLiteral(t: string, k: string, required: bool, c: Pieces, colon: nat)
    requires c.Next? && c.token.Quoted? && HasColon(c.token) && Plain(c.token) && Laid(c.rest)
    requires 0 <= PosOf(t, c) && RestOf(t, PosOf(t, c), c)
    requires colon == PosOf(t, c) + |c.gap| + Position(c.token.Chars(), ':') && colon < |t|
    requires ValueStart(t, k, required) == Ok(Some(Skip(t, colon + 1)))
    ensures LandedAt(t, k, required, FromColon(Some(c)))
  {
    hide *;
    PlainLiteral(c.token);
    ColonInLiteral(t, c, colon);
    SkipInText(t, colon + 1, AfterColon(c.token.body), c.rest);
    LiteralUnquoted(c.token.body);
    InLiteralMeans(t, k, required, c);
  }

  lemma {:induction false} PlainLiteral(token: Token)
    requires Plain(token) && token.Quoted?
    ensures StringBody(token.body)
  {
    hide StringBody;
  }

  lemma {:induction false} InLiteralMeans(t: string, k: string, required: bool, c: Pieces)
    requires c.Next? && c.token.Quoted?
    ensures LandedAt(t, k, required, FromColon(Some(c))) <==>
            var r := ValueStart(t, k, required); var x := DropSpace(AfterColon(c.token.body));
            r.Ok? && r.value.Some? && InText(t, r.value.value, x, c.rest) && Laid(c.rest) && Unquoted(x)
  {
    hide ValueStart, DropSpace, AfterColon, InText, Unquoted, Laid;
  }

  lemma {:induction false} LandsAlone(t: string, k: string, required: bool, c: Pieces, colon: nat)
    requires c.Next? && !c.token.Quoted? && HasColon(c.token) && Laid(c.rest)
    requires 0 <= PosOf(t, c) && RestOf(t, PosOf(t, c), c)
    requires 0 <= PosOf(t, c.rest) && RestOf(t, PosOf(t, c.rest), c.rest)
    requires colon == PosOf(t, c) + |c.gap| + Position(c.token.Chars(), ':') && colon < |t|
    requires ValueStart(t, k, required) == Ok(Some(Skip(t, colon + 1)))
    ensures LandedAt(t, k, required, FromColon(Some(c)))
  {
    hide ValueStart, RestOf, Skip, HasColon, Laid, Flat;
    ColonAlone(t, c, colon);
  }

  /** The lookup lands where the tokens say. */
  lemma {:induction false} Lands(ps: Pieces, k: string, required: bool)
    requires Laid(ps) && IsKeyName(k)
    ensures LandedAt(Flat(ps), k, required, LandsAt(ps, k))
  {
    hide *;
    var t := Flat(ps);
    WholeText(ps);
    LaidParts(ps);
    KeySearch(t, 0, ps, k);
    TailsLaid(t, 0, ps, k);
    StartMissing(t, k, required);
    LandsAtMeans(ps, k);
    MissingMeans(t, k, required);
    if TokenFind(ps, k).Some? {
      var after := TokenFind(ps, k).value;
      TailsLaid(t, PosOf(t, after), after, k);
      if TokenColon(after).None? {
        LaidParts(after);
        NoColonSearch(t, PosOf(t, after), after);
      } else {
        var c := TokenColon(after).value;
        var colon := TwoSearches(t, ps, k, required);
        if c.token.Quoted? {
          LandsInLiteral(t, k, required, c, colon);
        } else {
          LandsAlone(t, k, required, c, colon);
        }
      }
    }
  }

  lemma LaidParts(ps: Pieces)
    ensures Laid(ps) <==> Spaced(ps) && Readable(ps)
  {
  }

  lemma {:induction false} LandsAtMeans(ps: Pieces, k: string)
    ensures TokenFind(ps, k).None? ==> LandsAt(ps, k) == KeyMissing
    ensures TokenFind(ps, k).Some? ==> LandsAt(ps, k) == FromColon(TokenColon(TokenFind(ps, k).value))
    ensures FromColon(None) == ColonMissing
  {
    hide TokenFind, TokenColon;
  }

  lemma {:induction false} MissingMeans(t: string, k: string, required: bool)
    ensures LandedAt(t, k, required, KeyMissing) <==>
            ValueStart(t, k, required) == if required then Err(MissingKey(k)) else Ok(None)
    ensures LandedAt(t, k, required, ColonMissing) <==> ValueStart(t, k, required) == Err(InvalidKey(k))
  {
    hide ValueStart;
  }

  lemma {:induction false} LiteralUnquoted(body: string)
    requires StringBody(body)
    ensures Unquoted(DropSpace(AfterColon(body)))
  {
    BodyUnquoted(body);
    hide StringBody;
    var i := Position(body, ':');
    if i < |body| {
      UnquotedFrom(body, i + 1);
      UnquotedDrop(body[i + 1..]);
    }
  }

  /** A token other than a literal that holds a ':' is just that. */
  lemma {:induction false} ColonAlone(t: string, c: Pieces, colon: nat)
    requires c.Next? && !c.token.Quoted? && HasColon(c.token)
    requires 0 <= PosOf(t, c) && RestOf(t, PosOf(t, c), c)
    requires colon == PosOf(t, c) + |c.gap| + Position(c.token.Chars(), ':')
    ensures c.token == Sym(':') && colon + 1 == PosOf(t, c.rest)
  {
    RestStep(t, PosOf(t, c), c);
    ColonToken(c.token);
  }

  lemma {:induction false} ColonToken(token: Token)
    requires !token.Quoted? && HasColon(token)
    ensures token == Sym(':')
  {
    assert "null"[0] != ':' && "null"[1] != ':' && "null"[2] != ':' && "null"[3] != ':';
  }

  // ----- reading on from inside a literal

  function Count(ps: Pieces): nat { if ps.Next? then 1 + Count(ps.rest) else 0 }

  function NextLiteral(n: Pieces): (r: Option<Pieces>)
    ensures r.Some? ==> r.value.Next? && r.value.token.Quoted? && Count(r.value) <= Count(n)
  {
    match n
    case Tail(_) => None
    case Next(_, token, rest) => if token.Quoted? then Some(n) else NextLiteral(rest)
  }

  /** What stands before the next literal: whitespace and punctuation. */
  function Between(n: Pieces): string {
    match n
    case Tail(gap) => gap
    case Next(gap, token, rest) => if token.Quoted? then gap else gap + token.Chars() + Between(rest)
  }

  predicate Unmarked(w: string) { forall i :: 0 <= i < |w| ==> w[i] != '"' && w[i] != '\\' }

  lemma {:induction false} BetweenUnmarked(n: Pieces)
    requires Laid(n)
    ensures Unmarked(Between(n))
    ensures NextLiteral(n).Some? ==> Laid(NextLiteral(n).value.rest) && StringBody(NextLiteral(n).value.token.body)
  {
    assert AllSpace(n.gap) && Unmarked(n.gap);
    if n.Next? && !n.token.Quoted? {
      assert Plain(n.token);
      WordUnmarked(n.token);
      BetweenUnmarked(n.rest);
    }
  }

  lemma {:induction false} WordUnmarked(token: Token)
    requires Plain(token) && !token.Quoted?
    ensures Unmarked(token.Chars())
  {
    assert Unmarked("null");
  }

  lemma Regroup(a: string, b: string, c: string, d: string)
    ensures a + (b + (c + d)) == a + b + c + d
  {
  }

  /** From the next literal on. */
  function FromLiteral(n: Pieces): string {
    match NextLiteral(n)
    case None => ""
    case Some(l) => "\"" + (l.token.body + ("\"" + Flat(l.rest)))
  }

  lemma {:induction false} FlatSplit(n: Pieces)
    ensures Flat(n) == Between(n) + FromLiteral(n)
  {
    match n {
      case Tail(_) =>
      case Next(gap, token, rest) =>
        if token.Quoted? {
          QuotedText(token.body, Flat(rest));
        } else {
          FlatSplit(rest);
          Regroup(gap, token.Chars(), Between(rest), FromLiteral(rest));
          assert FromLiteral(n) == FromLiteral(rest);
        }
    }
  }

  lemma {:induction false} QuotedText(body: string, more: string)
    ensures Quoted(body).Chars() + more == "\"" + (body + ("\"" + more))
  {
    Regroup("\"", body, "\"", more);
  }

  lemma {:induction false} UnmarkedScan(t: string, q: nat, w: string, v: string)
    requires HasAt(t, q, w) && Unmarked(w)
    ensures ScanBody(t, q, v) == ScanBody(t, q + |w|, v + w)
    decreases |w|
  {
    if w == "" {
      assert v + w == v;
    } else {
      HasAtChar(t, q, w, 0);
      assert w == w[..1] + w[1..];
      HasAtSplit(t, q, w[..1], w[1..]);
      hide HasAt;
      UnmarkedScan(t, q + 1, w[1..], v + [w[0]]);
      assert v + [w[0]] + w[1..] == v + w;
    }
  }

  lemma {:induction false} InTextHas(t: string, p: nat, n: Pieces)
    requires InText(t, p, "", n)
    ensures p < |t| && t[p] == '"' && HasAt(t, p + 1, Between(n))
    ensures NextLiteral(n).None? ==> p + 1 + |Between(n)| == |t|
    ensures NextLiteral(n).Some? ==>
              var q := p + 1 + |Between(n)|; var l := NextLiteral(n).value;
              q < |t| && t[q] == '"' && InText(t, q + 1, l.token.body, l.rest)
  {
    hide *;
    FlatSplit(n);
    AtQuote(t, p, n);
    SuffixParts(t, p, '"', Between(n), FromLiteral(n));
    FromLiteralIs(n);
    if NextLiteral(n).Some? {
      var l, q := NextLiteral(n).value, p + 1 + |Between(n)|;
      NoWord(LiteralRest(l));
      SuffixParts(t, q, '"', "", LiteralRest(l));
      InTextRest(t, q + 1, l);
    }
  }

  /** A literal without its opening quote, and all that follows. */
  function LiteralRest(l: Pieces): string
    requires l.Next? && l.token.Quoted?
  {
    l.token.body + ("\"" + Flat(l.rest))
  }

  lemma {:induction false} AtQuote(t: string, p: nat, n: Pieces)
    requires InText(t, p, "", n)
    ensures p <= |t| && t[p..] == ['"'] + Flat(n)
  {
    hide Flat;
  }

  lemma {:induction false} FromLiteralIs(n: Pieces)
    ensures NextLiteral(n).None? ==> FromLiteral(n) == ""
    ensures NextLiteral(n).Some? ==> FromLiteral(n) == ['"'] + LiteralRest(NextLiteral(n).value)
  {
    hide Flat, NextLiteral;
  }

  lemma {:induction false} InTextRest(t: string, q: nat, l: Pieces)
    requires l.Next? && l.token.Quoted? && q <= |t| && t[q..] == LiteralRest(l)
    ensures InText(t, q, l.token.body, l.rest)
  {
    hide Flat;
  }

  lemma NoWord(s: string)
    ensures "" + s == s
  {
  }

  lemma {:induction false} SuffixParts(t: string, p: nat, c: char, w: string, e: string)
    requires p <= |t| && t[p..] == [c] + (w + e)
    ensures p + 1 + |w| <= |t| && t[p] == c && HasAt(t, p + 1, w) && t[p + 1 + |w|..] == e
  {
    var s := t[p..];
    assert |s| == 1 + |w| + |e| && t[p] == s[0];
    assert t[p + 1..p + 1 + |w|] == s[1..1 + |w|] == (w + e)[..|w|] == w;
    assert t[p + 1 + |w|..] == s[1 + |w|..] == (w + e)[|w|..] == e;
  }

  /** A scan that starts at the closing quote of a literal reads up to the opening quote of the next. */
  lemma {:induction false} QuoteScan(t: string, p: nat, n: Pieces)
    requires InText(t, p, "", n) && Laid(n)
    ensures NextLiteral(n).None? ==> ScanString(t, p) == Err(Unterminated)
    ensures NextLiteral(n).Some? ==>
              var l := NextLiteral(n).value; var q := p + 2 + |Between(n)|;
              ScanString(t, p) == Ok((Between(n), q)) && InText(t, q, l.token.body, l.rest) && Laid(l.rest) &&
              Unquoted(l.token.body)
  {
    hide InText, HasAt, Between, NextLiteral, StringBody, Laid, Unquoted;
    InTextHas(t, p, n);
    BetweenUnmarked(n);
    UnmarkedScan(t, p + 1, Between(n), "");
    assert "" + Between(n) == Between(n);
    if NextLiteral(n).Some? {
      BodyUnquoted(NextLiteral(n).value.token.body);
    }
  }

  /** The string that is read from inside a literal. */
  function StringIn(x: string, n: Pieces): Result<string, Error> {
    if HasAt(x, 0, "null") then Ok("")
    else if x != "" then Err(Expected('"'))
    else if NextLiteral(n).None? then Err(Unterminated)
    else Ok(Between(n))
  }

  lemma {:induction false} NullInText(t: string, p: nat, x: string, n: Pieces)
    requires InText(t, p, x, n)
    ensures HasAt(t, p, "null") <==> HasAt(x, 0, "null")
  {
    hide Flat;
    var s := x + ("\"" + Flat(n));
    assert HasAt(t, p, "null") <==> HasAt(s, 0, "null") by {
      assert |s| >= 4 ==> t[p..p + 4] == s[..4];
    }
    if |x| >= 4 {
      assert s[..4] == x[..4];
    } else {
      assert s[|x|] == '"';
      if HasAt(s, 0, "null") {
        HasAtChar(s, 0, "null", |x|);
      }
    }
  }

  lemma {:induction false} StringInText(t: string, p: nat, x: string, n: Pieces)
    requires InText(t, p, x, n) && Laid(n) && Unquoted(x)
    ensures StringAt(t, p) == StringIn(x, n)
  {
    NullInText(t, p, x, n);
    InTextStep(t, p, x, n);
    assert x != "" ==> x[0] != '"';
    hide InText, HasAt, Between, NextLiteral, Laid, Unquoted, ScanBody;
    if x == "" {
      QuoteScan(t, p, n);
    }
  }

  /** An entry whose key is read from the closing quote of a literal; the piece where its value ends. */
  function EntryIn(n: Pieces): (r: Result<(Entry, Pieces), Error>)
    ensures r.Ok? ==> r.value.1.Next? && r.value.1.token.Quoted? && Count(r.value.1) < Count(n)
  {
    match NextLiteral(n)
    case None => Err(Unterminated)
    case Some(l) =>
      var y := DropSpace(l.token.body);
      if y == "" || y[0] != ':' then Err(Expected(':'))
      else if DropSpace(y[1..]) != "" then Err(Expected('"'))
      else
        match NextLiteral(l.rest)
        case None => Err(Unterminated)
        case Some(m) => Ok((Entry(Between(n), Between(l.rest)), m))
  }

  lemma {:induction false} EntryInText(t: string, p: nat, n: Pieces)
    requires InText(t, p, "", n) && Laid(n)
    ensures EntryIn(n).Err? ==> ScanEntry(t, p) == Err(EntryIn(n).error)
    ensures EntryIn(n).Ok? ==>
              var r := ScanEntry(t, p); var m := EntryIn(n).value.1;
              r.Ok? && r.value.0 == EntryIn(n).value.0 && InText(t, r.value.1, m.token.body, m.rest) && Laid(m.rest) &&
              Unquoted(m.token.body)
  {
    hide InText, Between, NextLiteral, Laid, Unquoted, ScanString, Skip, DropSpace;
    QuoteScan(t, p, n);
    if NextLiteral(n).Some? {
      var l := NextLiteral(n).value;
      EntryValueInText(t, p + 2 + |Between(n)|, l.token.body, l.rest, Between(n));
    }
  }

  /** From the text after a key to the end of the value. */
  lemma {:induction false} EntryValueInText(t: string, q: nat, x: string, n: Pieces, key: string)
    requires InText(t, q, x, n) && Laid(n) && Unquoted(x)
    ensures var y := DropSpace(x); var r := ScanEntryValue(t, q, key);
            if y == "" || y[0] != ':' then r == Err(Expected(':'))
            else if DropSpace(y[1..]) != "" then r == Err(Expected('"'))
            else if NextLiteral(n).None? then r == Err(Unterminated)
            else
              var m := NextLiteral(n).value;
              r.Ok? && r.value.0 == Entry(key, Between(n)) && InText(t, r.value.1, m.token.body, m.rest) &&
              Laid(m.rest) && Unquoted(m.token.body)
  {
    hide Between, NextLiteral, Laid, ScanString, Skip, DropSpace, InText, Unquoted;
    SkipInText(t, q, x, n);
    UnquotedDrop(x);
    var y, s := DropSpace(x), Skip(t, q);
    if y != "" && y[0] == ':' {
      InTextStep(t, s, y, n);
      UnquotedFrom(y, 1);
      SkipInText(t, s + 1, y[1..], n);
      UnquotedDrop(y[1..]);
      var z := DropSpace(y[1..]);
      if z == "" {
        QuoteScan(t, Skip(t, s + 1), n);
      } else {
        NoQuote(t, Skip(t, s + 1), z);
      }
    }
  }

  lemma NoQuote(t: string, p: nat, z: string)
    requires z != "" && Unquoted(z) && p < |t| && t[p] == z[0]
    ensures ScanString(t, p) == Err(Expected('"'))
  {
  }

  /** One turn of the map loop that starts inside a literal. */
  datatype InTurn<T> =
    | Stop(error: Error)
    | Closed
    | Final(item: T)
    | Further(item: T, text: string, next: Pieces)

  function TurnIn(x: string, n: Pieces): (r: InTurn<Entry>)
    ensures r.Further? ==> Count(r.next) < Count(n)
  {
    var y := DropSpace(x);
    if y != "" then (if y[0] == '}' then Closed else Stop(Expected('"')))
    else
      match EntryIn(n)
      case Err(e) => Stop(e)
      case Ok((entry, m)) =>
        var z := DropSpace(m.token.body);
        if z != "" && z[0] == ',' then Further(entry, z[1..], m.rest)
        else if z != "" && z[0] == '}' then Final(entry)
        else Stop(Expected('}'))
  }

  /** The entries that the map loop reads from inside a literal. */
  function EntriesIn(x: string, n: Pieces): Result<seq<Entry>, Error>
    decreases Count(n)
  {
    match TurnIn(x, n)
    case Stop(e) => Err(e)
    case Closed => Ok([])
    case Final(entry) => Ok([entry])
    case Further(entry, y, m) =>
      match EntriesIn(y, m) case Err(e) => Err(e) case Ok(es) => Ok([entry] + es)
  }

  lemma {:induction false} TurnInText(t: string, p: nat, x: string, n: Pieces)
    requires InText(t, p, x, n) && Laid(n) && Unquoted(x)
    ensures var turn := EntryTurn(t, p);
            match TurnIn(x, n)
            case Stop(e) => turn == Fail(e)
            case Closed => turn.Close?
            case Final(entry) => turn.Last? && turn.item == entry
            case Further(entry, y, m) =>
              turn.More? && turn.item == entry && InText(t, turn.next, y, m) && Laid(m) && Unquoted(y)
  {
    hide EntryIn, Laid, ScanEntry, Skip, DropSpace, InText, Unquoted, ScanString;
    SkipInText(t, p, x, n);
    UnquotedDrop(x);
    var y, s := DropSpace(x), Skip(t, p);
    if y == "" {
      EntryInText(t, s, n);
      if EntryIn(n).Ok? {
        var m := EntryIn(n).value.1;
        SeparatorInText(t, ScanEntry(t, s).value.1, m.token.body, m.rest, EntryIn(n).value.0, '}');
      }
    } else if y[0] != '}' {
      NoQuote(t, s, y);
      NoEntry(t, s);
    }
  }

  lemma NoEntry(t: string, p: nat)
    requires ScanString(t, p).Err?
    ensures ScanEntry(t, p) == Err(ScanString(t, p).error)
  {
  }

  lemma {:induction false} SeparatorInText<T>(t: string, q: nat, x: string, n: Pieces, item: T, close: char)
    requires InText(t, q, x, n) && Unquoted(x) && close != '"' && close != ','
    ensures var z := DropSpace(x); var turn := Separator(t, q, item, close);
            if z != "" && z[0] == ',' then
              turn.More? && turn.item == item && InText(t, turn.next, z[1..], n) && Unquoted(z[1..])
            else if z != "" && z[0] == close then turn.Last? && turn.item == item
            else turn == Fail(Expected(close))
  {
    hide DropSpace, Skip, InText, Unquoted;
    SkipInText(t, q, x, n);
    UnquotedDrop(x);
    var z := DropSpace(x);
    InTextStep(t, Skip(t, q), z, n);
    if z != "" && z[0] == ',' {
      UnquotedFrom(z, 1);
    }
  }

  lemma {:induction false} EntriesInText(t: string, p: nat, x: string, n: Pieces, acc: seq<Entry>)
    requires InText(t, p, x, n) && Laid(n) && Unquoted(x)
    ensures var r := ScanEntries(t, p, acc);
            match EntriesIn(x, n)
            case Err(e) => r == Err(e)
            case Ok(es) => r.Ok? && r.value.0 == acc + es
    decreases Count(n)
  {
    hide TurnIn, EntryTurn, Laid, InText, Unquoted;
    TurnInText(t, p, x, n);
    var turn := TurnIn(x, n);
    if turn.Further? {
      EntriesInText(t, EntryTurn(t, p).next, turn.text, turn.next, acc + [turn.item]);
      var es := EntriesIn(turn.text, turn.next);
      assert es.Ok? ==> acc + [turn.item] + es.value == acc + ([turn.item] + es.value);
    } else {
      assert acc + [] == acc;
    }
  }

  /** The map that is read from inside a literal. */
  function MapIn(x: string, n: Pieces): Result<map<string, string>, Error> {
    if x == "" || x[0] != '{' then Err(Expected('{'))
    else match EntriesIn(x[1..], n) case Err(e) => Err(e) case Ok(es) => Ok(MapOf(es))
  }

  lemma {:induction false} MapInText(t: string, p: nat, x: string, n: Pieces)
    requires InText(t, p, x, n) && Laid(n) && Unquoted(x)
    ensures MapAt(t, p) == MapIn(x, n)
  {
    hide InText, Laid, Unquoted, ScanEntries, EntriesIn;
    InTextStep(t, p, x, n);
    if x != "" && x[0] == '{' {
      UnquotedFrom(x, 1);
      EntriesInText(t, p + 1, x[1..], n, []);
      var es := EntriesIn(x[1..], n);
      assert es.Ok? ==> [] + es.value == es.value;
    }
  }

  /** One turn of the array loop that starts inside a literal. */
  function ItemTurnIn(x: string, n: Pieces): (r: InTurn<string>)
    ensures r.Further? ==> Count(r.next) < Count(n)
  {
    var y := DropSpace(x);
    if y != "" then (if y[0] == ']' then Closed else Stop(Expected('"')))
    else
      match NextLiteral(n)
      case None => Stop(Unterminated)
      case Some(l) =>
        var z := DropSpace(l.token.body);
        if z != "" && z[0] == ',' then Further(Between(n), z[1..], l.rest)
        else if z != "" && z[0] == ']' then Final(Between(n))
        else Stop(Expected(']'))
  }

  /** The items that the array loop reads from inside a literal. */
  function ItemsIn(x: string, n: Pieces): Result<seq<string>, Error>
    decreases Count(n)
  {
    match ItemTurnIn(x, n)
    case Stop(e) => Err(e)
    case Closed => Ok([])
    case Final(item) => Ok([item])
    case Further(item, y, m) =>
      match ItemsIn(y, m) case Err(e) => Err(e) case Ok(vs) => Ok([item] + vs)
  }

  lemma {:induction false} ItemTurnInText(t: string, p: nat, x: string, n: Pieces)
    requires InText(t, p, x, n) && Laid(n) && Unquoted(x)
    ensures var turn := ItemTurn(t, p);
            match ItemTurnIn(x, n)
            case Stop(e) => turn == Fail(e)
            case Closed => turn.Close?
            case Final(item) => turn.Last? && turn.item == item
            case Further(item, y, m) =>
              turn.More? && turn.item == item && InText(t, turn.next, y, m) && Laid(m) && Unquoted(y)
  {
    hide Laid, Skip, DropSpace, InText, Unquoted, ScanString, Separator, Between, NextLiteral;
    SkipInText(t, p, x, n);
    UnquotedDrop(x);
    var y, s := DropSpace(x), Skip(t, p);
    if y == "" {
      QuoteScan(t, s, n);
      if NextLiteral(n).Some? {
        var l := NextLiteral(n).value;
        SeparatorInText(t, s + 2 + |Between(n)|, l.token.body, l.rest, Between(n), ']');
      }
    } else if y[0] != ']' {
      NoQuote(t, s, y);
    }
  }

  lemma {:induction false} ItemsInText(t: string, p: nat, x: string, n: Pieces, acc: seq<string>)
    requires InText(t, p, x, n) && Laid(n) && Unquoted(x)
    ensures var r := ScanItems(t, p, acc);
            match ItemsIn(x, n)
            case Err(e) => r == Err(e)
            case Ok(vs) => r.Ok? && r.value.0 == acc + vs
    decreases Count(n)
  {
    hide ItemTurnIn, ItemTurn, Laid, InText, Unquoted;
    ItemTurnInText(t, p, x, n);
    var turn := ItemTurnIn(x, n);
    if turn.Further? {
      ItemsInText(t, ItemTurn(t, p).next, turn.text, turn.next, acc + [turn.item]);
      var vs := ItemsIn(turn.text, turn.next);
      assert vs.Ok? ==> acc + [turn.item] + vs.value == acc + ([turn.item] + vs.value);
    } else {
      assert acc + [] == acc;
    }
  }

  /** The array that is read from inside a literal. */
  function ArrayIn(x: string, n: Pieces): Result<seq<string>, Error> {
    if x == "" || x[0] != '[' then Err(Expected('[')) else ItemsIn(x[1..], n)
  }

  lemma {:induction false} ArrayInText(t: string, p: nat, x: string, n: Pieces)
    requires InText(t, p, x, n) && Laid(n) && Unquoted(x)
    ensures ArrayAt(t, p) == ArrayIn(x, n)
  {
    hide InText, Laid, Unquoted, ScanItems, ItemsIn;
    InTextStep(t, p, x, n);
    if x != "" && x[0] == '[' {
      UnquotedFrom(x, 1);
      ItemsInText(t, p + 1, x[1..], n, []);
      var vs := ItemsIn(x[1..], n);
      assert vs.Ok? ==> [] + vs.value == vs.value;
    }
  }
}
