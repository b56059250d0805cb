/** What the C++ reader makes of a string the Python encoder printed. */
module JsonStrings {
  import opened Text
  import opened JsonText
  import opened JsonReader
  import opened JsonGrammar
  import opened KeyLookup

  /** The characters that survive: 0x20-0x7E, newline and tab. */
  predicate Kept(c: char) { 0x20 <= c as int <= 0x7E || c == '\n' || c == '\t' }

  predicate AllKept(s: string) { forall i :: 0 <= i < |s| ==> Kept(s[i]) }

  function HexDigits(n: nat): string
    requires n < 0x10000
  {
    UnicodeEscape(n)[1..]
  }

  /** A character as it comes back: an escape the reader does not know loses its backslash only. */
  function RereadChar(c: char): string {
    var n := c as int;
    if Kept(c) then [c]
    else if n == 8 then "b"
    else if n == 12 then "f"
    else if c == '\r' then "r"
    else if n < 0x10000 then HexDigits(n)
    else HexDigits(0xD800 + (n - 0x10000) / 1024) + HexDigits(0xDC00 + (n - 0x10000) % 1024)
  }

  function Reread(s: string): string {
    if s == "" then "" else RereadChar(s[0]) + Reread(s[1..])
  }

  // ----- escaping, then reading

  lemma {:induction false} BodyConcat(a: string, b: string)
    requires StringBody(a) && StringBody(b)
    ensures StringBody(a + b) && Unescape(a + b) == Unescape(a) + Unescape(b)
  {
    hide StringBody, Unescape, Unescaped;
    BodyCases(a);
    if a == "" {
      assert a + b == b;
    } else if a[0] == '\\' {
      assert (a + b)[2..] == a[2..] + b;
      BodyEscape(a);
      BodyEscape(a + b);
      BodyConcat(a[2..], b);
    } else {
      assert (a + b)[1..] == a[1..] + b;
      BodyPlain(a);
      BodyPlain(a + b);
      BodyConcat(a[1..], b);
    }
  }

  lemma {:induction false} PlainBody(s: string)
    requires forall i :: 0 <= i < |s| ==> s[i] != '"' && s[i] != '\\'
    ensures StringBody(s) && Unescape(s) == s
  {
    if s != "" {
      PlainBody(s[1..]);
    }
  }

  lemma HexDigitPlain(n: nat)
    requires n < 16
    ensures '0' <= HexDigit(n) <= '9' || 'a' <= HexDigit(n) <= 'f'
  {
  }

  lemma {:induction false} UnicodeBody(n: nat)
    requires n < 0x10000
    ensures StringBody(UnicodeEscape(n)) && Unescape(UnicodeEscape(n)) == HexDigits(n)
    ensures forall i :: 0 <= i < |HexDigits(n)| ==> '0' <= HexDigits(n)[i] <= '9' || 'a' <= HexDigits(n)[i] <= 'u'
  {
    var e := UnicodeEscape(n);
    HexDigitPlain(n / 4096);
    HexDigitPlain(n / 256 % 16);
    HexDigitPlain(n / 16 % 16);
    HexDigitPlain(n % 16);
    PlainBody(e[2..]);
    assert e[1..] == ['u'] + e[2..];
  }

  lemma {:induction false} CharBody(c: char)
    ensures StringBody(EscapeChar(c)) && Unescape(EscapeChar(c)) == RereadChar(c)
  {
    var n := c as int;
    if c == '\\' || c == '"' || n == 8 || n == 12 || c == '\n' || c == '\r' || c == '\t' {
      assert EscapeChar(c)[2..] == "";
    } else if 0x20 <= n <= 0x7E {
      PlainBody([c]);
    } else if n < 0x10000 {
      UnicodeBody(n);
    } else {
      var hi, lo := 0xD800 + (n - 0x10000) / 1024, 0xDC00 + (n - 0x10000) % 1024;
      UnicodeBody(hi);
      UnicodeBody(lo);
      BodyConcat(UnicodeEscape(hi), UnicodeEscape(lo));
    }
  }

  /** Reading back the printed form of any string. */
  lemma {:induction false} EscapeBody(s: string)
    ensures StringBody(Escape(s)) && Unescape(Escape(s)) == Reread(s)
  {
    if s != "" {
      CharBody(s[0]);
      EscapeBody(s[1..]);
      BodyConcat(EscapeChar(s[0]), Escape(s[1..]));
    }
  }

  lemma {:induction false} UnicodeKept(n: nat)
    requires n < 0x10000
    ensures AllKept(HexDigits(n)) && HexDigits(n) != "" && '"' !in UnicodeEscape(n)
  {
    hide Unescape, StringBody;
    UnicodeBody(n);
    assert UnicodeEscape(n) == ['\\'] + HexDigits(n);
  }

  lemma {:induction false} RereadCharKept(c: char)
    ensures AllKept(RereadChar(c)) && RereadChar(c) != ""
  {
    hide HexDigits;
    var n := c as int;
    if !Kept(c) && n != 8 && n != 12 && c != '\r' {
      if n < 0x10000 {
        UnicodeKept(n);
      } else {
        UnicodeKept(0xD800 + (n - 0x10000) / 1024);
        UnicodeKept(0xDC00 + (n - 0x10000) % 1024);
      }
    }
  }

  lemma {:induction false} RereadKept(s: string)
    ensures AllKept(Reread(s))
  {
    if s != "" {
      RereadCharKept(s[0]);
      RereadKept(s[1..]);
    }
  }

  lemma {:induction false} KeptReread(s: string)
    requires AllKept(s)
    ensures Reread(s) == s
  {
    if s != "" {
      KeptReread(s[1..]);
      assert s == [s[0]] + s[1..];
    }
  }

  /** A string comes back unchanged exactly when it has no other character. */
  lemma {:induction false} StringRoundTrip(s: string)
    ensures Reread(s) == s <==> AllKept(s)
  {
    RereadKept(s);
    if AllKept(s) {
      KeptReread(s);
    }
  }

  // ----- printed literals and keys

  lemma {:induction false} LiteralDenotes(s: string)
    ensures Denotes(Literal(s), Reread(s))
  {
    EscapeBody(s);
  }

  lemma {:induction false} EscapeKeyName(k: string)
    requires forall i :: 0 <= i < |k| ==> KeyChar(k[i])
    ensures Escape(k) == k
  {
    if k != "" {
      EscapeKeyName(k[1..]);
      assert k == [k[0]] + k[1..];
    }
  }

  lemma {:induction false} EndsWithTail(a: string, b: string, w: string)
    requires |w| <= |b|
    ensures EndsWith(a + b, w) <==> EndsWith(b, w)
  {
    assert (a + b)[|a + b| - |w|..] == b[|b| - |w|..];
  }

  /** The printed form mimics a key exactly when the string is the key or ends in a quote and the key. */
  lemma {:induction false} MimicsEscape(s: string, k: string)
    requires IsKeyName(k)
    ensures Mimics(Escape(s), k) <==> s == k || EndsWith(s, "\"" + k)
  {
    EscapeKeyName(k);
    if s == k || EndsWith(s, "\"" + k) {
      if s != k {
        var a := s[..|s| - |k| - 1];
        assert s == a + ("\"" + k);
        EscapeConcat(a, "\"" + k);
        assert ("\"" + k)[1..] == k && Escape("\"" + k) == "\\\"" + k;
      }
    }
    if Escape(s) == k {
      EscapeBody(s);
      PlainBody(k);
      EscapedPlain(s);
    } else if EndsWith(Escape(s), "\\\"" + k) {
      EscapedEnd(s, k);
    }
  }

  /** A printed form without a backslash is the string itself. */
  lemma {:induction false} EscapedPlain(s: string)
    requires forall i :: 0 <= i < |Escape(s)| ==> Escape(s)[i] != '\\'
    ensures Escape(s) == s
  {
    if s != "" {
      var e, r := EscapeChar(s[0]), Escape(s[1..]);
      assert Escape(s)[0] == e[0];
      assert e == [s[0]];
      assert forall i :: 0 <= i < |r| ==> r[i] == Escape(s)[i + 1];
      EscapedPlain(s[1..]);
      assert s == [s[0]] + s[1..];
    }
  }

  lemma {:induction false} EscapedEnd(s: string, k: string)
    requires IsKeyName(k) && EndsWith(Escape(s), "\\\"" + k)
    ensures EndsWith(s, "\"" + k)
  {
    var w := "\\\"" + k;
    var e, r := EscapeChar(s[0]), Escape(s[1..]);
    assert s == [s[0]] + s[1..];
    if |w| <= |r| {
      EndsWithTail(e, r, w);
      EscapedEnd(s[1..], k);
      EndsWithTail([s[0]], s[1..], "\"" + k);
    } else {
      var d := |e| + |r| - |w|;
      assert Escape(s)[d..] == w && w[1] == '"' && Escape(s)[d + 1] == '"';
      if d + 1 == |e| {
        assert r[0] == '"';
        EscapeBody(s[1..]);
      }
      QuoteInEscape(s[0], d + 1);
      assert r == Escape(s)[d..][2..] == k;
      EscapeKeyName(k);
      EscapedPlain(s[1..]);
    }
  }

  lemma {:induction false} QuoteInEscape(c: char, j: nat)
    requires j < |EscapeChar(c)| && EscapeChar(c)[j] == '"'
    ensures c == '"' && j == 1
  {
    hide UnicodeEscape;
    var n := c as int;
    if n < 0x20 || 0x7E < n < 0x10000 {
      UnicodeKept(n);
    } else if n >= 0x10000 {
      UnicodeKept(0xD800 + (n - 0x10000) / 1024);
      UnicodeKept(0xDC00 + (n - 0x10000) % 1024);
    }
  }
}
