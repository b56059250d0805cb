/** Configurations on which the results about runtime.json are exercised. */
module Witnesses {
  import opened Wrappers
  import opened Text
  import opened JsonText
  import opened JsonReader
  import opened JsonGrammar
  import opened KeyLookup
  import opened JsonStrings
  import opened Config
  import opened RuntimeJson
  import opened Landing
  import opened TokenReading
  import opened Whitespace

  /** A small container with this environment and no limits. */
  function Sample(env: seq<Entry>): AxisConfig {
    AxisConfig("i", ["c"], "n", None, "/", env, [], [], [], [], None, None, None)
  }

  function SampleFields(env: seq<Entry>): Fields { RuntimeFields(Sample(env), "/r", "n-1") }

  // ----- which strings are like keys

  lemma {:induction false} NoQuoteNotLike(s: string, k: string)
    requires '"' !in s && s != k
    ensures !KeyLike(s, k)
  {
    if |k| < |s| {
      assert s[|s| - |k| - 1..][0] == s[|s| - |k| - 1];
    }
  }

  function NameAt(i: nat): string {
    match i
    case 0 => "name"
    case 1 => "rootfs"
    case 2 => "hostname"
    case 3 => "workdir"
    case 4 => "command"
    case 5 => "env"
    case 6 => "ports"
    case 7 => "bind_mounts"
    case 8 => "restart"
    case 9 => "cgroup_path"
    case 10 => "memory"
    case _ => "cpu"
  }

  lemma NamesAre()
    ensures NameAt(0) == "name" && NameAt(1) == "rootfs" && NameAt(2) == "hostname" && NameAt(3) == "workdir"
    ensures NameAt(4) == "command" && NameAt(5) == "env" && NameAt(7) == "bind_mounts" && NameAt(9) == "cgroup_path"
    ensures NameAt(10) == "memory" && NameAt(11) == "cpu"
  {
  }

  lemma NamesPlain(i: nat)
    ensures '"' !in NameAt(i) && |NameAt(i)| > 2 && |NameAt(i)| < 12
  {
  }

  lemma {:induction false} NamesDiffer(i: nat, j: nat)
    requires i < j < 12
    ensures NameAt(i) != NameAt(j)
  {
    assert |NameAt(i)| != |NameAt(j)| || NameAt(i)[0] != NameAt(j)[0];
  }

  lemma {:induction false} NothingListed()
    ensures PortTexts([]) == [] && VolumeDict([]) == []
  {
  }

  lemma {:induction false} SampleKeys(env: seq<Entry>)
    ensures |SampleFields(env)| == 12 && forall i :: 0 <= i < 12 ==> SampleFields(env)[i].0 == NameAt(i)
  {
    hide PortTexts, VolumeDict, Decimal;
  }

  lemma {:induction false} SampleValues(env: seq<Entry>)
    ensures var fields := SampleFields(env);
            |fields| == 12 && fields[0].1 == Str("n") && fields[1].1 == Str("/r") && fields[2].1 == Str("n") &&
            fields[3].1 == Str("/") && fields[4].1 == Arr(["c"]) && fields[5].1 == Obj(env) &&
            fields[6].1 == Arr([]) && fields[7].1 == Obj([]) && fields[8].1 == Null &&
            fields[9].1 == Str("/sys/fs/cgroup/axis/n-1") && fields[10].1 == Null && fields[11].1 == Null
  {
    NothingListed();
    hide PortTexts, VolumeDict, Decimal;
    CgroupPath();
  }

  lemma CgroupPath()
    ensures "/sys/fs/cgroup/axis/" + "n-1" == "/sys/fs/cgroup/axis/n-1"
  {
  }

  lemma {:induction false} SampleShape(env: seq<Entry>)
    ensures var fields := SampleFields(env);
            |fields| == 12 && (forall i :: 0 <= i < 12 ==> fields[i].0 == NameAt(i)) && fields[0].1 == Str("n") &&
            fields[1].1 == Str("/r") && fields[2].1 == Str("n") && fields[3].1 == Str("/") &&
            fields[4].1 == Arr(["c"]) && fields[5].1 == Obj(env) && fields[6].1 == Arr([]) && fields[7].1 == Obj([]) &&
            fields[8].1 == Null && fields[9].1 == Str("/sys/fs/cgroup/axis/n-1") && fields[10].1 == Null &&
            fields[11].1 == Null
  {
    hide *;
    SampleKeys(env);
    SampleValues(env);
  }

  /** A short string or a long one without a quote is like no key. */
  lemma {:induction false} SizeNotLike(s: string, k: string)
    requires 2 < |k| < 12 && (|s| < 3 || |s| > 11) && forall i :: 0 <= i < |s| ==> s[i] != '"'
    ensures !KeyLike(s, k)
  {
    NoQuoteNotLike(s, k);
  }

  lemma {:induction false} SampleValueFree(env: seq<Entry>, i: nat, k: string)
    requires i < 12 && 2 < |k| < 12 && (i == 5 ==> FreeValue(Obj(env), k))
    ensures FreeValue(SampleFields(env)[i].1, k)
  {
    hide SampleFields, KeyLike;
    SampleShape(env);
    SizeNotLike("n", k);
    SizeNotLike("/r", k);
    SizeNotLike("/", k);
    SizeNotLike("c", k);
    SizeNotLike("/sys/fs/cgroup/axis/n-1", k);
  }

  /** A key is free before field `f` when no string of the environment printed before it is like it. */
  lemma {:induction false} SampleFree(env: seq<Entry>, f: nat, j: nat)
    requires f <= j < 12 && (f > 5 ==> FreeValue(Obj(env), NameAt(j)))
    ensures |SampleFields(env)| == 12 && SampleFields(env)[j].0 == NameAt(j)
    ensures FreeBefore(SampleFields(env), f, NameAt(j))
  {
    SampleShape(env);
    hide SampleFields, KeyLike, FreeValue, NameAt;
    NamesPlain(j);
    forall i | 0 <= i < f
      ensures !KeyLike(SampleFields(env)[i].0, NameAt(j)) && FreeValue(SampleFields(env)[i].1, NameAt(j))
    {
      NamesPlain(i);
      NamesDiffer(i, j);
      NoQuoteNotLike(NameAt(i), NameAt(j));
      SampleValueFree(env, i, NameAt(j));
    }
  }

  // ----- a configuration that comes back

  const PLAIN_ENV := [Entry("a", "x")]

  lemma {:induction false} PlainFree()
    ensures FreeConfig(Sample(PLAIN_ENV), "/r", "n-1")
  {
    var fields := SampleFields(PLAIN_ENV);
    SampleShape(PLAIN_ENV);
    assert '"' !in "a" && '"' !in "x" && |"a"| == 1 && |"x"| == 1;
    hide RuntimeFields, KeyLike, NameAt, FreeBefore;
    forall f | 0 <= f < 12 ensures FreeBefore(fields, f, fields[f].0) {
      NamesPlain(f);
      NoQuoteNotLike("a", NameAt(f));
      NoQuoteNotLike("x", NameAt(f));
      SampleFree(PLAIN_ENV, f, f);
    }
  }

  lemma {:induction false} KeptMapOne(e: Entry)
    requires AllKept(e.key) && AllKept(e.value)
    ensures KeptMap(MapOf([e]))
  {
    MapOfOne(e);
  }

  lemma {:induction false} PlainKept()
    ensures KeptConfig(Intended(Sample(PLAIN_ENV), "/r", "n-1"))
  {
    hide AllKept, MapOf, KeptMap;
    PlainTexts();
    KeptMapOne(Entry("a", "x"));
    NothingKept();
  }

  lemma {:induction false} PlainTexts()
    ensures AllKept("n") && AllKept("/r") && AllKept("/") && AllKept("c") && AllKept("") && AllKept("a") && AllKept("x")
    ensures AllKept("/sys/fs/cgroup/axis/" + "n-1")
  {
    assert "/sys/fs/cgroup/axis/" + "n-1" == "/sys/fs/cgroup/axis/n-1";
  }

  lemma NothingKept()
    ensures KeptMap(map[])
  {
  }

  /** A configuration that meets the condition of the round trip, and so comes back as it was. */
  lemma {:induction false} PlainComesBack()
    ensures Load(Dumps(SampleFields(PLAIN_ENV))) == Ok(Intended(Sample(PLAIN_ENV), "/r", "n-1"))
  {
    PlainFree();
    PlainKept();
    hide Load, Dumps, RuntimeFields, FreeConfig, Intended, KeptConfig;
    RoundTripFree(Sample(PLAIN_ENV), "/r", "n-1");
  }

  // ----- ENV cpu=4

  const CPU_ENV := [Entry("cpu", "4")]

  lemma CpuEnv()
    ensures CPU_ENV == [Entry("cpu", "4")]
  {
  }

  lemma {:induction false} FourComesBack()
    ensures Reread("4") == "4"
  {
    assert AllKept("4");
    hide Reread, AllKept;
    KeptReread("4");
  }

  lemma NoLimit(env: seq<Entry>)
    ensures Intended(Sample(env), "/r", "n-1").cpu == ""
  {
  }

  /** The lookup of the CPU limit finds the environment. */
  lemma {:induction false} CpuFromEnv()
    ensures StringField(Dumps(SampleFields(CPU_ENV)), "cpu", false) == Ok("4")
  {
    hide *;
    var fields := SampleFields(CPU_ENV);
    CpuEnv();
    NamesAre();
    SampleShape(CPU_ENV);
    FourComesBack();
    KeyNames();
    SampleFree(CPU_ENV, 5, 11);
    NamesPlain(5);
    NamesDiffer(5, 11);
    NoQuoteNotLike(NameAt(5), NameAt(11));
    FreeEntry(fields, 5, CPU_ENV, "cpu");
    DumpsFlat(fields);
    DumpsIsLayout(fields);
    EntryWins(DocPieces(fields), fields, 5, CPU_ENV, 0, false);
  }

  lemma {:induction false} CpuEnvFree(f: nat)
    requires 5 < f < 11
    ensures FreeValue(Obj(CPU_ENV), NameAt(f))
  {
    hide *;
    NamesAre();
    CpuEnv();
    NamesPlain(f);
    NamesDiffer(f, 11);
    NoQuoteNotLike("cpu", NameAt(f));
    SizeNotLike("4", NameAt(f));
    OneEntryFree(Entry("cpu", "4"), NameAt(f));
  }

  lemma {:induction false} OneEntryFree(e: Entry, k: string)
    requires !KeyLike(e.key, k) && !KeyLike(e.value, k)
    ensures FreeValue(Obj([e]), k)
  {
    hide KeyLike;
  }

  /** A container with ENV cpu=4 and no CPU limit loads, with the CPU limit "4". */
  lemma {:induction false} EnvCpuWitness()
    ensures Load(Dumps(SampleFields(CPU_ENV))).Ok? && Load(Dumps(SampleFields(CPU_ENV))).value.cpu == "4"
    ensures Intended(Sample(CPU_ENV), "/r", "n-1").cpu == ""
  {
    hide *;
    var fields := SampleFields(CPU_ENV);
    CpuFromEnv();
    DumpsFlat(fields);
    DumpsIsLayout(fields);
    forall f | 5 < f < 11 ensures FreeValue(Obj(CPU_ENV), NameAt(f)) {
      CpuEnvFree(f);
    }
    SampleLoads(CPU_ENV, DocPieces(fields));
    NoLimit(CPU_ENV);
  }

  // ----- ENV k=cpu and ENV a:=x

  const COLON_ENV := [Entry("k", "cpu"), Entry("a:", "x")]

  lemma {:induction false} LandsAfter(ps: Pieces, before: seq<Token>, lit: Pieces, k: string)
    requires Spells(ps, before, lit) && NoKey(before, k) && lit.Next? && IsKey(lit.token, k)
    ensures LandsAt(ps, k) == FromColon(TokenColon(lit.rest))
    decreases |before|
  {
    hide IsKey, TokenColon, LandsAt;
    LandsStep(ps, k);
    if before != [] {
      assert forall i :: 0 <= i < |before| - 1 ==> before[1..][i] == before[i + 1];
      LandsAfter(ps.rest, before[1..], lit, k);
    }
  }

  lemma {:induction false} EscapePlain(s: string)
    requires forall i :: 0 <= i < |s| ==> 0x20 <= s[i] as int <= 0x7E && s[i] != '"' && s[i] != '\\'
    ensures Escape(s) == s
  {
    if s != "" {
      EscapePlain(s[1..]);
      assert s == [s[0]] + s[1..];
    }
  }

  lemma {:induction false} AfterLastColon(s: string)
    requires |s| == 2 && s[0] != ':' && s[1] == ':'
    ensures HasColon(Quoted(s)) && AfterColon(s) == ""
  {
    hide Position;
    assert Quoted(s).Chars()[2] == ':';
    FirstPosition(s, ':', 1);
  }

  lemma NothingDropped()
    ensures DropSpace("") == "" && !HasColon(Sym(','))
  {
  }

  lemma {:induction false} ColonLiteral()
    ensures Literal("a:") == Quoted("a:") && Literal("cpu") == Quoted("cpu")
    ensures HasColon(Quoted("a:")) && AfterColon("a:") == "" && DropSpace("") == ""
    ensures !HasColon(Sym(',')) && IsKey(Quoted("cpu"), "cpu")
  {
    hide Escape, AfterColon, DropSpace, HasColon, IsKey, IsKeyName;
    EscapePlain("a:");
    AfterLastColon("a:");
    NothingDropped();
    KeyNames();
    KeyLiteral("cpu");
    KeyHasNoColon("cpu");
  }

  /** The two entries, the comma and the literals around it. */
  lemma {:induction false} ColonEntries(ps: Pieces) returns (lit: Pieces)
    requires LayoutOf(ps, SampleFields(COLON_ENV))
    ensures lit.Next? && lit.rest.Next? && lit.rest.rest.Next?
    ensures lit.rest.rest.rest.Next? && lit.rest.rest.rest.rest.Next?
    ensures lit.token == Literal("cpu") && lit.rest.token == Sym(',') && lit.rest.rest.token == Literal("a:")
    ensures lit.rest.rest.rest.token == Sym(':') && lit.rest.rest.rest.rest.token == Literal("x")
    ensures |SampleFields(COLON_ENV)| == 12
    ensures Spells(ps, BeforeEntry(SampleFields(COLON_ENV), 5, COLON_ENV, 0) + [Literal("k"), Sym(':')], lit)
  {
    SampleShape(COLON_ENV);
    hide SampleFields, LayoutOf, Literal, Spells;
    var fields := SampleFields(COLON_ENV);
    var entry := MapEntrySpelled(ps, fields, 5, COLON_ENV, 1);
    var before, head := BeforeEntry(fields, 5, COLON_ENV, 0), [Literal("k"), Sym(':')];
    var tail := [Literal("cpu"), Sym(',')];
    assert EntriesBefore(COLON_ENV, 1) == head + tail && EntriesBefore(COLON_ENV, 0) == [];
    assert BeforeEntry(fields, 5, COLON_ENV, 1) == (before + head) + tail;
    hide BeforeEntry;
    lit := SpellsSplit(ps, before + head, tail, entry);
    SpellsStep(lit, tail, entry);
    SpellsStep(lit.rest, tail[1..], entry);
    SpellsNothing(lit.rest.rest, entry);
  }

  lemma {:induction false} ColonNoKey()
    ensures |SampleFields(COLON_ENV)| == 12
    ensures NoKey(BeforeEntry(SampleFields(COLON_ENV), 5, COLON_ENV, 0) + [Literal("k"), Sym(':')], "cpu")
  {
    hide *;
    NamesAre();
    SampleShape(COLON_ENV);
    var fields := SampleFields(COLON_ENV);
    KeyNames();
    SampleFree(COLON_ENV, 5, 11);
    NamesPlain(5);
    NamesDiffer(5, 11);
    NoQuoteNotLike(NameAt(5), NameAt(11));
    FreeEntry(fields, 5, COLON_ENV, "cpu");
    OneLetterNotKey("k", "cpu");
    SymNoKey(':', "cpu");
    TwoTokens(Literal("k"), Sym(':'), "cpu");
    NoKeyJoin(BeforeEntry(fields, 5, COLON_ENV, 0), [Literal("k"), Sym(':')], "cpu");
  }

  lemma {:induction false} OneLetterNotKey(s: string, k: string)
    requires |s| == 1 && s[0] != '"' && |k| > 1 && IsKeyName(k)
    ensures !IsKey(Literal(s), k)
  {
    hide IsKeyName, Literal, IsKey;
    NoQuoteNotLike(s, k);
    LiteralIsKey(s, k);
  }

  lemma {:induction false} TwoTokens(a: Token, b: Token, k: string)
    requires !IsKey(a, k) && !IsKey(b, k)
    ensures NoKey([a, b], k)
  {
    hide IsKey;
  }

  lemma {:induction false} ColonLands(ps: Pieces) returns (n: Pieces)
    requires LayoutOf(ps, SampleFields(COLON_ENV))
    ensures LandsAt(ps, "cpu") == InLiteral("", n)
    ensures n.Next? && n.token == Sym(':') && n.rest.Next? && n.rest.token.Quoted?
  {
    assert Literal("x").Quoted?;
    ColonLiteral();
    hide *;
    var lit := ColonEntries(ps);
    ColonNoKey();
    LandsAfter(ps, BeforeEntry(SampleFields(COLON_ENV), 5, COLON_ENV, 0) + [Literal("k"), Sym(':')], lit, "cpu");
    LandsStep(lit.rest, "cpu");
    LandsStep(lit.rest.rest, "cpu");
    n := lit.rest.rest.rest;
    FromLiteralColon(lit.rest.rest);
  }

  lemma {:induction false} FromLiteralColon(c: Pieces)
    requires c.Next? && c.token.Quoted?
    ensures FromColon(Some(c)) == InLiteral(DropSpace(AfterColon(c.token.body)), c.rest)
  {
    hide DropSpace, AfterColon;
  }

  /** Between two literals stands the colon of the entry, and the whitespace around it is read with it. */
  lemma {:induction false} ColonCpu(g: string)
    requires AllSpace(g)
    ensures LayoutOf(Regap(DocPieces(SampleFields(COLON_ENV)), g), SampleFields(COLON_ENV))
    ensures StringField(Flat(Regap(DocPieces(SampleFields(COLON_ENV)), g)), "cpu", false) == Ok(g + ":" + g)
  {
    hide SampleFields, DocPieces, LayoutOf, Flat, StringField, IsKeyName, LandsAt, Laid;
    var fields := SampleFields(COLON_ENV);
    var ps := Regap(DocPieces(fields), g);
    DumpsIsLayout(fields);
    RegapLayout(DocPieces(fields), fields, g);
    LayoutLaid(ps, fields);
    KeyNames();
    var n := ColonLands(DocPieces(fields));
    RegapLands(DocPieces(fields), "cpu", g);
    StringLands(ps, "cpu", false);
    ColonBetween(n, g);
    NoNull();
  }

  lemma {:induction false} LayoutLaid(ps: Pieces, fields: Fields)
    requires LayoutOf(ps, fields)
    ensures Laid(ps)
  {
    hide Spaced, Readable, LayoutOf;
    LayoutParts(ps, fields);
  }

  lemma ColonBetween(n: Pieces, g: string)
    requires n.Next? && n.token == Sym(':') && n.rest.Next? && n.rest.token.Quoted?
    ensures Between(Regap(n, g)) == g + ":" + g && NextLiteral(Regap(n, g)).Some?
  {
  }

  /** The fields of the sample up to the command. */
  lemma {:induction false} SampleFirst(env: seq<Entry>, ps: Pieces)
    requires LayoutOf(ps, SampleFields(env))
    ensures var t := Flat(ps);
            StringField(t, "name", true).Ok? && StringField(t, "rootfs", true).Ok? &&
            StringField(t, "hostname", true).Ok? && StringField(t, "workdir", true).Ok? && ArrayField(t, "command").Ok?
  {
    hide *;
    var fields := SampleFields(env);
    SampleShape(env);
    NamesAre();
    KeyNames();
    SampleFound(env, 0);
    SampleFound(env, 1);
    SampleFound(env, 2);
    SampleFound(env, 3);
    SampleFound(env, 4);
    StringReads(ps, fields, 0, "name", Str("n"), true);
    StringReads(ps, fields, 1, "rootfs", Str("/r"), true);
    StringReads(ps, fields, 2, "hostname", Str("n"), true);
    StringReads(ps, fields, 3, "workdir", Str("/"), true);
    ArrayReads(ps, fields, 4, "command", ["c"]);
  }

  /** The fields of the sample from the environment to the memory limit. */
  lemma {:induction false} SampleLast(env: seq<Entry>, ps: Pieces)
    requires LayoutOf(ps, SampleFields(env)) && forall f :: 5 < f < 11 ==> FreeValue(Obj(env), NameAt(f))
    ensures var t := Flat(ps);
            MapField(t, "env", true).Ok? && MapField(t, "bind_mounts", false).Ok? &&
            StringField(t, "cgroup_path", true).Ok? && StringField(t, "memory", false).Ok?
  {
    hide *;
    var fields := SampleFields(env);
    SampleShape(env);
    NamesAre();
    KeyNames();
    SampleFound(env, 5);
    SampleFound(env, 7);
    SampleFound(env, 9);
    SampleFound(env, 10);
    MapReads(ps, fields, 5, "env", env, true);
    MapReads(ps, fields, 7, "bind_mounts", [], false);
    StringReads(ps, fields, 9, "cgroup_path", Str("/sys/fs/cgroup/axis/n-1"), true);
    StringReads(ps, fields, 10, "memory", Null, false);
  }

  /** When the other keys are free, the file loads as soon as its last field does. */
  lemma {:induction false} SampleLoads(env: seq<Entry>, ps: Pieces)
    requires LayoutOf(ps, SampleFields(env)) && StringField(Flat(ps), "cpu", false).Ok?
    requires forall f :: 5 < f < 11 ==> FreeValue(Obj(env), NameAt(f))
    ensures Load(Flat(ps)).Ok? && Load(Flat(ps)).value.cpu == StringField(Flat(ps), "cpu", false).value
  {
    hide LayoutOf, SampleFields, FreeValue, Flat, StringField, ArrayField, MapField, NameAt;
    SampleFirst(env, ps);
    SampleLast(env, ps);
  }

  lemma {:induction false} SampleFound(env: seq<Entry>, f: nat)
    requires f < 11 && f != 6 && f != 8 && (f > 5 ==> FreeValue(Obj(env), NameAt(f)))
    ensures Found(SampleFields(env), f)
  {
    KeyNames();
    assert IsKeyName(NameAt(f));
    hide *;
    SampleFree(env, f, f);
    FreeIsFound(SampleFields(env), f);
  }

  lemma {:induction false} ColonEnvFree(f: nat)
    requires 5 < f < 11
    ensures FreeValue(Obj(COLON_ENV), NameAt(f))
  {
    assert '"' !in "k" && '"' !in "cpu" && '"' !in "a:" && '"' !in "x" && NameAt(11) == "cpu";
    hide KeyLike, NameAt;
    NamesPlain(f);
    NamesDiffer(f, 11);
    NoQuoteNotLike("k", NameAt(f));
    NoQuoteNotLike("cpu", NameAt(f));
    NoQuoteNotLike("a:", NameAt(f));
    NoQuoteNotLike("x", NameAt(f));
  }

  /**
    With ENV k=cpu, ENV a:=x and no CPU line, whitespace decides the CPU limit: the compact document
    gives ":" and the one with a space in every gap gives " : ".
   */
  lemma {:induction false} WhitespaceWitness()
    ensures var fields := SampleFields(COLON_ENV);
            var a, b := Regap(DocPieces(fields), ""), Regap(DocPieces(fields), " ");
            && LayoutOf(a, fields) && LayoutOf(b, fields)
            && Load(Flat(a)).Ok? && Load(Flat(a)).value.cpu == ":"
            && Load(Flat(b)).Ok? && Load(Flat(b)).value.cpu == " : "
  {
    hide SampleFields, DocPieces, LayoutOf, Flat, StringField, Load, Regap, FreeValue, NameAt;
    var fields := SampleFields(COLON_ENV);
    forall f | 5 < f < 11 ensures FreeValue(Obj(COLON_ENV), NameAt(f)) {
      ColonEnvFree(f);
    }
    ColonCpu("");
    ColonCpu(" ");
    SampleLoads(COLON_ENV, Regap(DocPieces(fields), ""));
    SampleLoads(COLON_ENV, Regap(DocPieces(fields), " "));
    assert "" + ":" + "" == ":" && " " + ":" + " " == " : ";
  }
}
