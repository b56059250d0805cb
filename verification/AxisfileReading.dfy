/**
  What the lines of an Axisfile say, told apart from the parser: the text around the instruction and
  its value, what each instruction makes of the value, and which line each field of the parsed
  configuration comes from.
 */
module AxisfileReading {
  import opened Wrappers
  import opened Text
  import opened JsonText
  import opened Config
  import opened Paths
  import opened Axisfile

  // ----- the text of a line

  predicate Blank(s: string) { forall i :: 0 <= i < |s| ==> PySpace(s[i]) }

  predicate Tight(s: string) { s == "" || (!PySpace(s[0]) && !PySpace(s[|s| - 1])) }

  /** `t` is `s` without the white space around it. */
  ghost predicate Stripped(s: string, t: string) {
    Tight(t) && exists l, r :: Around(s, l, t, r)
  }

  predicate Around(s: string, l: string, t: string, r: string) {
    s == l + t + r && Blank(l) && Blank(r)
  }

  lemma {:induction false} StripLeftParts(s: string) returns (l: string)
    ensures s == l + StripLeft(s) && Blank(l)
    ensures StripLeft(s) == "" || !PySpace(StripLeft(s)[0])
    decreases |s|
  {
    if s != "" && PySpace(s[0]) {
      var rest := StripLeftParts(s[1..]);
      l := [s[0]] + rest;
      assert s == [s[0]] + s[1..];
    } else {
      l := "";
    }
  }

  lemma {:induction false} StripRightParts(s: string) returns (r: string)
    ensures s == StripRight(s) + r && Blank(r)
    ensures StripRight(s) == "" || (!PySpace(StripRight(s)[|StripRight(s)| - 1]) && StripRight(s)[0] == s[0])
    decreases |s|
  {
    if s != "" && PySpace(s[|s| - 1]) {
      var n := |s| - 1;
      var rest := StripRightParts(s[..n]);
      r := rest + [s[n]];
      assert s == s[..n] + [s[n]];
    } else {
      r := "";
    }
  }

  lemma {:induction false} StripLeftDrops(l: string, x: string)
    requires Blank(l) && (x == "" || !PySpace(x[0]))
    ensures StripLeft(l + x) == x
    decreases |l|
  {
    if l == "" {
      assert l + x == x;
    } else {
      assert (l + x)[1..] == l[1..] + x && (l + x)[0] == l[0];
      StripLeftDrops(l[1..], x);
    }
  }

  lemma {:induction false} StripRightDrops(x: string, r: string)
    requires Blank(r) && (x == "" || !PySpace(x[|x| - 1]))
    ensures StripRight(x + r) == x
    decreases |r|
  {
    if r == "" {
      assert x + r == x;
    } else {
      var n := |r| - 1;
      assert (x + r)[..|x + r| - 1] == x + r[..n] && (x + r)[|x + r| - 1] == r[n];
      StripRightDrops(x, r[..n]);
    }
  }

  lemma {:induction false} BlankStrips(s: string)
    requires Blank(s)
    ensures StripLeft(s) == ""
    decreases |s|
  {
    if s != "" {
      BlankStrips(s[1..]);
    }
  }

  lemma {:induction false} StripMeans(s: string, l: string, t: string, r: string)
    requires Tight(t) && Around(s, l, t, r)
    ensures Strip(s) == t
  {
    if t == "" {
      BlankStrips(s);
    } else {
      assert s == l + (t + r);
      StripLeftDrops(l, t + r);
      StripRightDrops(t, r);
    }
  }

  /** str.strip takes away the white space at both ends, and nothing else. */
  lemma {:induction false} StripExactly(s: string, t: string)
    ensures Strip(s) == t <==> Stripped(s, t)
  {
    if Stripped(s, t) {
      var l, r :| Around(s, l, t, r);
      StripMeans(s, l, t, r);
    }
    if Strip(s) == t {
      var l := StripLeftParts(s);
      var r := StripRightParts(StripLeft(s));
      assert s == l + t + r;
      assert Around(s, l, t, r);
    }
  }

  /**
    The line is an instruction: its text up to the first space, in upper case, and the stripped text
    after that space, if there is one.
   */
  ghost predicate Reads(host: Host, line: string, word: string, rest: string) {
    exists t, w, tail :: ReadsAs(host, line, word, rest, t, w, tail)
  }

  ghost predicate ReadsAs(
    host: Host, line: string, word: string, rest: string, t: string, w: string, tail: string)
  {
    Stripped(line, t) && t != "" && t[0] != '#' && ' ' !in w && word == host.upper(w) && FirstWord(t, w, tail) &&
    Stripped(tail, rest)
  }

  /** `t` is w alone, or w and more after a space. */
  predicate FirstWord(t: string, w: string, tail: string) {
    (t == w && tail == "") || t == w + " " + tail
  }

  lemma {:induction false} ReadsExactly(host: Host, line: string, word: string, rest: string)
    ensures Reads(host, line, word, rest) <==> !Idle(line) && Word(host, line) == word && Rest(line) == rest
  {
    hide Strip, Stripped;
    var s := Strip(line);
    StripExactly(line, s);
    StripNothing();
    if Reads(host, line, word, rest) {
      var t, w, tail :| ReadsAs(host, line, word, rest, t, w, tail);
      StripExactly(line, t);
      StripExactly(tail, rest);
      FirstSpace(t, w, tail);
    }
    if !Idle(line) && Word(host, line) == word && Rest(line) == rest {
      var p := Position(s, ' ');
      var w := s[..p];
      var tail := if p < |s| then s[p + 1..] else "";
      SplitAtSpace(s);
      StripExactly(tail, rest);
      assert ReadsAs(host, line, word, rest, s, w, tail);
    }
  }

  lemma StripNothing()
    ensures Strip("") == ""
  {
  }

  lemma {:induction false} SplitAtSpace(t: string)
    ensures var p := Position(t, ' ');
            ' ' !in t[..p] && FirstWord(t, t[..p], if p < |t| then t[p + 1..] else "")
  {
    var p := Position(t, ' ');
    if p < |t| {
      assert t == t[..p] + [t[p]] + t[p + 1..];
    } else {
      assert t[..p] == t;
    }
  }

  lemma {:induction false} FirstSpace(t: string, w: string, tail: string)
    requires ' ' !in w && FirstWord(t, w, tail)
    ensures t[..Position(t, ' ')] == w
    ensures Position(t, ' ') < |t| ==> t[Position(t, ' ') + 1..] == tail
    ensures Position(t, ' ') == |t| ==> tail == ""
  {
    hide Position;
    assert forall i :: 0 <= i < |w| ==> t[i] == w[i] && w[i] in w;
    if t == w && tail == "" {
      assert t[..|t|] == t;
    } else {
      assert t[|w|] == ' ';
      assert t[..|w|] == w && t[|w| + 1..] == tail;
    }
  }

  /** Blank lines and comments, and no others, say nothing. */
  lemma {:induction false} IdleExactly(line: string)
    ensures Idle(line) <==> Stripped(line, "") || exists t :: Stripped(line, t) && t != "" && t[0] == '#'
  {
    hide Strip, Stripped;
    StripExactly(line, "");
    StripExactly(line, Strip(line));
    forall t | Stripped(line, t) ensures t == Strip(line) {
      StripExactly(line, t);
    }
  }

  // ----- what an instruction makes of its value

  /** `s` is a, the character c, and b, with no c in a. */
  predicate SplitAt(s: string, c: char, a: string, b: string) { s == a + [c] + b && c !in a }

  lemma {:induction false} SplitPosition(s: string, c: char, a: string, b: string)
    requires SplitAt(s, c, a, b)
    ensures c in s && Position(s, c) == |a| && s[..Position(s, c)] == a && s[Position(s, c) + 1..] == b
  {
    hide Position;
    assert s[|a|] == c;
    assert forall i :: 0 <= i < |a| ==> s[i] == a[i] && a[i] in a;
  }

  lemma {:induction false} PositionSplit(s: string, c: char)
    requires c in s
    ensures Position(s, c) < |s| && SplitAt(s, c, s[..Position(s, c)], s[Position(s, c) + 1..])
  {
    hide Position;
    var p := Position(s, c);
    assert p < |s|;
    assert s == s[..p] + [s[p]] + s[p + 1..];
  }

  /** source:destination, the destination one that the runtime accepts. */
  ghost predicate SaysVolume(host: Host, text: string, v: VolumeSpec) {
    exists a, b :: SplitAt(text, ':', a, b) && VolumeParts(host, Strip(a), Strip(b), v)
  }

  predicate VolumeParts(host: Host, source: string, destination: string, v: VolumeSpec) {
    source != "" && IsSafeContainerPath(destination) && v == VolumeSpec(host.resolve(source), destination)
  }

  /** KEY=VALUE: the key stripped and not empty, the value as it stands. */
  ghost predicate SaysEnv(text: string, key: string, value: string) {
    exists a :: SplitAt(text, '=', a, value) && key == Strip(a) && key != ""
  }

  predicate SaysPort(host: Host, text: string, n: int) { host.toInt(text) == Some(n) && 1 <= n <= 65535 }

  ghost predicate SaysPortPair(host: Host, text: string, m: PortMapping) {
    (':' !in text && SaysPort(host, text, m.host) && m.container == m.host) ||
    exists a, b :: SplitAt(text, ':', a, b) && ':' !in b && SaysPort(host, a, m.host) && SaysPort(host, b, m.container)
  }

  /** A port, or host:container, and no protocol or tcp after the last slash. */
  ghost predicate SaysMapping(host: Host, text: string, m: PortMapping) {
    ('/' !in text && SaysPortPair(host, text, m)) ||
    exists base, protocol ::
      text == base + "/" + protocol && '/' !in protocol && host.lower(protocol) == "tcp" && SaysPortPair(host, base, m)
  }

  /** The instruction with this text makes this setting. */
  ghost predicate Says(host: Host, word: string, rest: string, s: Setting) {
    match s
    case From(v) => word == "FROM" && v == rest != ""
    case NameIs(v) => word == "NAME" && v == rest != ""
    case Hostname(v) => word == "HOSTNAME" && v == rest != ""
    case Workdir(v) => word == "WORKDIR" && v == rest != ""
    case Memory(v) => word == "MEMORY" && v == rest != ""
    case Cpu(v) => word == "CPU" && v == rest != ""
    case Copy(v) =>
      word == "COPY" && exists a :: host.split(rest) == Some([a, v.destination]) && v.source == host.resolve(a)
    case Volume(v) => word == "VOLUME" && SaysVolume(host, rest, v)
    case Env(key, value) => word == "ENV" && SaysEnv(rest, key, value)
    case Expose(n) => word == "EXPOSE" && SaysPort(host, rest, n)
    case Publish(m) => word == "PORT" && rest != "" && SaysMapping(host, Strip(rest), m)
    case Restart(v) => word == "RESTART" && rest != "" && host.lower(Strip(rest)) == v == "always"
    case Cmd(command) => word == "CMD" && rest != "" && host.split(rest) == Some(command)
  }

  lemma {:induction false} VolumeSaid(host: Host, text: string, v: VolumeSpec)
    ensures ParseVolume(host, text) == Ok(v) <==> SaysVolume(host, text, v)
  {
    hide Strip, IsSafeContainerPath, Position;
    VolumeAccepted(host, text);
    if ':' in text {
      PositionSplit(text, ':');
    }
    if SaysVolume(host, text, v) {
      var a, b :| SplitAt(text, ':', a, b) && VolumeParts(host, Strip(a), Strip(b), v);
      SplitPosition(text, ':', a, b);
    }
  }

  lemma {:induction false} EnvSaid(text: string, key: string, value: string)
    ensures ParseEnv(text) == Ok((key, value)) <==> SaysEnv(text, key, value)
  {
    hide Strip, Position;
    if '=' in text {
      PositionSplit(text, '=');
    }
    if SaysEnv(text, key, value) {
      var a :| SplitAt(text, '=', a, value) && key == Strip(a) && key != "";
      SplitPosition(text, '=', a, value);
    }
  }

  lemma {:induction false} PortSaid(host: Host, text: string, n: nat)
    ensures ParsePort(host, text) == Ok(n) <==> SaysPort(host, text, n)
  {
  }

  lemma {:induction false} PortPairSaid(host: Host, text: string, m: PortMapping)
    ensures ParsePortPair(host, text) == Some(m) <==> SaysPortPair(host, text, m)
  {
    hide Position, ParsePort, SaysPort;
    if ':' in text {
      PositionSplit(text, ':');
      var a, b := text[..Position(text, ':')], text[Position(text, ':') + 1..];
      PortSaid(host, a, m.host);
      PortSaid(host, b, m.container);
      forall c, d | SplitAt(text, ':', c, d) ensures c == a && d == b {
        SplitPosition(text, ':', c, d);
      }
    } else {
      PortSaid(host, text, m.host);
      forall c, d ensures !SplitAt(text, ':', c, d) {
        if SplitAt(text, ':', c, d) {
          SplitPosition(text, ':', c, d);
        }
      }
    }
  }

  lemma {:induction false} LastSplit(s: string, c: char, a: string, b: string)
    requires s == a + [c] + b && c !in b
    ensures c in s && LastPosition(s, c) == |a| && s[..|a|] == a && s[|a| + 1..] == b
  {
    hide LastPosition;
    assert s[|a|] == c;
    assert forall i :: 0 <= i < |b| ==> s[|a| + 1 + i] == b[i] && b[i] in b;
    assert forall i :: |a| < i < |s| ==> s[i] == b[i - |a| - 1];
  }

  lemma {:induction false} MappingSaid(host: Host, value: string, m: PortMapping)
    ensures ParsePortMapping(host, value) == Some(m) <==> SaysMapping(host, Strip(value), m)
  {
    hide Strip, LastPosition, ParsePortPair, SaysPortPair;
    var raw := Strip(value);
    var p := LastPosition(raw, '/');
    PortPairSaid(host, raw, m);
    if p >= 0 {
      assert raw == raw[..p] + "/" + raw[p + 1..];
      assert '/' !in raw[p + 1..];
      PortPairSaid(host, raw[..p], m);
    }
    forall base, protocol | raw == base + "/" + protocol && '/' !in protocol
      ensures p == |base| && raw[..p] == base && raw[p + 1..] == protocol
    {
      LastSplit(raw, '/', base, protocol);
    }
  }

  /** A setting made of more than the text as it stands. */
  predicate Composite(s: Setting) { s.Volume? || s.Env? || s.Expose? || s.Publish? || s.Copy? }

  lemma {:induction false} CompositeExactly(host: Host, word: string, rest: string, s: Setting)
    requires Composite(s)
    ensures Interpret(host, word, rest) == Ok(s) <==> Says(host, word, rest, s)
  {
    hide Strip, ParseVolume, ParseEnv, ParsePort, ParsePortMapping, SaysVolume, SaysEnv, SaysPort, SaysMapping;
    match s
    case Volume(v) => VolumeSaid(host, rest, v); NoVolume(host);
    case Env(key, value) => EnvSaid(rest, key, value);
    case Expose(n) => PortSaid(host, rest, n);
    case Publish(m) => MappingSaid(host, rest, m);
    case Copy(v) => CopySaid(host, rest, v);
  }

  lemma {:induction false} SimpleExactly(host: Host, word: string, rest: string, s: Setting)
    requires !Composite(s)
    ensures Interpret(host, word, rest) == Ok(s) <==> Says(host, word, rest, s)
  {
    hide Strip, ParseVolume, ParseEnv, ParsePort, ParsePortMapping;
  }

  /** The parser takes from an instruction exactly what it says. */
  lemma {:induction false} InterpretedExactly(host: Host, word: string, rest: string, s: Setting)
    ensures Interpret(host, word, rest) == Ok(s) <==> Says(host, word, rest, s)
  {
    hide Interpret, Says;
    if Composite(s) {
      CompositeExactly(host, word, rest, s);
    } else {
      SimpleExactly(host, word, rest, s);
    }
  }

  lemma NoVolume(host: Host)
    ensures ParseVolume(host, "").Err?
  {
  }

  lemma {:induction false} CopySaid(host: Host, rest: string, v: CopySpec)
    ensures (exists a :: host.split(rest) == Some([a, v.destination]) && v.source == host.resolve(a)) <==>
            (host.split(rest).Some? && |host.split(rest).value| == 2 &&
             v == CopySpec(host.resolve(host.split(rest).value[0]), host.split(rest).value[1]))
  {
    if host.split(rest).Some? && |host.split(rest).value| == 2 {
      var parts := host.split(rest).value;
      assert parts == [parts[0], parts[1]];
    }
  }

  const INSTRUCTIONS: set<string> := {
    "FROM", "NAME", "HOSTNAME", "WORKDIR", "COPY", "VOLUME", "ENV", "EXPOSE", "PORT", "MEMORY", "CPU", "RESTART", "CMD"}

  /** Why an instruction is refused. */
  ghost predicate Mistaken(host: Host, word: string, rest: string, p: Problem) {
    match p
    case Unsupported => word !in INSTRUCTIONS
    case NoValue => word in INSTRUCTIONS - {"COPY", "ENV", "EXPOSE"} && rest == ""
    case BadSplit => (word == "COPY" || (word == "CMD" && rest != "")) && host.split(rest) == None
    case BadCopy => word == "COPY" && host.split(rest).Some? && |host.split(rest).value| != 2
    case BadVolume => word == "VOLUME" && rest != "" && forall v :: !SaysVolume(host, rest, v)
    case BadEnv => word == "ENV" && forall key, value :: !SaysEnv(rest, key, value)
    case BadPort => word == "EXPOSE" && host.toInt(rest) == None
    case PortRange => word == "EXPOSE" && host.toInt(rest).Some? && !(1 <= host.toInt(rest).value <= 65535)
    case BadMapping => word == "PORT" && rest != "" && forall m :: !SaysMapping(host, Strip(rest), m)
    case BadRestart => word == "RESTART" && rest != "" && host.lower(Strip(rest)) != "always"
  }

  lemma {:induction false} NothingSaid(host: Host, text: string)
    ensures ParseVolume(host, text) == Err(BadVolume) <==> forall v :: !SaysVolume(host, text, v)
    ensures ParseEnv(text) == Err(BadEnv) <==> forall key, value :: !SaysEnv(text, key, value)
    ensures ParsePortMapping(host, text) == None <==> forall m :: !SaysMapping(host, Strip(text), m)
  {
    var volume, entry, mapping := ParseVolume(host, text), ParseEnv(text), ParsePortMapping(host, text);
    OneMistake(host, text);
    hide ParseVolume, ParseEnv, ParsePortMapping, SaysVolume, SaysEnv, SaysMapping, Strip;
    forall v ensures SaysVolume(host, text, v) <==> volume == Ok(v) { VolumeSaid(host, text, v); }
    forall key, value ensures SaysEnv(text, key, value) <==> entry == Ok((key, value)) { EnvSaid(text, key, value); }
    forall m ensures SaysMapping(host, Strip(text), m) <==> mapping == Some(m) { MappingSaid(host, text, m); }
    if volume.Ok? {
      assert SaysVolume(host, text, volume.value);
    }
    if entry.Ok? {
      assert SaysEnv(text, entry.value.0, entry.value.1);
    }
    if mapping.Some? {
      assert SaysMapping(host, Strip(text), mapping.value);
    }
  }

  lemma {:induction false} OneMistake(host: Host, text: string)
    ensures ParseVolume(host, text).Ok? || ParseVolume(host, text) == Err(BadVolume)
    ensures ParseEnv(text).Ok? || ParseEnv(text) == Err(BadEnv)
  {
    hide Strip, Position;
  }

  lemma {:induction false} MistakenExactly(host: Host, word: string, rest: string, p: Problem)
    ensures Interpret(host, word, rest) == Err(p) <==> Mistaken(host, word, rest, p)
  {
    NothingSaid(host, rest);
    OneMistake(host, rest);
    hide Strip, ParseVolume, ParseEnv, ParsePortMapping, SaysVolume, SaysEnv, SaysMapping;
  }

  // ----- which line a field comes from

  /** The instruction that makes a setting. */
  function WordOf(s: Setting): string {
    match s
    case From(_) => "FROM"
    case NameIs(_) => "NAME"
    case Hostname(_) => "HOSTNAME"
    case Workdir(_) => "WORKDIR"
    case Copy(_) => "COPY"
    case Volume(_) => "VOLUME"
    case Env(_, _) => "ENV"
    case Expose(_) => "EXPOSE"
    case Publish(_) => "PORT"
    case Memory(_) => "MEMORY"
    case Cpu(_) => "CPU"
    case Restart(_) => "RESTART"
    case Cmd(_) => "CMD"
  }

  lemma {:induction false} SaysWord(host: Host, word: string, rest: string, s: Setting)
    requires Says(host, word, rest, s)
    ensures word == WordOf(s)
  {
    hide SaysVolume, SaysEnv, SaysPort, SaysMapping, Strip;
  }

  /** The line is this instruction. */
  predicate HasWord(host: Host, line: string, word: string) { !Idle(line) && Word(host, line) == word }

  lemma {:induction false} HasWordReads(host: Host, line: string, word: string)
    ensures HasWord(host, line, word) <==> exists rest :: Reads(host, line, word, rest)
    ensures forall rest :: Reads(host, line, word, rest) ==> rest == Rest(line)
  {
    hide Strip, Reads, Idle, Word, Rest;
    forall rest ensures Reads(host, line, word, rest) <==> HasWord(host, line, word) && Rest(line) == rest {
      ReadsExactly(host, line, word, rest);
    }
    assert HasWord(host, line, word) ==> Reads(host, line, word, Rest(line));
  }

  /** Accepted: it says nothing, or it is an instruction that makes this setting. */
  lemma {:induction false} LineSays(host: Host, line: string, s: Setting)
    ensures LineSetting(host, line) == Ok(Some(s)) <==>
            !Idle(line) && Says(host, Word(host, line), Rest(line), s)
    ensures LineSetting(host, line) == Ok(Some(s)) ==> HasWord(host, line, WordOf(s))
    ensures LineSetting(host, line) == Ok(None) <==> Idle(line)
  {
    hide Interpret, Says, Idle, Word, Rest, WordOf;
    InterpretedExactly(host, Word(host, line), Rest(line), s);
    if !Idle(line) && Says(host, Word(host, line), Rest(line), s) {
      SaysWord(host, Word(host, line), Rest(line), s);
    }
  }

  /** No line is this instruction. */
  predicate Silent(host: Host, lines: seq<string>, word: string) {
    forall i :: 0 <= i < |lines| ==> !HasWord(host, lines[i], word)
  }

  /** Line i is the last with this instruction. */
  predicate LastLine(host: Host, lines: seq<string>, word: string, i: nat) {
    i < |lines| && HasWord(host, lines[i], word) && forall j :: i < j < |lines| ==> !HasWord(host, lines[j], word)
  }

  /** `pick` takes the settings of one instruction. */
  ghost predicate PicksWord<T(!new)>(pick: Setting -> Option<T>, word: string) {
    forall s :: pick(s).Some? <==> WordOf(s) == word
  }

  /** Line i makes the setting that is picked. */
  ghost predicate Picked<T>(host: Host, line: string, pick: Setting -> Option<T>, v: T) {
    exists s :: LineSetting(host, line) == Ok(Some(s)) && pick(s) == Some(v)
  }

  lemma {:induction false} LastComesFrom<T(!new)>(
    host: Host, lines: seq<string>, ss: seq<Setting>, pick: Setting -> Option<T>, word: string)
    requires SettingsOf(host, lines, 0) == Ok(ss) && PicksWord(pick, word)
    ensures match Last(ss, pick)
            case None => Silent(host, lines, word)
            case Some(v) => exists i: nat :: LastLine(host, lines, word, i) && Picked(host, lines[i], pick, v)
    decreases |lines|
  {
    hide LineSetting, Last, HasWord, WordOf, PicksWord;
    if lines == [] {
      NoSettings(pick);
    } else {
      var n := |lines| - 1;
      var before := SettingsOf(host, lines[..n], 0).value;
      LastComesFrom(host, lines[..n], before, pick, word);
      var made := LineSetting(host, lines[n]).value;
      LineMade(host, lines[n], made, word);
      if made.Some? {
        AppendLast(before, made.value, pick);
        PickedWord(pick, word, made.value);
      }
      if made.Some? && WordOf(made.value) == word {
        assert LastLine(host, lines, word, n);
      } else if Last(before, pick).Some? {
        var i: nat :|
          LastLine(host, lines[..n], word, i) && Picked(host, lines[..n][i], pick, Last(before, pick).value);
        assert LastLine(host, lines, word, i);
      }
    }
  }

  lemma NoSettings<T>(pick: Setting -> Option<T>)
    ensures Last([], pick).None? && All([], pick) == []
  {
  }

  lemma {:induction false} LineMade(host: Host, line: string, made: Option<Setting>, word: string)
    requires LineSetting(host, line) == Ok(made)
    ensures HasWord(host, line, word) <==> made.Some? && WordOf(made.value) == word
  {
    hide LineSetting, WordOf, Idle, Word;
    if made.Some? {
      LineSays(host, line, made.value);
    } else {
      IdleMade(host, line);
    }
  }

  lemma {:induction false} IdleMade(host: Host, line: string)
    requires LineSetting(host, line) == Ok(None)
    ensures Idle(line)
  {
    hide Interpret, Idle, Word, Rest;
  }

  lemma PickedWord<T(!new)>(pick: Setting -> Option<T>, word: string, s: Setting)
    requires PicksWord(pick, word)
    ensures pick(s).Some? <==> WordOf(s) == word
  {
  }

  /** The number of lines with this instruction. */
  function Times(host: Host, lines: seq<string>, word: string): nat {
    if lines == [] then 0
    else Times(host, lines[..|lines| - 1], word) + if HasWord(host, lines[|lines| - 1], word) then 1 else 0
  }

  /** Each line with this instruction gives the element at its place among such lines, and there are no others. */
  ghost predicate Elementwise<T>(
    host: Host, lines: seq<string>, word: string, values: seq<T>, pick: Setting -> Option<T>)
  {
    |values| == Times(host, lines, word) &&
    forall i :: 0 <= i < |lines| && HasWord(host, lines[i], word) ==> InPlace(host, lines, word, values, pick, i)
  }

  ghost predicate InPlace<T>(
    host: Host, lines: seq<string>, word: string, values: seq<T>, pick: Setting -> Option<T>, i: nat)
    requires i < |lines|
  {
    Times(host, lines[..i], word) < |values| && Picked(host, lines[i], pick, values[Times(host, lines[..i], word)])
  }

  lemma {:induction false} AllComeFrom<T(!new)>(
    host: Host, lines: seq<string>, ss: seq<Setting>, pick: Setting -> Option<T>, word: string)
    requires SettingsOf(host, lines, 0) == Ok(ss) && PicksWord(pick, word)
    ensures Elementwise(host, lines, word, All(ss, pick), pick)
    decreases |lines|
  {
    hide LineSetting, All, HasWord, WordOf, PicksWord;
    if lines == [] {
      NoSettings(pick);
    } else {
      var n := |lines| - 1;
      var before := SettingsOf(host, lines[..n], 0).value;
      AllComeFrom(host, lines[..n], before, pick, word);
      var made := LineSetting(host, lines[n]).value;
      LineMade(host, lines[n], made, word);
      if made.Some? {
        AppendAll(before, made.value, pick);
        PickedWord(pick, word, made.value);
      }
      forall i | 0 <= i < |lines| && HasWord(host, lines[i], word)
        ensures InPlace(host, lines, word, All(ss, pick), pick, i)
      {
        if i < n {
          assert lines[..n][i] == lines[i] && lines[..n][..i] == lines[..i];
          assert InPlace(host, lines[..n], word, All(before, pick), pick, i);
        }
      }
    }
  }

  /** The line is an ENV that gives this key this value. */
  ghost predicate GivesKey(host: Host, line: string, key: string, value: string) {
    HasWord(host, line, "ENV") && SaysEnv(Rest(line), key, value)
  }

  /** Line i is the last to give the key a value, and gives this one. */
  ghost predicate LastToGive(host: Host, lines: seq<string>, key: string, i: nat, value: string) {
    i < |lines| && GivesKey(host, lines[i], key, value) &&
    forall j, v :: i < j < |lines| ==> !GivesKey(host, lines[j], key, v)
  }

  ghost predicate KeyFrom(host: Host, lines: seq<string>, key: string, value: Option<string>) {
    match value
    case None => forall j, v :: 0 <= j < |lines| ==> !GivesKey(host, lines[j], key, v)
    case Some(v) => exists i: nat :: LastToGive(host, lines, key, i, v)
  }

  lemma {:induction false} EnvComesFrom(host: Host, lines: seq<string>, ss: seq<Setting>, key: string)
    requires SettingsOf(host, lines, 0) == Ok(ss)
    ensures KeyFrom(host, lines, key, Last(ss, PickValue(key)))
    decreases |lines|
  {
    hide LineSetting, Last, GivesKey, PickValue;
    if lines == [] {
      NoSettings(PickValue(key));
    } else {
      var n := |lines| - 1;
      var before := SettingsOf(host, lines[..n], 0).value;
      EnvComesFrom(host, lines[..n], before, key);
      var made := LineSetting(host, lines[n]).value;
      LineGives(host, lines[n], made, key);
      if made.Some? {
        AppendLast(before, made.value, PickValue(key));
      }
      if made.Some? && PickValue(key)(made.value).Some? {
        assert LastToGive(host, lines, key, n, PickValue(key)(made.value).value);
      } else if Last(before, PickValue(key)).Some? {
        var v := Last(before, PickValue(key)).value;
        var i: nat :| LastToGive(host, lines[..n], key, i, v);
        assert LastToGive(host, lines, key, i, v);
      }
    }
  }

  lemma {:induction false} LineGives(host: Host, line: string, made: Option<Setting>, key: string)
    requires LineSetting(host, line) == Ok(made)
    ensures forall v :: GivesKey(host, line, key, v) <==> made.Some? && PickValue(key)(made.value) == Some(v)
  {
    hide LineSetting, Idle, Word, Rest, SaysEnv;
    LineMade(host, line, made, "ENV");
    if made.Some? && made.value.Env? {
      LineSays(host, line, made.value);
      forall v ensures SaysEnv(Rest(line), key, v) <==> made.value == Env(key, v) {
        EnvSaid(Rest(line), key, v);
        EnvSaid(Rest(line), made.value.key, made.value.value);
      }
    }
  }

  // ----- the parsed configuration, field by field

  const MAKE_IMAGE: string -> Setting := (v: string) => From(v)
  const MAKE_NAME: string -> Setting := (v: string) => NameIs(v)
  const MAKE_HOSTNAME: string -> Setting := (v: string) => Hostname(v)
  const MAKE_WORKDIR: string -> Setting := (v: string) => Workdir(v)
  const MAKE_MEMORY: string -> Setting := (v: string) => Memory(v)
  const MAKE_CPU: string -> Setting := (v: string) => Cpu(v)
  const MAKE_RESTART: string -> Setting := (v: string) => Restart(v)
  const MAKE_COMMAND: seq<string> -> Setting := (v: seq<string>) => Cmd(v)
  const MAKE_COPY: CopySpec -> Setting := (v: CopySpec) => Copy(v)
  const MAKE_VOLUME: VolumeSpec -> Setting := (v: VolumeSpec) => Volume(v)
  const MAKE_EXPOSE: nat -> Setting := (v: nat) => Expose(v)
  const MAKE_PORT: PortMapping -> Setting := (v: PortMapping) => Publish(v)

  /** The field holds what the last line with its instruction says, or nothing when there is none. */
  ghost predicate FieldFrom<T(!new)>(
    host: Host, lines: seq<string>, word: string, value: Option<T>, make: T -> Setting)
  {
    match value
    case None => Silent(host, lines, word)
    case Some(v) => exists i: nat :: LastLine(host, lines, word, i) && Says(host, word, Rest(lines[i]), make(v))
  }

  /** The list holds what each line with its instruction says, in the order of the lines. */
  ghost predicate ListFrom<T(!new)>(
    host: Host, lines: seq<string>, word: string, values: seq<T>, make: T -> Setting)
  {
    |values| == Times(host, lines, word) &&
    forall i :: 0 <= i < |lines| && HasWord(host, lines[i], word) ==> ElementSays(host, lines, word, values, make, i)
  }

  ghost predicate ElementSays<T(!new)>(
    host: Host, lines: seq<string>, word: string, values: seq<T>, make: T -> Setting, i: nat)
    requires i < |lines|
  {
    Times(host, lines[..i], word) < |values| &&
    Says(host, word, Rest(lines[i]), make(values[Times(host, lines[..i], word)]))
  }

  /** `pick` takes from a setting what `make` puts there. */
  ghost predicate Inverse<T(!new)>(pick: Setting -> Option<T>, make: T -> Setting, word: string) {
    PicksWord(pick, word) && forall s, v :: pick(s) == Some(v) ==> s == make(v)
  }

  lemma {:induction false} PickedSays<T(!new)>(
    host: Host, line: string, pick: Setting -> Option<T>, make: T -> Setting, word: string, v: T)
    requires Inverse(pick, make, word) && Picked(host, line, pick, v)
    ensures Says(host, word, Rest(line), make(v))
  {
    hide LineSetting, Says, HasWord, WordOf, Idle, Rest;
    var s :| LineSetting(host, line) == Ok(Some(s)) && pick(s) == Some(v);
    LineSays(host, line, s);
    SaysWord(host, Word(host, line), Rest(line), s);
    assert pick(s).Some?;
  }

  lemma {:induction false} FieldComesFrom<T(!new)>(
    host: Host, lines: seq<string>, ss: seq<Setting>, pick: Setting -> Option<T>, make: T -> Setting, word: string)
    requires SettingsOf(host, lines, 0) == Ok(ss) && Inverse(pick, make, word)
    ensures FieldFrom(host, lines, word, Last(ss, pick), make)
  {
    hide SettingsOf, Last, HasWord, Says, Rest;
    LastComesFrom(host, lines, ss, pick, word);
    if Last(ss, pick).Some? {
      var v := Last(ss, pick).value;
      var i: nat :| LastLine(host, lines, word, i) && Picked(host, lines[i], pick, v);
      PickedSays(host, lines[i], pick, make, word, v);
    }
  }

  lemma {:induction false} ListComesFrom<T(!new)>(
    host: Host, lines: seq<string>, ss: seq<Setting>, pick: Setting -> Option<T>, make: T -> Setting, word: string)
    requires SettingsOf(host, lines, 0) == Ok(ss) && Inverse(pick, make, word)
    ensures ListFrom(host, lines, word, All(ss, pick), make)
  {
    hide SettingsOf, All, HasWord, Says, Rest, Times;
    AllComeFrom(host, lines, ss, pick, word);
    var values := All(ss, pick);
    forall i | 0 <= i < |lines| && HasWord(host, lines[i], word)
      ensures ElementSays(host, lines, word, values, make, i)
    {
      assert InPlace(host, lines, word, values, pick, i);
      PickedSays(host, lines[i], pick, make, word, values[Times(host, lines[..i], word)]);
    }
  }

  /** The length of an instruction and its first two letters tell it from the others. */
  lemma {:induction false} WordMarks(s: Setting)
    ensures var w := WordOf(s);
            |w| >= 2 &&
            match s
            case From(_) => |w| == 4 && w[0] == 'F' && w[1] == 'R'
            case NameIs(_) => |w| == 4 && w[0] == 'N' && w[1] == 'A'
            case Hostname(_) => |w| == 8 && w[0] == 'H' && w[1] == 'O'
            case Workdir(_) => |w| == 7 && w[0] == 'W' && w[1] == 'O'
            case Copy(_) => |w| == 4 && w[0] == 'C' && w[1] == 'O'
            case Volume(_) => |w| == 6 && w[0] == 'V' && w[1] == 'O'
            case Env(_, _) => |w| == 3 && w[0] == 'E' && w[1] == 'N'
            case Expose(_) => |w| == 6 && w[0] == 'E' && w[1] == 'X'
            case Publish(_) => |w| == 4 && w[0] == 'P' && w[1] == 'O'
            case Memory(_) => |w| == 6 && w[0] == 'M' && w[1] == 'E'
            case Cpu(_) => |w| == 3 && w[0] == 'C' && w[1] == 'P'
            case Restart(_) => |w| == 7 && w[0] == 'R' && w[1] == 'E'
            case Cmd(_) => |w| == 3 && w[0] == 'C' && w[1] == 'M'
  {
  }

  lemma {:induction false} WordsDiffer(s: Setting, t: Setting)
    ensures WordOf(s) == WordOf(t) <==> SameInstruction(s, t)
  {
    WordMarks(s);
    WordMarks(t);
    if SameInstruction(s, t) {
    } else {
      hide WordOf;
    }
  }

  lemma {:induction false} InverseIf<T(!new)>(pick: Setting -> Option<T>, make: T -> Setting, sample: Setting)
    requires forall s :: pick(s).Some? <==> SameInstruction(s, sample)
    requires forall s, v :: pick(s) == Some(v) ==> s == make(v)
    ensures Inverse(pick, make, WordOf(sample))
  {
    hide WordOf, SameInstruction;
    forall s ensures pick(s).Some? <==> WordOf(s) == WordOf(sample) {
      WordsDiffer(s, sample);
    }
  }

  lemma {:induction false} NameInverses()
    ensures Inverse(PICK_IMAGE, MAKE_IMAGE, "FROM")
    ensures Inverse(PICK_NAME, MAKE_NAME, "NAME")
    ensures Inverse(PICK_HOSTNAME, MAKE_HOSTNAME, "HOSTNAME")
    ensures Inverse(PICK_WORKDIR, MAKE_WORKDIR, "WORKDIR")
  {
    hide Inverse;
    InverseIf(PICK_IMAGE, MAKE_IMAGE, From(""));
    InverseIf(PICK_NAME, MAKE_NAME, NameIs(""));
    InverseIf(PICK_HOSTNAME, MAKE_HOSTNAME, Hostname(""));
    InverseIf(PICK_WORKDIR, MAKE_WORKDIR, Workdir(""));
  }

  lemma {:induction false} LimitInverses()
    ensures Inverse(PICK_MEMORY, MAKE_MEMORY, "MEMORY")
    ensures Inverse(PICK_CPU, MAKE_CPU, "CPU")
    ensures Inverse(PICK_RESTART, MAKE_RESTART, "RESTART")
    ensures Inverse(PICK_COMMAND, MAKE_COMMAND, "CMD")
  {
    hide Inverse;
    InverseIf(PICK_MEMORY, MAKE_MEMORY, Memory(""));
    InverseIf(PICK_CPU, MAKE_CPU, Cpu(""));
    InverseIf(PICK_RESTART, MAKE_RESTART, Restart(""));
    InverseIf(PICK_COMMAND, MAKE_COMMAND, Cmd([]));
  }

  lemma {:induction false} ListInverses()
    ensures Inverse(PICK_COPY, MAKE_COPY, "COPY")
    ensures Inverse(PICK_VOLUME, MAKE_VOLUME, "VOLUME")
    ensures Inverse(PICK_EXPOSE, MAKE_EXPOSE, "EXPOSE")
    ensures Inverse(PICK_PORT, MAKE_PORT, "PORT")
  {
    hide Inverse;
    InverseIf(PICK_COPY, MAKE_COPY, Copy(CopySpec("", "")));
    InverseIf(PICK_VOLUME, MAKE_VOLUME, Volume(VolumeSpec("", "")));
    InverseIf(PICK_EXPOSE, MAKE_EXPOSE, Expose(0));
    InverseIf(PICK_PORT, MAKE_PORT, Publish(PortMapping(0, 0)));
  }

  /** The configuration that these lines describe, each field told by the lines with its instruction. */
  ghost predicate Describes(host: Host, lines: seq<string>, override: Option<seq<string>>, c: AxisConfig) {
    DescribesNames(host, lines, c) && DescribesLimits(host, lines, c) && DescribesLists(host, lines, c) &&
    DescribesEnv(host, lines, c) && DescribesCommand(host, lines, override, c)
  }

  ghost predicate DescribesNames(host: Host, lines: seq<string>, c: AxisConfig) {
    && FieldFrom(host, lines, "FROM", Some(c.image), MAKE_IMAGE)
    && (FieldFrom(host, lines, "NAME", Some(c.name), MAKE_NAME) ||
        (Silent(host, lines, "NAME") && c.name == "axis-container"))
    && FieldFrom(host, lines, "HOSTNAME", c.hostname, MAKE_HOSTNAME)
    && (FieldFrom(host, lines, "WORKDIR", Some(c.workdir), MAKE_WORKDIR) ||
        (Silent(host, lines, "WORKDIR") && c.workdir == "/"))
  }

  ghost predicate DescribesLimits(host: Host, lines: seq<string>, c: AxisConfig) {
    && FieldFrom(host, lines, "MEMORY", c.memory, MAKE_MEMORY)
    && FieldFrom(host, lines, "CPU", c.cpu, MAKE_CPU)
    && FieldFrom(host, lines, "RESTART", c.restart, MAKE_RESTART)
  }

  ghost predicate DescribesLists(host: Host, lines: seq<string>, c: AxisConfig) {
    && ListFrom(host, lines, "COPY", c.copies, MAKE_COPY)
    && ListFrom(host, lines, "VOLUME", c.volumes, MAKE_VOLUME)
    && ListFrom(host, lines, "EXPOSE", c.exposedPorts, MAKE_EXPOSE)
    && ListFrom(host, lines, "PORT", c.ports, MAKE_PORT)
  }

  /** A dict with, for each key, the value of the last ENV line that gives it one. */
  ghost predicate DescribesEnv(host: Host, lines: seq<string>, c: AxisConfig) {
    DistinctKeys(c.env) &&
    forall key :: KeyFrom(host, lines, key, if key in MapOf(c.env) then Some(MapOf(c.env)[key]) else None)
  }

  ghost predicate DescribesCommand(
    host: Host, lines: seq<string>, override: Option<seq<string>>, c: AxisConfig)
  {
    c.command != [] &&
    match override
    case Some(command) => c.command == command
    case None => FieldFrom(host, lines, "CMD", Some(c.command), MAKE_COMMAND)
  }

  lemma {:induction false} DeclaredFields(ss: seq<Setting>, override: Option<seq<string>>, c: AxisConfig)
    requires Declared(ss, override) == Ok(c)
    ensures Last(ss, PICK_IMAGE) == Some(c.image) && c.name == OrElse(Last(ss, PICK_NAME), "axis-container")
    ensures c.hostname == Last(ss, PICK_HOSTNAME) && c.workdir == OrElse(Last(ss, PICK_WORKDIR), "/")
    ensures c.memory == Last(ss, PICK_MEMORY) && c.cpu == Last(ss, PICK_CPU) && c.restart == Last(ss, PICK_RESTART)
    ensures c.copies == All(ss, PICK_COPY) && c.volumes == All(ss, PICK_VOLUME)
    ensures c.exposedPorts == All(ss, PICK_EXPOSE) && c.ports == All(ss, PICK_PORT)
    ensures c.env == Stored(All(ss, PICK_ENV)) && c.command != []
    ensures Some(c.command) == if override.Some? then override else Last(ss, PICK_COMMAND)
  {
    hide Last, All, Stored, PICK_IMAGE, PICK_NAME, PICK_HOSTNAME, PICK_WORKDIR, PICK_MEMORY, PICK_CPU, PICK_RESTART,
      PICK_COMMAND, PICK_COPY, PICK_VOLUME, PICK_EXPOSE, PICK_PORT, PICK_ENV;
  }

  lemma {:induction false} FieldOrDefault<T(!new)>(
    host: Host, lines: seq<string>, word: string, value: Option<T>, default: T, make: T -> Setting)
    requires FieldFrom(host, lines, word, value, make)
    ensures FieldFrom(host, lines, word, Some(OrElse(value, default)), make) ||
            (Silent(host, lines, word) && OrElse(value, default) == default)
  {
    hide Silent;
  }

  lemma {:induction false} NamesFrom(
    host: Host, lines: seq<string>, ss: seq<Setting>, override: Option<seq<string>>, c: AxisConfig)
    requires SettingsOf(host, lines, 0) == Ok(ss) && Declared(ss, override) == Ok(c)
    ensures DescribesNames(host, lines, c)
  {
    DeclaredFields(ss, override, c);
    hide SettingsOf, Declared, Last, All, Stored, OrElse, Inverse, FieldFrom, Silent, PICK_IMAGE, PICK_NAME,
      PICK_HOSTNAME, PICK_WORKDIR, MAKE_IMAGE, MAKE_NAME, MAKE_HOSTNAME, MAKE_WORKDIR;
    NameInverses();
    FieldComesFrom(host, lines, ss, PICK_IMAGE, MAKE_IMAGE, "FROM");
    FieldComesFrom(host, lines, ss, PICK_NAME, MAKE_NAME, "NAME");
    FieldComesFrom(host, lines, ss, PICK_HOSTNAME, MAKE_HOSTNAME, "HOSTNAME");
    FieldComesFrom(host, lines, ss, PICK_WORKDIR, MAKE_WORKDIR, "WORKDIR");
    FieldOrDefault(host, lines, "NAME", Last(ss, PICK_NAME), "axis-container", MAKE_NAME);
    FieldOrDefault(host, lines, "WORKDIR", Last(ss, PICK_WORKDIR), "/", MAKE_WORKDIR);
  }

  lemma {:induction false} LimitsFrom(
    host: Host, lines: seq<string>, ss: seq<Setting>, override: Option<seq<string>>, c: AxisConfig)
    requires SettingsOf(host, lines, 0) == Ok(ss) && Declared(ss, override) == Ok(c)
    ensures DescribesLimits(host, lines, c) && DescribesCommand(host, lines, override, c)
  {
    DeclaredFields(ss, override, c);
    hide SettingsOf, Declared, Last, All, Stored, OrElse, Inverse, FieldFrom, PICK_MEMORY, PICK_CPU, PICK_RESTART,
      PICK_COMMAND, MAKE_MEMORY, MAKE_CPU, MAKE_RESTART, MAKE_COMMAND;
    LimitInverses();
    FieldComesFrom(host, lines, ss, PICK_MEMORY, MAKE_MEMORY, "MEMORY");
    FieldComesFrom(host, lines, ss, PICK_CPU, MAKE_CPU, "CPU");
    FieldComesFrom(host, lines, ss, PICK_RESTART, MAKE_RESTART, "RESTART");
    FieldComesFrom(host, lines, ss, PICK_COMMAND, MAKE_COMMAND, "CMD");
  }

  lemma {:induction false} ListsFrom(
    host: Host, lines: seq<string>, ss: seq<Setting>, override: Option<seq<string>>, c: AxisConfig)
    requires SettingsOf(host, lines, 0) == Ok(ss) && Declared(ss, override) == Ok(c)
    ensures DescribesLists(host, lines, c)
  {
    DeclaredFields(ss, override, c);
    hide SettingsOf, Declared, Last, All, Stored, OrElse, Inverse, ListFrom, PICK_COPY, PICK_VOLUME, PICK_EXPOSE,
      PICK_PORT, MAKE_COPY, MAKE_VOLUME, MAKE_EXPOSE, MAKE_PORT;
    ListInverses();
    ListComesFrom(host, lines, ss, PICK_COPY, MAKE_COPY, "COPY");
    ListComesFrom(host, lines, ss, PICK_VOLUME, MAKE_VOLUME, "VOLUME");
    ListComesFrom(host, lines, ss, PICK_EXPOSE, MAKE_EXPOSE, "EXPOSE");
    ListComesFrom(host, lines, ss, PICK_PORT, MAKE_PORT, "PORT");
  }

  lemma {:induction false} EnvFrom(
    host: Host, lines: seq<string>, ss: seq<Setting>, override: Option<seq<string>>, c: AxisConfig)
    requires SettingsOf(host, lines, 0) == Ok(ss) && Declared(ss, override) == Ok(c)
    ensures DescribesEnv(host, lines, c)
  {
    DeclaredFields(ss, override, c);
    hide SettingsOf, Declared, Last, All, KeyFrom, DistinctKeys, MapOf;
    forall key ensures KeyFrom(host, lines, key, if key in MapOf(c.env) then Some(MapOf(c.env)[key]) else None) {
      EnvLastValue(ss, key);
      EnvComesFrom(host, lines, ss, key);
    }
  }

  /** Every accepted Axisfile is parsed to a configuration that its lines describe. */
  lemma {:induction false} ParsedDescribes(
    host: Host, lines: seq<string>, override: Option<seq<string>>, c: AxisConfig)
    requires Parsed(host, lines, override) == Ok(c)
    ensures Describes(host, lines, override, c)
  {
    hide SettingsOf, Declared, DescribesNames, DescribesLimits, DescribesLists, DescribesEnv, DescribesCommand;
    var ss := SettingsOf(host, lines, 0).value;
    NamesFrom(host, lines, ss, override, c);
    LimitsFrom(host, lines, ss, override, c);
    ListsFrom(host, lines, ss, override, c);
    EnvFrom(host, lines, ss, override, c);
  }

  // ----- a line and its field

  /** A line with an instruction, one space and a value, no white space around them. */
  predicate PlainLine(line: string, w: string, value: string) {
    line == w + " " + value && w != "" && ' ' !in w && !PySpace(w[0]) && w[0] != '#' && value != "" && Tight(value)
  }

  lemma {:induction false} PlainReads(host: Host, line: string, w: string, value: string)
    requires PlainLine(line, w, value)
    ensures Reads(host, line, host.upper(w), value) && HasWord(host, line, host.upper(w)) && Rest(line) == value
  {
    TightStripped(line);
    TightStripped(value);
    hide Stripped, PySpace, Idle, Word, Rest;
    assert line[0] == w[0] && line != "";
    assert ReadsAs(host, line, host.upper(w), value, line, w, value);
    ReadsExactly(host, line, host.upper(w), value);
  }

  lemma {:induction false} TightStripped(s: string)
    requires Tight(s)
    ensures Stripped(s, s)
  {
    assert s == "" + s + "";
    assert Around(s, "", s, "");
  }

  lemma {:induction false} LineGivesField<T(!new)>(
    host: Host, a: seq<string>, line: string, b: seq<string>, word: string, value: Option<T>, make: T -> Setting)
    requires FieldFrom(host, a + [line] + b, word, value, make) && HasWord(host, line, word) && Silent(host, b, word)
    ensures value.Some? && Says(host, word, Rest(line), make(value.value))
  {
    hide HasWord, Says, Rest;
    var lines := a + [line] + b;
    assert lines[|a|] == line;
    assert forall j :: |a| < j < |lines| ==> lines[j] == b[j - |a| - 1];
    if value.Some? {
      var i: nat :| LastLine(host, lines, word, i) && Says(host, word, Rest(lines[i]), make(value.value));
      assert !(i < |a|) && !(i > |a|);
    }
  }

  /** What a scalar instruction with this value leaves in the configuration. */
  predicate Sets(host: Host, word: string, value: string, override: Option<seq<string>>, c: AxisConfig) {
    && (word == "FROM" ==> c.image == value) && (word == "NAME" ==> c.name == value)
    && (word == "HOSTNAME" ==> c.hostname == Some(value)) && (word == "WORKDIR" ==> c.workdir == value)
    && (word == "MEMORY" ==> c.memory == Some(value)) && (word == "CPU" ==> c.cpu == Some(value))
    && (word == "RESTART" ==> c.restart == Some("always"))
    && (word == "CMD" && override.None? ==> host.split(value) == Some(c.command))
  }

  /** The last line with a scalar instruction sets its field, whatever else the file says. */
  lemma {:induction false} LastLineSets(
    host: Host, a: seq<string>, line: string, b: seq<string>, w: string, value: string,
    override: Option<seq<string>>, c: AxisConfig)
    requires PlainLine(line, w, value) && Silent(host, b, host.upper(w))
    requires Parsed(host, a + [line] + b, override) == Ok(c)
    ensures Sets(host, host.upper(w), value, override, c)
  {
    ParsedDescribes(host, a + [line] + b, override, c);
    PlainReads(host, line, w, value);
    LineSetsName(host, a, line, b, host.upper(w), c);
    LineSetsLimit(host, a, line, b, host.upper(w), override, c);
  }

  lemma {:induction false} LineSetsName(
    host: Host, a: seq<string>, line: string, b: seq<string>, word: string, c: AxisConfig)
    requires DescribesNames(host, a + [line] + b, c) && HasWord(host, line, word) && Silent(host, b, word)
    ensures word == "FROM" ==> c.image == Rest(line)
    ensures word == "NAME" ==> c.name == Rest(line)
    ensures word == "HOSTNAME" ==> c.hostname == Some(Rest(line))
    ensures word == "WORKDIR" ==> c.workdir == Rest(line)
  {
    hide HasWord, Rest, FieldFrom, Silent;
    var lines := a + [line] + b;
    NotSilent(host, a, line, b, word);
    if word == "FROM" {
      LineGivesField(host, a, line, b, word, Some(c.image), MAKE_IMAGE);
    } else if word == "NAME" {
      LineGivesField(host, a, line, b, word, Some(c.name), MAKE_NAME);
    } else if word == "HOSTNAME" {
      LineGivesField(host, a, line, b, word, c.hostname, MAKE_HOSTNAME);
    } else if word == "WORKDIR" {
      LineGivesField(host, a, line, b, word, Some(c.workdir), MAKE_WORKDIR);
    }
  }

  lemma {:induction false} NotSilent(host: Host, a: seq<string>, line: string, b: seq<string>, word: string)
    requires HasWord(host, line, word)
    ensures !Silent(host, a + [line] + b, word)
  {
    hide HasWord;
    assert (a + [line] + b)[|a|] == line;
  }

  lemma {:induction false} LineSetsLimit(
    host: Host, a: seq<string>, line: string, b: seq<string>, word: string, override: Option<seq<string>>,
    c: AxisConfig)
    requires DescribesLimits(host, a + [line] + b, c) && DescribesCommand(host, a + [line] + b, override, c)
    requires HasWord(host, line, word) && Silent(host, b, word)
    ensures word == "MEMORY" ==> c.memory == Some(Rest(line))
    ensures word == "CPU" ==> c.cpu == Some(Rest(line))
    ensures word == "RESTART" ==> c.restart == Some("always")
    ensures word == "CMD" && override.None? ==> host.split(Rest(line)) == Some(c.command)
  {
    hide HasWord, Rest, FieldFrom, Silent;
    if word == "MEMORY" {
      LineGivesField(host, a, line, b, word, c.memory, MAKE_MEMORY);
    } else if word == "CPU" {
      LineGivesField(host, a, line, b, word, c.cpu, MAKE_CPU);
    } else if word == "RESTART" {
      LineGivesField(host, a, line, b, word, c.restart, MAKE_RESTART);
    } else if word == "CMD" && override.None? {
      LineGivesField(host, a, line, b, word, Some(c.command), MAKE_COMMAND);
    }
  }

  lemma {:induction false} SkipLast<T>(a: seq<Setting>, s: Setting, b: seq<Setting>, pick: Setting -> Option<T>)
    ensures pick(s).None? ==> Last(a + [s] + b, pick) == Last(a + b, pick)
  {
    hide Last;
    LastConcat(a + [s], b, pick);
    AppendLast(a, s, pick);
    LastConcat(a, b, pick);
  }

  lemma {:induction false} SkipAll<T>(a: seq<Setting>, s: Setting, b: seq<Setting>, pick: Setting -> Option<T>)
    ensures pick(s).None? ==> All(a + [s] + b, pick) == All(a + b, pick)
  {
    hide All;
    AllConcat(a + [s], b, pick);
    AppendAll(a, s, pick);
    AllConcat(a, b, pick);
  }

  /** The fields of the instructions other than that of `s` are the same. */
  predicate SameBut(s: Setting, c: AxisConfig, d: AxisConfig) {
    SameNames(s, c, d) && SameLimits(s, c, d) && SameLists(s, c, d)
  }

  predicate SameNames(s: Setting, c: AxisConfig, d: AxisConfig) {
    (!s.From? ==> c.image == d.image) && (!s.NameIs? ==> c.name == d.name) &&
    (!s.Hostname? ==> c.hostname == d.hostname) && (!s.Workdir? ==> c.workdir == d.workdir)
  }

  predicate SameLimits(s: Setting, c: AxisConfig, d: AxisConfig) {
    (!s.Memory? ==> c.memory == d.memory) && (!s.Cpu? ==> c.cpu == d.cpu) &&
    (!s.Restart? ==> c.restart == d.restart) && (!s.Cmd? ==> c.command == d.command)
  }

  predicate SameLists(s: Setting, c: AxisConfig, d: AxisConfig) {
    (!s.Copy? ==> c.copies == d.copies) && (!s.Volume? ==> c.volumes == d.volumes) &&
    (!s.Expose? ==> c.exposedPorts == d.exposedPorts) && (!s.Publish? ==> c.ports == d.ports) &&
    (!s.Env? ==> c.env == d.env)
  }

  lemma {:induction false} PickNames(a: seq<Setting>, s: Setting, b: seq<Setting>)
    ensures !s.From? ==> Last(a + [s] + b, PICK_IMAGE) == Last(a + b, PICK_IMAGE)
    ensures !s.NameIs? ==> Last(a + [s] + b, PICK_NAME) == Last(a + b, PICK_NAME)
    ensures !s.Hostname? ==> Last(a + [s] + b, PICK_HOSTNAME) == Last(a + b, PICK_HOSTNAME)
    ensures !s.Workdir? ==> Last(a + [s] + b, PICK_WORKDIR) == Last(a + b, PICK_WORKDIR)
  {
    hide Last;
    SkipLast(a, s, b, PICK_IMAGE);
    SkipLast(a, s, b, PICK_NAME);
    SkipLast(a, s, b, PICK_HOSTNAME);
    SkipLast(a, s, b, PICK_WORKDIR);
  }

  lemma {:induction false} SkipNames(
    a: seq<Setting>, s: Setting, b: seq<Setting>, override: Option<seq<string>>, c: AxisConfig, d: AxisConfig)
    requires Declared(a + [s] + b, override) == Ok(c) && Declared(a + b, override) == Ok(d)
    ensures SameNames(s, c, d)
  {
    DeclaredFields(a + [s] + b, override, c);
    DeclaredFields(a + b, override, d);
    PickNames(a, s, b);
    hide Last, All, Declared, Stored, OrElse, PICK_IMAGE, PICK_NAME, PICK_HOSTNAME, PICK_WORKDIR;
  }

  lemma {:induction false} PickLimits(a: seq<Setting>, s: Setting, b: seq<Setting>)
    ensures !s.Memory? ==> Last(a + [s] + b, PICK_MEMORY) == Last(a + b, PICK_MEMORY)
    ensures !s.Cpu? ==> Last(a + [s] + b, PICK_CPU) == Last(a + b, PICK_CPU)
    ensures !s.Restart? ==> Last(a + [s] + b, PICK_RESTART) == Last(a + b, PICK_RESTART)
    ensures !s.Cmd? ==> Last(a + [s] + b, PICK_COMMAND) == Last(a + b, PICK_COMMAND)
  {
    hide Last;
    SkipLast(a, s, b, PICK_MEMORY);
    SkipLast(a, s, b, PICK_CPU);
    SkipLast(a, s, b, PICK_RESTART);
    SkipLast(a, s, b, PICK_COMMAND);
  }

  lemma {:induction false} SkipLimits(
    a: seq<Setting>, s: Setting, b: seq<Setting>, override: Option<seq<string>>, c: AxisConfig, d: AxisConfig)
    requires Declared(a + [s] + b, override) == Ok(c) && Declared(a + b, override) == Ok(d)
    ensures SameLimits(s, c, d)
  {
    DeclaredFields(a + [s] + b, override, c);
    DeclaredFields(a + b, override, d);
    PickLimits(a, s, b);
    hide Last, All, Declared, Stored, OrElse, PICK_MEMORY, PICK_CPU, PICK_RESTART, PICK_COMMAND;
  }

  lemma {:induction false} PickLists(a: seq<Setting>, s: Setting, b: seq<Setting>)
    ensures !s.Copy? ==> All(a + [s] + b, PICK_COPY) == All(a + b, PICK_COPY)
    ensures !s.Volume? ==> All(a + [s] + b, PICK_VOLUME) == All(a + b, PICK_VOLUME)
    ensures !s.Expose? ==> All(a + [s] + b, PICK_EXPOSE) == All(a + b, PICK_EXPOSE)
    ensures !s.Publish? ==> All(a + [s] + b, PICK_PORT) == All(a + b, PICK_PORT)
    ensures !s.Env? ==> All(a + [s] + b, PICK_ENV) == All(a + b, PICK_ENV)
  {
    hide All;
    SkipAll(a, s, b, PICK_COPY);
    SkipAll(a, s, b, PICK_VOLUME);
    SkipAll(a, s, b, PICK_EXPOSE);
    SkipAll(a, s, b, PICK_PORT);
    SkipAll(a, s, b, PICK_ENV);
  }

  lemma {:induction false} SkipLists(
    a: seq<Setting>, s: Setting, b: seq<Setting>, override: Option<seq<string>>, c: AxisConfig, d: AxisConfig)
    requires Declared(a + [s] + b, override) == Ok(c) && Declared(a + b, override) == Ok(d)
    ensures SameLists(s, c, d)
  {
    DeclaredFields(a + [s] + b, override, c);
    DeclaredFields(a + b, override, d);
    PickLists(a, s, b);
    hide Last, All, Declared, Stored, OrElse, PICK_COPY, PICK_VOLUME, PICK_EXPOSE, PICK_PORT, PICK_ENV;
  }

  /** A line changes the fields of its own instruction only. */
  lemma {:induction false} LineTouchesOwn(
    host: Host, a: seq<string>, line: string, b: seq<string>, s: Setting, override: Option<seq<string>>,
    c: AxisConfig, d: AxisConfig)
    requires !Idle(line) && Says(host, Word(host, line), Rest(line), s)
    requires Parsed(host, a + [line] + b, override) == Ok(c) && Parsed(host, a + b, override) == Ok(d)
    ensures SameBut(s, c, d)
  {
    LineSays(host, line, s);
    hide SettingsOf, Declared, LineSetting, Says, Idle, Word, Rest, SameNames, SameLimits, SameLists;
    SettingsConcat(host, a + [line], b, 0);
    SettingsConcat(host, a, [line], 0);
    SettingsOne(host, line, |a|);
    SettingsConcat(host, a, b, 0);
    OffsetIrrelevant(host, b, |a|, |a| + 1);
    var before, after := SettingsOf(host, a, 0).value, SettingsOf(host, b, |a|).value;
    SkipNames(before, s, after, override, c, d);
    SkipLimits(before, s, after, override, c, d);
    SkipLists(before, s, after, override, c, d);
  }

  /** A line with a list instruction gives its element, after those of the lines before it. */
  lemma {:induction false} LineListed<T(!new)>(
    host: Host, a: seq<string>, line: string, b: seq<string>, word: string, values: seq<T>, make: T -> Setting)
    requires ListFrom(host, a + [line] + b, word, values, make) && HasWord(host, line, word)
    ensures var k := Times(host, a, word); k < |values| && Says(host, word, Rest(line), make(values[k]))
  {
    hide HasWord, Says, Rest, Times;
    var lines := a + [line] + b;
    assert lines[|a|] == line && lines[..|a|] == a;
    assert ElementSays(host, lines, word, values, make, |a|);
  }

  /** What a list instruction with this value adds as the k-th element of its list. */
  ghost predicate Adds(host: Host, word: string, value: string, k: nat, c: AxisConfig) {
    && (word == "COPY" ==> k < |c.copies| && Says(host, word, value, Copy(c.copies[k])))
    && (word == "VOLUME" ==> k < |c.volumes| && Says(host, word, value, Volume(c.volumes[k])))
    && (word == "EXPOSE" ==> k < |c.exposedPorts| && Says(host, word, value, Expose(c.exposedPorts[k])))
    && (word == "PORT" ==> k < |c.ports| && Says(host, word, value, Publish(c.ports[k])))
  }

  /** A line with a list instruction adds its element in place, whatever else the file says. */
  lemma {:induction false} LineAdds(
    host: Host, a: seq<string>, line: string, b: seq<string>, w: string, value: string,
    override: Option<seq<string>>, c: AxisConfig)
    requires PlainLine(line, w, value) && Parsed(host, a + [line] + b, override) == Ok(c)
    ensures Adds(host, host.upper(w), value, Times(host, a, host.upper(w)), c)
  {
    ParsedDescribes(host, a + [line] + b, override, c);
    PlainReads(host, line, w, value);
    hide HasWord, Rest, Says, Times, Parsed, PlainLine, Adds, DescribesNames, DescribesLimits, DescribesLists,
      DescribesEnv, DescribesCommand, Reads;
    LineAddsTo(host, a, line, b, host.upper(w), c);
  }

  lemma {:induction false} LineAddsTo(
    host: Host, a: seq<string>, line: string, b: seq<string>, word: string, c: AxisConfig)
    requires DescribesLists(host, a + [line] + b, c) && HasWord(host, line, word)
    ensures Adds(host, word, Rest(line), Times(host, a, word), c)
  {
    hide HasWord, Rest, Says, ListFrom, Times;
    if word == "COPY" {
      LineListed(host, a, line, b, word, c.copies, MAKE_COPY);
    } else if word == "VOLUME" {
      LineListed(host, a, line, b, word, c.volumes, MAKE_VOLUME);
    } else if word == "EXPOSE" {
      LineListed(host, a, line, b, word, c.exposedPorts, MAKE_EXPOSE);
    } else if word == "PORT" {
      LineListed(host, a, line, b, word, c.ports, MAKE_PORT);
    }
  }

  /** The last ENV line with a key gives its value, everything after the first equals sign. */
  lemma {:induction false} LineGivesKey(
    host: Host, a: seq<string>, line: string, b: seq<string>, w: string, text: string, key: string, value: string,
    override: Option<seq<string>>, c: AxisConfig)
    requires PlainLine(line, w, text) && host.upper(w) == "ENV" && SaysEnv(text, key, value)
    requires forall i, v :: 0 <= i < |b| ==> !GivesKey(host, b[i], key, v)
    requires Parsed(host, a + [line] + b, override) == Ok(c)
    ensures key in MapOf(c.env) && MapOf(c.env)[key] == value
  {
    ParsedDescribes(host, a + [line] + b, override, c);
    PlainReads(host, line, w, text);
    hide HasWord, Rest, SaysEnv, Parsed, PlainLine, MapOf, DescribesNames, DescribesLimits, DescribesLists,
      DescribesEnv, DescribesCommand, Reads;
    LineKey(host, a, line, b, key, value, c);
  }

  lemma {:induction false} LineKey(
    host: Host, a: seq<string>, line: string, b: seq<string>, key: string, value: string, c: AxisConfig)
    requires DescribesEnv(host, a + [line] + b, c) && GivesKey(host, line, key, value)
    requires forall i, v :: 0 <= i < |b| ==> !GivesKey(host, b[i], key, v)
    ensures key in MapOf(c.env) && MapOf(c.env)[key] == value
  {
    hide GivesKey, MapOf, DistinctKeys;
    var env := MapOf(c.env);
    var lines := a + [line] + b;
    assert lines[|a|] == line;
    assert forall j :: |a| < j < |lines| ==> lines[j] == b[j - |a| - 1];
    assert KeyFrom(host, lines, key, if key in env then Some(env[key]) else None);
    if key in env {
      var i: nat :| LastToGive(host, lines, key, i, env[key]);
      assert !(i < |a|) && !(i > |a|);
      OneValue(host, line, key, value, env[key]);
    }
  }

  lemma {:induction false} OneValue(host: Host, line: string, key: string, v: string, w: string)
    requires GivesKey(host, line, key, v) && GivesKey(host, line, key, w)
    ensures v == w
  {
    hide HasWord, Rest;
    EnvSaid(Rest(line), key, v);
    EnvSaid(Rest(line), key, w);
  }

  // ----- which files are accepted

  ghost predicate RightLine(host: Host, line: string) {
    Idle(line) || exists s :: Says(host, Word(host, line), Rest(line), s)
  }

  ghost predicate WrongBy(host: Host, line: string, p: Problem) {
    !Idle(line) && Mistaken(host, Word(host, line), Rest(line), p)
  }

  lemma {:induction false} LineExactly(host: Host, line: string)
    ensures LineSetting(host, line).Ok? <==> RightLine(host, line)
    ensures forall p :: LineSetting(host, line) == Err(p) <==> WrongBy(host, line, p)
  {
    hide Interpret, Says, Mistaken, Idle, Word, Rest;
    var word, rest := Word(host, line), Rest(line);
    forall s ensures Says(host, word, rest, s) <==> Interpret(host, word, rest) == Ok(s) {
      InterpretedExactly(host, word, rest, s);
    }
    forall p ensures Mistaken(host, word, rest, p) <==> Interpret(host, word, rest) == Err(p) {
      MistakenExactly(host, word, rest, p);
    }
    var r := Interpret(host, word, rest);
    assert r.Ok? ==> Says(host, word, rest, r.value);
  }

  /** Line n, counted from one, is the first wrong line. */
  ghost predicate FirstWrong(host: Host, lines: seq<string>, n: nat, p: Problem) {
    1 <= n <= |lines| && WrongBy(host, lines[n - 1], p) && forall i :: 0 <= i < n - 1 ==> RightLine(host, lines[i])
  }

  lemma {:induction false} SettingsExactly(host: Host, lines: seq<string>)
    ensures SettingsOf(host, lines, 0).Ok? <==> forall i :: 0 <= i < |lines| ==> RightLine(host, lines[i])
    ensures SettingsOf(host, lines, 0).Err? ==>
              SettingsOf(host, lines, 0).error.AtLine? &&
              FirstWrong(host, lines, SettingsOf(host, lines, 0).error.number, SettingsOf(host, lines, 0).error.problem)
    decreases |lines|
  {
    hide LineSetting, RightLine, WrongBy;
    if lines != [] {
      var n := |lines| - 1;
      SettingsExactly(host, lines[..n]);
      LineExactly(host, lines[n]);
      if forall i :: 0 <= i < n ==> RightLine(host, lines[i]) {
        assert SettingsOf(host, lines[..n], 0).Ok?;
      }
    }
  }

  lemma {:induction false} NotBoth(host: Host, line: string, p: Problem)
    requires WrongBy(host, line, p)
    ensures !RightLine(host, line) && forall q :: WrongBy(host, line, q) ==> q == p
  {
    hide RightLine, WrongBy;
    LineExactly(host, line);
  }

  /** The command that the file gives, which an override replaces, is missing or empty. */
  ghost predicate CommandMissing(host: Host, lines: seq<string>, override: Option<seq<string>>) {
    match override
    case Some(command) => command == []
    case None => Silent(host, lines, "CMD") || FieldFrom(host, lines, "CMD", Some([]), MAKE_COMMAND)
  }

  lemma {:induction false} MissingExactly(
    host: Host, lines: seq<string>, ss: seq<Setting>, override: Option<seq<string>>)
    requires SettingsOf(host, lines, 0) == Ok(ss)
    ensures Last(ss, PICK_IMAGE).None? <==> Silent(host, lines, "FROM")
    ensures CommandMissing(host, lines, override) <==>
            var command := if override.Some? then override else Last(ss, PICK_COMMAND);
            command.None? || command.value == []
  {
    hide SettingsOf, Last, Inverse, Silent, PICK_IMAGE, PICK_COMMAND, MAKE_IMAGE, MAKE_COMMAND, FieldFrom;
    NameInverses();
    LimitInverses();
    FieldComesFrom(host, lines, ss, PICK_IMAGE, MAKE_IMAGE, "FROM");
    FieldComesFrom(host, lines, ss, PICK_COMMAND, MAKE_COMMAND, "CMD");
    FieldSilent(host, lines, "FROM", Last(ss, PICK_IMAGE), MAKE_IMAGE);
    FieldSilent(host, lines, "CMD", Last(ss, PICK_COMMAND), MAKE_COMMAND);
    if FieldFrom(host, lines, "CMD", Some([]), MAKE_COMMAND) {
      CommandOnce(host, lines, Last(ss, PICK_COMMAND), Some([]));
    }
  }

  lemma {:induction false} FieldSilent<T(!new)>(
    host: Host, lines: seq<string>, word: string, value: Option<T>, make: T -> Setting)
    requires FieldFrom(host, lines, word, value, make)
    ensures value.None? <==> Silent(host, lines, word)
  {
    hide HasWord, Says;
  }

  lemma {:induction false} CommandOnce(
    host: Host, lines: seq<string>, v: Option<seq<string>>, w: Option<seq<string>>)
    requires FieldFrom(host, lines, "CMD", v, MAKE_COMMAND) && FieldFrom(host, lines, "CMD", w, MAKE_COMMAND)
    ensures v == w
  {
    hide HasWord, Rest;
  }

  /** Every answer of the parser that is not a configuration, with its exact cause. */
  lemma {:induction false} ParsedExactly(host: Host, lines: seq<string>, override: Option<seq<string>>)
    ensures var r := Parsed(host, lines, override);
            var right := forall i :: 0 <= i < |lines| ==> RightLine(host, lines[i]);
            && (forall n, p :: r == Err(AtLine(n, p)) <==> FirstWrong(host, lines, n, p))
            && (r == Err(NoImage) <==> right && Silent(host, lines, "FROM"))
            && (r == Err(NoCommand) <==>
                right && !Silent(host, lines, "FROM") && CommandMissing(host, lines, override))
            && (r.Ok? <==> right && !Silent(host, lines, "FROM") && !CommandMissing(host, lines, override))
  {
    hide SettingsOf, Last, All, Stored, RightLine, WrongBy, CommandMissing, Silent, OrElse;
    SettingsExactly(host, lines);
    forall n: nat, p | FirstWrong(host, lines, n, p)
      ensures SettingsOf(host, lines, 0) == Err(AtLine(n, p))
    {
      OneFirstWrong(host, lines, n, p);
    }
    if SettingsOf(host, lines, 0).Ok? {
      MissingExactly(host, lines, SettingsOf(host, lines, 0).value, override);
    }
  }

  lemma {:induction false} OneFirstWrong(host: Host, lines: seq<string>, n: nat, p: Problem)
    requires FirstWrong(host, lines, n, p)
    ensures SettingsOf(host, lines, 0) == Err(AtLine(n, p))
  {
    hide SettingsOf, RightLine, WrongBy;
    SettingsExactly(host, lines);
    NotBoth(host, lines[n - 1], p);
    var r := SettingsOf(host, lines, 0);
    if r.Err? {
      NotBoth(host, lines[r.error.number - 1], r.error.problem);
    }
  }
}
