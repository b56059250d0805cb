/**
  The Axisfile parser: a line loop that overwrites scalars and appends to lists, proved equal to a
  declarative reading of the settings the lines make.
 */
module Axisfile {
  import opened Wrappers
  import opened Text
  import opened JsonText
  import opened Config
  import opened Paths

  /** What the parser takes from Python: case mapping, shlex, path resolution and int. */
  datatype Host = Host(
    upper: string -> string,
    lower: string -> string,
    split: string -> Option<seq<string>>,
    resolve: string -> string,
    toInt: string -> Option<int>)

  datatype Problem =
    | NoValue | BadSplit | BadCopy | BadVolume | BadEnv | BadPort | PortRange | BadMapping | BadRestart | Unsupported

  datatype ParseError = AtLine(number: nat, problem: Problem) | NoImage | NoCommand

  datatype Setting =
    | From(image: string)
    | NameIs(name: string)
    | Hostname(hostname: string)
    | Workdir(workdir: string)
    | Copy(copy: CopySpec)
    | Volume(volume: VolumeSpec)
    | Env(key: string, value: string)
    | Expose(port: nat)
    | Publish(mapping: PortMapping)
    | Memory(memory: string)
    | Cpu(cpu: string)
    | Restart(policy: string)
    | Cmd(command: seq<string>)

  // ----- str.strip

  /** The white space of Python strings. */
  predicate PySpace(c: char) {
    var n := c as int;
    9 <= n <= 13 || 0x1C <= n <= 0x20 || n == 0x85 || n == 0xA0 || n == 0x1680 || 0x2000 <= n <= 0x200A ||
    n == 0x2028 || n == 0x2029 || n == 0x202F || n == 0x205F || n == 0x3000
  }

  function StripLeft(s: string): string { if s != "" && PySpace(s[0]) then StripLeft(s[1..]) else s }

  function StripRight(s: string): string {
    if s != "" && PySpace(s[|s| - 1]) then StripRight(s[..|s| - 1]) else s
  }

  function Strip(s: string): string { StripRight(StripLeft(s)) }

  // ----- one line

  function ParseVolume(host: Host, value: string): Result<VolumeSpec, Problem> {
    if ':' !in value then Err(BadVolume)
    else
      var source := Strip(value[..Position(value, ':')]);
      var destination := Strip(value[Position(value, ':') + 1..]);
      if source == "" || destination == "" then Err(BadVolume)
      else if destination[0] != '/' then Err(BadVolume)
      else if destination == "/" || Contains(destination, "/../") || EndsWith(destination, "/..") then Err(BadVolume)
      else Ok(VolumeSpec(host.resolve(source), destination))
  }

  function ParseEnv(value: string): Result<(string, string), Problem> {
    if '=' !in value then Err(BadEnv)
    else
      var key := Strip(value[..Position(value, '=')]);
      if key == "" then Err(BadEnv) else Ok((key, value[Position(value, '=') + 1..]))
  }

  function ParsePort(host: Host, value: string): Result<nat, Problem> {
    match host.toInt(value)
    case None => Err(BadPort)
    case Some(n) => if n < 1 || n > 65535 then Err(PortRange) else Ok(n)
  }

  function ParsePortPair(host: Host, base: string): Option<PortMapping> {
    var p := Position(base, ':');
    if p == |base| then
      match ParsePort(host, base) case Err(_) => None case Ok(n) => Some(PortMapping(n, n))
    else if ':' in base[p + 1..] then None
    else
      match (ParsePort(host, base[..p]), ParsePort(host, base[p + 1..]))
      case (Ok(m), Ok(n)) => Some(PortMapping(m, n))
      case _ => None
  }

  /** The last position of a character, or -1. */
  function LastPosition(s: string, c: char): (p: int)
    ensures -1 <= p < |s| && (p >= 0 ==> s[p] == c) && forall i :: p < i < |s| ==> s[i] != c
  {
    if s == "" then -1 else if s[|s| - 1] == c then |s| - 1 else LastPosition(s[..|s| - 1], c)
  }

  /** parse_port_mapping: a port or two, and perhaps a protocol after the last slash. */
  function ParsePortMapping(host: Host, value: string): Option<PortMapping> {
    var raw := Strip(value);
    var slash := LastPosition(raw, '/');
    if slash < 0 then ParsePortPair(host, raw)
    else if host.lower(raw[slash + 1..]) != "tcp" then None
    else ParsePortPair(host, raw[..slash])
  }

  function ParseRestart(host: Host, value: string): Result<string, Problem> {
    if host.lower(Strip(value)) == "always" then Ok("always") else Err(BadRestart)
  }

  /** What an instruction with a value says. */
  function Interpret(host: Host, word: string, rest: string): Result<Setting, Problem> {
    if word == "COPY" then
      (match host.split(rest)
       case None => Err(BadSplit)
       case Some(parts) =>
         if |parts| != 2 then Err(BadCopy) else Ok(Copy(CopySpec(host.resolve(parts[0]), parts[1]))))
    else if word == "ENV" then
      (match ParseEnv(rest) case Err(p) => Err(p) case Ok((key, value)) => Ok(Env(key, value)))
    else if word == "EXPOSE" then
      (match ParsePort(host, rest) case Err(p) => Err(p) case Ok(n) => Ok(Expose(n)))
    else if !NeedsValue(word) then Err(Unsupported)
    else if rest == "" then Err(NoValue)
    else if word == "FROM" then Ok(From(rest))
    else if word == "NAME" then Ok(NameIs(rest))
    else if word == "HOSTNAME" then Ok(Hostname(rest))
    else if word == "WORKDIR" then Ok(Workdir(rest))
    else if word == "MEMORY" then Ok(Memory(rest))
    else if word == "CPU" then Ok(Cpu(rest))
    else if word == "VOLUME" then
      (match ParseVolume(host, rest) case Err(p) => Err(p) case Ok(v) => Ok(Volume(v)))
    else if word == "PORT" then
      (match ParsePortMapping(host, rest) case None => Err(BadMapping) case Some(m) => Ok(Publish(m)))
    else if word == "RESTART" then
      (match ParseRestart(host, rest) case Err(p) => Err(p) case Ok(policy) => Ok(Restart(policy)))
    else
      (match host.split(rest) case None => Err(BadSplit) case Some(command) => Ok(Cmd(command)))
  }

  predicate NeedsValue(word: string) {
    word == "FROM" || word == "NAME" || word == "HOSTNAME" || word == "WORKDIR" || word == "VOLUME" ||
    word == "PORT" || word == "MEMORY" || word == "CPU" || word == "RESTART" || word == "CMD"
  }

  /** Blank lines and comments. */
  predicate Idle(line: string) { Strip(line) == "" || Strip(line)[0] == '#' }

  function Word(host: Host, line: string): string { host.upper(Strip(line)[..Position(Strip(line), ' ')]) }

  function Rest(line: string): string {
    var s := Strip(line);
    if Position(s, ' ') < |s| then Strip(s[Position(s, ' ') + 1..]) else ""
  }

  /** The setting of a line, if it makes one. */
  function LineSetting(host: Host, line: string): Result<Option<Setting>, Problem> {
    if Idle(line) then Ok(None)
    else match Interpret(host, Word(host, line), Rest(line)) case Err(p) => Err(p) case Ok(s) => Ok(Some(s))
  }

  /** The settings of the lines numbered from `offset` + 1 on, or the first line that is wrong. */
  function SettingsOf(host: Host, lines: seq<string>, offset: nat): Result<seq<Setting>, ParseError> {
    if lines == [] then Ok([])
    else
      match SettingsOf(host, lines[..|lines| - 1], offset)
      case Err(e) => Err(e)
      case Ok(before) =>
        match LineSetting(host, lines[|lines| - 1])
        case Err(p) => Err(AtLine(offset + |lines|, p))
        case Ok(None) => Ok(before)
        case Ok(Some(s)) => Ok(before + [s])
  }

  // ----- the declarative reading

  /** The last value that the settings give to one thing. */
  function Last<T>(ss: seq<Setting>, pick: Setting -> Option<T>): (r: Option<T>)
    ensures r.None? <==> forall i :: 0 <= i < |ss| ==> pick(ss[i]).None?
    ensures r.Some? ==>
              exists i :: 0 <= i < |ss| && pick(ss[i]) == r && forall j :: i < j < |ss| ==> pick(ss[j]).None?
  {
    if ss == [] then None
    else if pick(ss[|ss| - 1]).Some? then pick(ss[|ss| - 1])
    else Last(ss[..|ss| - 1], pick)
  }

  /** All values that the settings give to one thing, in order. */
  function All<T>(ss: seq<Setting>, pick: Setting -> Option<T>): seq<T> {
    if ss == [] then []
    else
      var before := All(ss[..|ss| - 1], pick);
      match pick(ss[|ss| - 1])
      case None => before
      case Some(v) => before + [v]
  }

  function OrElse<T>(o: Option<T>, default: T): T { if o.Some? then o.value else default }

  const PICK_IMAGE: Setting -> Option<string> := (s: Setting) => if s.From? then Some(s.image) else None
  const PICK_NAME: Setting -> Option<string> := (s: Setting) => if s.NameIs? then Some(s.name) else None
  const PICK_HOSTNAME: Setting -> Option<string> := (s: Setting) => if s.Hostname? then Some(s.hostname) else None
  const PICK_WORKDIR: Setting -> Option<string> := (s: Setting) => if s.Workdir? then Some(s.workdir) else None
  const PICK_COPY: Setting -> Option<CopySpec> := (s: Setting) => if s.Copy? then Some(s.copy) else None
  const PICK_VOLUME: Setting -> Option<VolumeSpec> := (s: Setting) => if s.Volume? then Some(s.volume) else None
  const PICK_ENV: Setting -> Option<Entry> := (s: Setting) => if s.Env? then Some(Entry(s.key, s.value)) else None
  const PICK_EXPOSE: Setting -> Option<nat> := (s: Setting) => if s.Expose? then Some(s.port) else None
  const PICK_PORT: Setting -> Option<PortMapping> := (s: Setting) => if s.Publish? then Some(s.mapping) else None
  const PICK_MEMORY: Setting -> Option<string> := (s: Setting) => if s.Memory? then Some(s.memory) else None
  const PICK_CPU: Setting -> Option<string> := (s: Setting) => if s.Cpu? then Some(s.cpu) else None
  const PICK_RESTART: Setting -> Option<string> := (s: Setting) => if s.Restart? then Some(s.policy) else None
  const PICK_COMMAND: Setting -> Option<seq<string>> := (s: Setting) => if s.Cmd? then Some(s.command) else None

  /** The dict that the entries leave when they are stored one after the other. */
  function Stored(entries: seq<Entry>): (r: seq<Entry>)
    ensures DistinctKeys(r) && MapOf(r) == MapOf(entries)
  {
    if entries == [] then []
    else
      var e, before := entries[|entries| - 1], Stored(entries[..|entries| - 1]);
      DictPutDistinct(before, e.key, e.value);
      DictPutMap(before, e.key, e.value);
      DictPut(before, e.key, e.value)
  }

  function Declared(ss: seq<Setting>, override: Option<seq<string>>): Result<AxisConfig, ParseError> {
    var image := Last(ss, PICK_IMAGE);
    var command := if override.Some? then override else Last(ss, PICK_COMMAND);
    if image.None? then Err(NoImage)
    else if command.None? || command.value == [] then Err(NoCommand)
    else
      Ok(AxisConfig(
          image.value, command.value, OrElse(Last(ss, PICK_NAME), "axis-container"), Last(ss, PICK_HOSTNAME),
          OrElse(Last(ss, PICK_WORKDIR), "/"), Stored(All(ss, PICK_ENV)), All(ss, PICK_COPY), All(ss, PICK_VOLUME),
          All(ss, PICK_EXPOSE), All(ss, PICK_PORT), Last(ss, PICK_MEMORY), Last(ss, PICK_CPU), Last(ss, PICK_RESTART)))
  }

  function Parsed(host: Host, lines: seq<string>, override: Option<seq<string>>): Result<AxisConfig, ParseError> {
    match SettingsOf(host, lines, 0)
    case Err(e) => Err(e)
    case Ok(ss) => Declared(ss, override)
  }

  // ----- the loop

  lemma {:induction false} AppendLast<T>(ss: seq<Setting>, s: Setting, pick: Setting -> Option<T>)
    ensures Last(ss + [s], pick) == if pick(s).Some? then pick(s) else Last(ss, pick)
  {
    assert (ss + [s])[..|ss|] == ss;
  }

  lemma {:induction false} AppendAll<T>(ss: seq<Setting>, s: Setting, pick: Setting -> Option<T>)
    ensures All(ss + [s], pick) == if pick(s).Some? then All(ss, pick) + [pick(s).value] else All(ss, pick)
  {
    assert (ss + [s])[..|ss|] == ss;
  }

  lemma {:induction false} AppendStored(entries: seq<Entry>, e: Entry)
    ensures Stored(entries + [e]) == DictPut(Stored(entries), e.key, e.value)
  {
    assert (entries + [e])[..|entries|] == entries;
  }

  /** One more setting. */
  lemma {:induction false} AppendNames(ss: seq<Setting>, s: Setting)
    ensures Last(ss + [s], PICK_IMAGE) == if s.From? then Some(s.image) else Last(ss, PICK_IMAGE)
    ensures Last(ss + [s], PICK_NAME) == if s.NameIs? then Some(s.name) else Last(ss, PICK_NAME)
    ensures Last(ss + [s], PICK_HOSTNAME) == if s.Hostname? then Some(s.hostname) else Last(ss, PICK_HOSTNAME)
    ensures Last(ss + [s], PICK_WORKDIR) == if s.Workdir? then Some(s.workdir) else Last(ss, PICK_WORKDIR)
  {
    hide Last;
    AppendLast(ss, s, PICK_IMAGE);
    AppendLast(ss, s, PICK_NAME);
    AppendLast(ss, s, PICK_HOSTNAME);
    AppendLast(ss, s, PICK_WORKDIR);
  }

  lemma {:induction false} AppendLimits(ss: seq<Setting>, s: Setting)
    ensures Last(ss + [s], PICK_MEMORY) == if s.Memory? then Some(s.memory) else Last(ss, PICK_MEMORY)
    ensures Last(ss + [s], PICK_CPU) == if s.Cpu? then Some(s.cpu) else Last(ss, PICK_CPU)
    ensures Last(ss + [s], PICK_RESTART) == if s.Restart? then Some(s.policy) else Last(ss, PICK_RESTART)
    ensures Last(ss + [s], PICK_COMMAND) == if s.Cmd? then Some(s.command) else Last(ss, PICK_COMMAND)
  {
    hide Last;
    AppendLast(ss, s, PICK_MEMORY);
    AppendLast(ss, s, PICK_CPU);
    AppendLast(ss, s, PICK_RESTART);
    AppendLast(ss, s, PICK_COMMAND);
  }

  lemma {:induction false} AppendLists(ss: seq<Setting>, s: Setting)
    ensures All(ss + [s], PICK_COPY) == if s.Copy? then All(ss, PICK_COPY) + [s.copy] else All(ss, PICK_COPY)
    ensures All(ss + [s], PICK_VOLUME) == if s.Volume? then All(ss, PICK_VOLUME) + [s.volume] else All(ss, PICK_VOLUME)
    ensures All(ss + [s], PICK_EXPOSE) == if s.Expose? then All(ss, PICK_EXPOSE) + [s.port] else All(ss, PICK_EXPOSE)
    ensures All(ss + [s], PICK_PORT) == if s.Publish? then All(ss, PICK_PORT) + [s.mapping] else All(ss, PICK_PORT)
    ensures Stored(All(ss + [s], PICK_ENV)) ==
            if s.Env? then DictPut(Stored(All(ss, PICK_ENV)), s.key, s.value) else Stored(All(ss, PICK_ENV))
  {
    hide All, Stored;
    AppendAll(ss, s, PICK_COPY);
    AppendAll(ss, s, PICK_VOLUME);
    AppendAll(ss, s, PICK_EXPOSE);
    AppendAll(ss, s, PICK_PORT);
    AppendAll(ss, s, PICK_ENV);
    if s.Env? {
      AppendStored(All(ss, PICK_ENV), Entry(s.key, s.value));
    }
  }

  /** One more line that is not wrong. */
  lemma {:induction false} RightLine(host: Host, lines: seq<string>, n: nat, before: seq<Setting>)
    requires n < |lines| && SettingsOf(host, lines[..n], 0) == Ok(before) && LineSetting(host, lines[n]).Ok?
    ensures SettingsOf(host, lines[..n + 1], 0) ==
            match LineSetting(host, lines[n]).value
            case None => Ok(before)
            case Some(s) => Ok(before + [s])
  {
    hide LineSetting;
    assert lines[..n + 1][..n] == lines[..n];
  }

  /** The first wrong line decides. */
  lemma {:induction false} WrongLine(host: Host, lines: seq<string>, n: nat, offset: nat)
    requires n < |lines| && SettingsOf(host, lines[..n], offset).Ok? && LineSetting(host, lines[n]).Err?
    ensures SettingsOf(host, lines, offset) == Err(AtLine(offset + n + 1, LineSetting(host, lines[n]).error))
    decreases |lines|
  {
    hide LineSetting;
    if n == |lines| - 1 {
    } else {
      assert lines[..|lines| - 1][..n] == lines[..n];
      WrongLine(host, lines[..|lines| - 1], n, offset);
    }
  }

  /** The scalar variables of the loop hold the last values that the settings give. */
  predicate ScalarsRead(
    ss: seq<Setting>, image: Option<string>, name: string, hostname: Option<string>, workdir: string,
    memory: Option<string>, cpu: Option<string>, restart: Option<string>, command: Option<seq<string>>)
  {
    image == Last(ss, PICK_IMAGE) && name == OrElse(Last(ss, PICK_NAME), "axis-container") &&
    hostname == Last(ss, PICK_HOSTNAME) && workdir == OrElse(Last(ss, PICK_WORKDIR), "/") &&
    memory == Last(ss, PICK_MEMORY) && cpu == Last(ss, PICK_CPU) && restart == Last(ss, PICK_RESTART) &&
    command == Last(ss, PICK_COMMAND)
  }

  /** Its lists hold all values in order, and its dict the entries stored one after the other. */
  predicate ListsRead(
    ss: seq<Setting>, env: seq<Entry>, copies: seq<CopySpec>, volumes: seq<VolumeSpec>, exposedPorts: seq<nat>,
    ports: seq<PortMapping>)
  {
    env == Stored(All(ss, PICK_ENV)) && copies == All(ss, PICK_COPY) && volumes == All(ss, PICK_VOLUME) &&
    exposedPorts == All(ss, PICK_EXPOSE) && ports == All(ss, PICK_PORT)
  }

  lemma {:induction false} ScalarsStep(
    ss: seq<Setting>, s: Setting, image: Option<string>, name: string, hostname: Option<string>, workdir: string,
    memory: Option<string>, cpu: Option<string>, restart: Option<string>, command: Option<seq<string>>)
    requires ScalarsRead(ss, image, name, hostname, workdir, memory, cpu, restart, command)
    ensures ScalarsRead(
              ss + [s], if s.From? then Some(s.image) else image, if s.NameIs? then s.name else name,
              if s.Hostname? then Some(s.hostname) else hostname, if s.Workdir? then s.workdir else workdir,
              if s.Memory? then Some(s.memory) else memory, if s.Cpu? then Some(s.cpu) else cpu,
              if s.Restart? then Some(s.policy) else restart, if s.Cmd? then Some(s.command) else command)
  {
    hide Last;
    AppendNames(ss, s);
    AppendLimits(ss, s);
    hide PICK_IMAGE, PICK_NAME, PICK_HOSTNAME, PICK_WORKDIR, PICK_MEMORY, PICK_CPU, PICK_RESTART, PICK_COMMAND;
  }

  lemma {:induction false} ListsStep(
    ss: seq<Setting>, s: Setting, env: seq<Entry>, copies: seq<CopySpec>, volumes: seq<VolumeSpec>,
    exposedPorts: seq<nat>, ports: seq<PortMapping>)
    requires ListsRead(ss, env, copies, volumes, exposedPorts, ports)
    ensures ListsRead(
              ss + [s], if s.Env? then DictPut(env, s.key, s.value) else env,
              if s.Copy? then copies + [s.copy] else copies, if s.Volume? then volumes + [s.volume] else volumes,
              if s.Expose? then exposedPorts + [s.port] else exposedPorts,
              if s.Publish? then ports + [s.mapping] else ports)
  {
    hide All, Stored, DictPut;
    AppendLists(ss, s);
    hide PICK_COPY, PICK_VOLUME, PICK_EXPOSE, PICK_PORT, PICK_ENV;
  }

  /** The configuration, or the mistake, once all lines are read. */
  function Finished(
    override: Option<seq<string>>, image: Option<string>, name: string, hostname: Option<string>, workdir: string,
    memory: Option<string>, cpu: Option<string>, restart: Option<string>, command: Option<seq<string>>,
    env: seq<Entry>, copies: seq<CopySpec>, volumes: seq<VolumeSpec>, exposedPorts: seq<nat>, ports: seq<PortMapping>)
    : Result<AxisConfig, ParseError>
  {
    var chosen := if override.Some? then override else command;
    if image.None? then Err(NoImage)
    else if chosen.None? || chosen.value == [] then Err(NoCommand)
    else
      Ok(AxisConfig(
          image.value, chosen.value, name, hostname, workdir, env, copies, volumes, exposedPorts, ports, memory, cpu,
          restart))
  }

  lemma {:induction false} FinishedIs(
    ss: seq<Setting>, override: Option<seq<string>>, image: Option<string>, name: string, hostname: Option<string>,
    workdir: string, memory: Option<string>, cpu: Option<string>, restart: Option<string>,
    command: Option<seq<string>>, env: seq<Entry>, copies: seq<CopySpec>, volumes: seq<VolumeSpec>,
    exposedPorts: seq<nat>, ports: seq<PortMapping>)
    requires ScalarsRead(ss, image, name, hostname, workdir, memory, cpu, restart, command)
    requires ListsRead(ss, env, copies, volumes, exposedPorts, ports)
    ensures Declared(ss, override) ==
            Finished(
              override, image, name, hostname, workdir, memory, cpu, restart, command, env, copies, volumes,
              exposedPorts, ports)
  {
    hide Last, All, Stored;
  }

  /** parse_axisfile */
  method ParseAxisfile(host: Host, lines: seq<string>, override: Option<seq<string>>)
    returns (r: Result<AxisConfig, ParseError>)
    ensures r == Parsed(host, lines, override)
  {
    hide LineSetting, SettingsOf, Declared, ScalarsRead, ListsRead, DictPut;
    var image: Option<string>, name, hostname: Option<string>, workdir := None, "axis-container", None, "/";
    var command: Option<seq<string>>, env: seq<Entry> := None, [];
    var copies: seq<CopySpec>, volumes: seq<VolumeSpec> := [], [];
    var exposedPorts: seq<nat>, ports: seq<PortMapping> := [], [];
    var memory: Option<string>, cpu: Option<string>, restart: Option<string> := None, None, None;
    ghost var ss: seq<Setting> := [];
    NothingRead(host, lines);
    for i := 0 to |lines|
      invariant SettingsOf(host, lines[..i], 0) == Ok(ss)
      invariant ScalarsRead(ss, image, name, hostname, workdir, memory, cpu, restart, command)
      invariant ListsRead(ss, env, copies, volumes, exposedPorts, ports)
    {
      var setting := LineSetting(host, lines[i]);
      if setting.Err? {
        WrongLine(host, lines, i, 0);
        return Err(AtLine(i + 1, setting.error));
      }
      RightLine(host, lines, i, ss);
      if setting.value.None? {
        continue;
      }
      ScalarsStep(ss, setting.value.value, image, name, hostname, workdir, memory, cpu, restart, command);
      ListsStep(ss, setting.value.value, env, copies, volumes, exposedPorts, ports);
      match setting.value.value {
        case From(v) => image := Some(v);
        case NameIs(v) => name := v;
        case Hostname(v) => hostname := Some(v);
        case Workdir(v) => workdir := v;
        case Copy(v) => copies := copies + [v];
        case Volume(v) => volumes := volumes + [v];
        case Env(key, value) => env := DictPut(env, key, value);
        case Expose(v) => exposedPorts := exposedPorts + [v];
        case Publish(v) => ports := ports + [v];
        case Memory(v) => memory := Some(v);
        case Cpu(v) => cpu := Some(v);
        case Restart(v) => restart := Some(v);
        case Cmd(v) => command := Some(v);
      }
      ss := ss + [setting.value.value];
    }
    assert lines[..|lines|] == lines;
    FinishedIs(
      ss, override, image, name, hostname, workdir, memory, cpu, restart, command, env, copies, volumes, exposedPorts,
      ports);
    if image.None? {
      return Err(NoImage);
    }
    if override.Some? {
      command := override;
    }
    if command.None? || command.value == [] {
      return Err(NoCommand);
    }
    return Ok(AxisConfig(
                image.value, command.value, name, hostname, workdir, env, copies, volumes, exposedPorts, ports, memory,
                cpu, restart));
  }

  lemma NothingRead(host: Host, lines: seq<string>)
    ensures SettingsOf(host, lines[..0], 0) == Ok([])
    ensures ScalarsRead([], None, "axis-container", None, "/", None, None, None, None)
    ensures ListsRead([], [], [], [], [], [])
  {
  }

  // ----- what the reading means

  /** The environment holds, for each key, the last value given to it, and no other key. */
  lemma {:induction false} EnvLastValue(ss: seq<Setting>, key: string)
    ensures var env := MapOf(Stored(All(ss, PICK_ENV)));
            var given := Last(ss, PickValue(key));
            if given.Some? then key in env && env[key] == given.value else key !in env
  {
    hide Stored, Last, MapOf, All;
    if ss == [] {
      NothingStored();
    } else {
      var n := |ss| - 1;
      EnvLastValue(ss[..n], key);
      assert ss == ss[..n] + [ss[n]];
      EnvOneMore(ss[..n], ss[n]);
      AppendLast(ss[..n], ss[n], PickValue(key));
    }
  }

  lemma NothingStored()
    ensures MapOf(Stored(All([], PICK_ENV))) == map[]
  {
  }

  lemma {:induction false} EnvOneMore(ss: seq<Setting>, s: Setting)
    ensures var before := MapOf(Stored(All(ss, PICK_ENV)));
            MapOf(Stored(All(ss + [s], PICK_ENV))) == if s.Env? then before[s.key := s.value] else before
  {
    hide Stored, MapOf, All;
    AppendAll(ss, s, PICK_ENV);
    if s.Env? {
      MapOfConcat(All(ss, PICK_ENV), [Entry(s.key, s.value)]);
      MapOfOne(Entry(s.key, s.value));
    }
  }

  function PickValue(key: string): Setting -> Option<string> {
    (s: Setting) => if s.Env? && s.key == key then Some(s.value) else None
  }

  /** A destination is accepted by the parser exactly when the runtime accepts it. */
  lemma {:induction false} VolumeAccepted(host: Host, value: string)
    ensures ParseVolume(host, value).Ok? <==>
            ':' in value && Strip(value[..Position(value, ':')]) != "" &&
            IsSafeContainerPath(Strip(value[Position(value, ':') + 1..]))
    ensures ParseVolume(host, value).Ok? ==> IsSafeContainerPath(ParseVolume(host, value).value.destination)
  {
    hide Strip, Find;
    if ':' in value {
      assert Position(value, ':') < |value|;
    }
  }

  /** The volumes of every accepted file are ones that the runtime accepts; its environment is a dict. */
  lemma {:induction false} ParsedVolumesSafe(host: Host, lines: seq<string>, override: Option<seq<string>>)
    requires Parsed(host, lines, override).Ok?
    ensures var config := Parsed(host, lines, override).value;
            DistinctKeys(config.env) && config.command != [] &&
            forall i :: 0 <= i < |config.volumes| ==> IsSafeContainerPath(config.volumes[i].destination)
  {
    hide IsSafeContainerPath, Stored, All, SettingsOf, Declared;
    VolumesSafe(host, lines, 0);
    DeclaredParts(SettingsOf(host, lines, 0).value, override);
  }

  lemma {:induction false} DeclaredParts(ss: seq<Setting>, override: Option<seq<string>>)
    requires Declared(ss, override).Ok?
    ensures var config := Declared(ss, override).value;
            config.volumes == All(ss, PICK_VOLUME) && config.env == Stored(All(ss, PICK_ENV)) && config.command != []
  {
    hide Last, All, Stored;
  }

  lemma {:induction false} VolumesSafe(host: Host, lines: seq<string>, offset: nat)
    requires SettingsOf(host, lines, offset).Ok?
    ensures var volumes := All(SettingsOf(host, lines, offset).value, PICK_VOLUME);
            forall i :: 0 <= i < |volumes| ==> IsSafeContainerPath(volumes[i].destination)
  {
    hide IsSafeContainerPath, LineSetting;
    if lines != [] {
      var n := |lines| - 1;
      VolumesSafe(host, lines[..n], offset);
      var before := SettingsOf(host, lines[..n], offset).value;
      var last := LineSetting(host, lines[n]).value;
      LineSafe(host, lines[n]);
      if last.Some? {
        AppendAll(before, last.value, PICK_VOLUME);
      }
    }
  }

  lemma {:induction false} LineSafe(host: Host, line: string)
    ensures var r := LineSetting(host, line);
            r.Ok? && r.value.Some? && r.value.value.Volume? ==>
              IsSafeContainerPath(r.value.value.volume.destination)
  {
    hide IsSafeContainerPath, Strip, ParseVolume, Idle, Word, Rest;
    VolumeAccepted(host, Rest(line));
  }

  // ----- lines that may change places

  lemma {:induction false} LastConcat<T>(a: seq<Setting>, b: seq<Setting>, pick: Setting -> Option<T>)
    ensures Last(a + b, pick) == if Last(b, pick).Some? then Last(b, pick) else Last(a, pick)
  {
    if b == [] {
      assert a + b == a;
    } else {
      var n := |b| - 1;
      assert (a + b)[..|a + b| - 1] == a + b[..n];
      LastConcat(a, b[..n], pick);
    }
  }

  lemma {:induction false} AllConcat<T>(a: seq<Setting>, b: seq<Setting>, pick: Setting -> Option<T>)
    ensures All(a + b, pick) == All(a, pick) + All(b, pick)
  {
    if b == [] {
      assert a + b == a;
    } else {
      var n := |b| - 1;
      assert (a + b)[..|a + b| - 1] == a + b[..n];
      AllConcat(a, b[..n], pick);
    }
  }

  lemma {:induction false} SwapLast<T>(
    a: seq<Setting>, x: Setting, y: Setting, b: seq<Setting>, pick: Setting -> Option<T>)
    requires pick(x).None? || pick(y).None?
    ensures Last(a + [x] + [y] + b, pick) == Last(a + [y] + [x] + b, pick)
  {
    hide Last;
    LastConcat(a + [x] + [y], b, pick);
    LastConcat(a + [y] + [x], b, pick);
    AppendLast(a, x, pick);
    AppendLast(a, y, pick);
    AppendLast(a + [x], y, pick);
    AppendLast(a + [y], x, pick);
  }

  lemma {:induction false} SwapAll<T>(
    a: seq<Setting>, x: Setting, y: Setting, b: seq<Setting>, pick: Setting -> Option<T>)
    requires pick(x).None? || pick(y).None?
    ensures All(a + [x] + [y] + b, pick) == All(a + [y] + [x] + b, pick)
  {
    hide All;
    AllConcat(a + [x] + [y], b, pick);
    AllConcat(a + [y] + [x], b, pick);
    AppendAll(a, x, pick);
    AppendAll(a, y, pick);
    AppendAll(a + [x], y, pick);
    AppendAll(a + [y], x, pick);
  }

  /** Made by the same instruction. */
  predicate SameInstruction(x: Setting, y: Setting) {
    match x
    case From(_) => y.From?
    case NameIs(_) => y.NameIs?
    case Hostname(_) => y.Hostname?
    case Workdir(_) => y.Workdir?
    case Copy(_) => y.Copy?
    case Volume(_) => y.Volume?
    case Env(_, _) => y.Env?
    case Expose(_) => y.Expose?
    case Publish(_) => y.Publish?
    case Memory(_) => y.Memory?
    case Cpu(_) => y.Cpu?
    case Restart(_) => y.Restart?
    case Cmd(_) => y.Cmd?
  }

  lemma {:induction false} SwapNames(a: seq<Setting>, x: Setting, y: Setting, b: seq<Setting>)
    requires !SameInstruction(x, y)
    ensures var p, q := a + [x] + [y] + b, a + [y] + [x] + b;
            Last(p, PICK_IMAGE) == Last(q, PICK_IMAGE) && Last(p, PICK_NAME) == Last(q, PICK_NAME) &&
            Last(p, PICK_HOSTNAME) == Last(q, PICK_HOSTNAME) && Last(p, PICK_WORKDIR) == Last(q, PICK_WORKDIR)
  {
    hide Last;
    SwapLast(a, x, y, b, PICK_IMAGE);
    SwapLast(a, x, y, b, PICK_NAME);
    SwapLast(a, x, y, b, PICK_HOSTNAME);
    SwapLast(a, x, y, b, PICK_WORKDIR);
  }

  lemma {:induction false} SwapLimits(a: seq<Setting>, x: Setting, y: Setting, b: seq<Setting>)
    requires !SameInstruction(x, y)
    ensures var p, q := a + [x] + [y] + b, a + [y] + [x] + b;
            Last(p, PICK_MEMORY) == Last(q, PICK_MEMORY) && Last(p, PICK_CPU) == Last(q, PICK_CPU) &&
            Last(p, PICK_RESTART) == Last(q, PICK_RESTART) && Last(p, PICK_COMMAND) == Last(q, PICK_COMMAND)
  {
    hide Last;
    SwapLast(a, x, y, b, PICK_MEMORY);
    SwapLast(a, x, y, b, PICK_CPU);
    SwapLast(a, x, y, b, PICK_RESTART);
    SwapLast(a, x, y, b, PICK_COMMAND);
  }

  lemma {:induction false} SwapLists(a: seq<Setting>, x: Setting, y: Setting, b: seq<Setting>)
    requires !SameInstruction(x, y)
    ensures var p, q := a + [x] + [y] + b, a + [y] + [x] + b;
            All(p, PICK_COPY) == All(q, PICK_COPY) && All(p, PICK_VOLUME) == All(q, PICK_VOLUME) &&
            All(p, PICK_ENV) == All(q, PICK_ENV) && All(p, PICK_EXPOSE) == All(q, PICK_EXPOSE) &&
            All(p, PICK_PORT) == All(q, PICK_PORT)
  {
    hide All;
    SwapAll(a, x, y, b, PICK_COPY);
    SwapAll(a, x, y, b, PICK_VOLUME);
    SwapAll(a, x, y, b, PICK_ENV);
    SwapAll(a, x, y, b, PICK_EXPOSE);
    SwapAll(a, x, y, b, PICK_PORT);
  }

  lemma {:induction false} SwapSettings(
    a: seq<Setting>, x: Setting, y: Setting, b: seq<Setting>, override: Option<seq<string>>)
    requires !SameInstruction(x, y)
    ensures Declared(a + [x] + [y] + b, override) == Declared(a + [y] + [x] + b, override)
  {
    hide Last, All, Stored, SameInstruction, PICK_IMAGE, PICK_NAME, PICK_HOSTNAME, PICK_WORKDIR, PICK_MEMORY, PICK_CPU,
      PICK_RESTART, PICK_COMMAND, PICK_COPY, PICK_VOLUME, PICK_EXPOSE, PICK_PORT, PICK_ENV;
    SwapNames(a, x, y, b);
    SwapLimits(a, x, y, b);
    SwapLists(a, x, y, b);
  }

  lemma {:induction false} SettingsConcat(host: Host, a: seq<string>, b: seq<string>, offset: nat)
    ensures SettingsOf(host, a + b, offset) ==
            match SettingsOf(host, a, offset)
            case Err(e) => Err(e)
            case Ok(before) =>
              match SettingsOf(host, b, offset + |a|) case Err(e) => Err(e) case Ok(after) => Ok(before + after)
  {
    hide LineSetting;
    var before := SettingsOf(host, a, offset);
    if b == [] {
      assert a + b == a;
      assert before.Ok? ==> before.value + [] == before.value;
    } else {
      var n := |b| - 1;
      assert (a + b)[..|a + b| - 1] == a + b[..n] && (a + b)[|a + b| - 1] == b[n];
      SettingsConcat(host, a, b[..n], offset);
      var between, s := SettingsOf(host, b[..n], offset + |a|), LineSetting(host, b[n]);
      if before.Ok? && between.Ok? && s.Ok? && s.value.Some? {
        assert before.value + between.value + [s.value.value] == before.value + (between.value + [s.value.value]);
      }
    }
  }

  lemma {:induction false} SettingsOne(host: Host, line: string, offset: nat)
    ensures SettingsOf(host, [line], offset) ==
            match LineSetting(host, line)
            case Err(p) => Err(AtLine(offset + 1, p))
            case Ok(None) => Ok([])
            case Ok(Some(s)) => Ok([s])
  {
    hide LineSetting;
    var none: seq<string> := [line][..0];
    assert none == [] && SettingsOf(host, none, offset) == Ok([]);
    var s := LineSetting(host, line);
    assert s.Ok? && s.value.Some? ==> [] + [s.value.value] == [s.value.value];
  }

  /** Lines without effect on each other: accepted, and not made by the same instruction. */
  predicate Independent(host: Host, x: string, y: string) {
    var sx, sy := LineSetting(host, x), LineSetting(host, y);
    sx.Ok? && sy.Ok? && (sx.value.None? || sy.value.None? || !SameInstruction(sx.value.value, sy.value.value))
  }

  /** Two accepted adjacent lines with different instructions may change places. */
  lemma {:induction false} SwapLines(
    host: Host, a: seq<string>, x: string, y: string, b: seq<string>, override: Option<seq<string>>)
    requires Independent(host, x, y)
    ensures Parsed(host, a + [x] + [y] + b, override) == Parsed(host, a + [y] + [x] + b, override)
  {
    hide LineSetting, SettingsOf, Declared, SameInstruction;
    var n := |a|;
    SettingsConcat(host, a + [x] + [y], b, 0);
    SettingsConcat(host, a + [y] + [x], b, 0);
    TwoLines(host, a, x, y);
    TwoLines(host, a, y, x);
    var sa, sb := SettingsOf(host, a, 0), SettingsOf(host, b, n + 2);
    var sx, sy := LineSetting(host, x).value, LineSetting(host, y).value;
    if sa.Ok? {
      assert sx.None? || sy.None? ==> sa.value + Listed(sx) + Listed(sy) == sa.value + Listed(sy) + Listed(sx);
    }
    if sa.Ok? && sb.Ok? && sx.Some? && sy.Some? {
      SwapSettings(sa.value, sx.value, sy.value, sb.value, override);
    }
  }

  function Listed(o: Option<Setting>): seq<Setting> { if o.Some? then [o.value] else [] }

  lemma {:induction false} TwoLines(host: Host, a: seq<string>, x: string, y: string)
    requires LineSetting(host, x).Ok? && LineSetting(host, y).Ok?
    ensures SettingsOf(host, a + [x] + [y], 0) ==
            match SettingsOf(host, a, 0)
            case Err(e) => Err(e)
            case Ok(before) => Ok(before + Listed(LineSetting(host, x).value) + Listed(LineSetting(host, y).value))
  {
    hide LineSetting, SettingsOf;
    SettingsConcat(host, a + [x], [y], 0);
    SettingsConcat(host, a, [x], 0);
    SettingsOne(host, x, |a|);
    SettingsOne(host, y, |a| + 1);
  }

  /** The same configuration, or the same mistake, on whatever line. */
  predicate SameReading<T(==)>(r: Result<T, ParseError>, s: Result<T, ParseError>) {
    r == s || (r.Err? && s.Err? && r.error.AtLine? && s.error.AtLine? && r.error.problem == s.error.problem)
  }

  lemma {:induction false} OffsetIrrelevant(host: Host, lines: seq<string>, i: nat, j: nat)
    ensures SameReading(SettingsOf(host, lines, i), SettingsOf(host, lines, j))
  {
    hide LineSetting;
    if lines != [] {
      OffsetIrrelevant(host, lines[..|lines| - 1], i, j);
    }
  }

  lemma {:induction false} IdleSettings(host: Host, a: seq<string>, line: string)
    requires Idle(line)
    ensures SettingsOf(host, a + [line], 0) == SettingsOf(host, a, 0)
  {
    hide Idle, LineSetting;
    var longer := a + [line];
    assert longer[..|longer| - 1] == a;
    assert LineSetting(host, line) == Ok(None) by {
      IdleLine(host, line);
    }
  }

  lemma {:induction false} IdleLine(host: Host, line: string)
    requires Idle(line)
    ensures LineSetting(host, line) == Ok(None)
  {
    hide Idle;
  }

  lemma {:induction false} ReadingParsed(
    host: Host, p: seq<string>, q: seq<string>, override: Option<seq<string>>)
    requires SameReading(SettingsOf(host, p, 0), SettingsOf(host, q, 0))
    ensures SameReading(Parsed(host, p, override), Parsed(host, q, override))
  {
    hide SettingsOf, Declared;
  }

  /** A blank line or a comment, put anywhere, changes nothing but the numbers of later lines. */
  lemma {:induction false} IdleLines(
    host: Host, a: seq<string>, line: string, b: seq<string>, override: Option<seq<string>>)
    requires Idle(line)
    ensures SameReading(Parsed(host, a + [line] + b, override), Parsed(host, a + b, override))
  {
    hide SettingsOf, Parsed, Idle;
    SettingsConcat(host, a + [line], b, 0);
    IdleSettings(host, a, line);
    SettingsConcat(host, a, b, 0);
    OffsetIrrelevant(host, b, |a|, |a| + 1);
    ReadingParsed(host, a + [line] + b, a + b, override);
  }
}
