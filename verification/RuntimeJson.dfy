/**
  runtime.json from end to end: the document that write_runtime_config prints, what
  loadRuntimeConfig makes of it, and exactly when the two agree.
 */
module RuntimeJson {
  import opened Wrappers
  import opened Text
  import opened JsonText
  import opened JsonReader
  import opened JsonGrammar
  import opened KeyLookup
  import opened JsonStrings
  import opened Config
  import JsonDocument

  // ----- the writer

  function Decimal(n: nat): string {
    var digit := "0123456789"[n % 10];
    if n < 10 then [digit] else Decimal(n / 10) + [digit]
  }

  function PortText(p: PortMapping): string { Decimal(p.host) + ":" + Decimal(p.container) }

  function PortTexts(ports: seq<PortMapping>): seq<string> {
    if ports == [] then [] else [PortText(ports[0])] + PortTexts(ports[1..])
  }

  function Optional(s: Option<string>): Value { if s.Some? then Str(s.value) else Null }

  /** `rootfs` is the resolved path of the container's rootfs, `id` its identifier. */
  function RuntimeFields(config: AxisConfig, rootfs: string, id: string): Fields {
    [
      ("name", Str(config.name)),
      ("rootfs", Str(rootfs)),
      ("hostname", Str(config.ResolvedHostname())),
      ("workdir", Str(config.workdir)),
      ("command", Arr(config.command)),
      ("env", Obj(config.env)),
      ("ports", Arr(PortTexts(config.ports))),
      ("bind_mounts", Obj(VolumeDict(config.volumes))),
      ("restart", Optional(config.restart)),
      ("cgroup_path", Str("/sys/fs/cgroup/axis/" + id)),
      ("memory", Optional(config.memory)),
      ("cpu", Optional(config.cpu))
    ]
  }

  /** The text is the decimal numeral of n. */
  predicate Numeral(text: string, n: nat) {
    text != "" && (forall i :: 0 <= i < |text| ==> '0' <= text[i] <= '9') && NumeralValue(text) == n &&
    (text[0] == '0' ==> |text| == 1)
  }

  function NumeralValue(text: string): int {
    if text == "" then 0
    else 10 * NumeralValue(text[..|text| - 1]) + (text[|text| - 1] as int - '0' as int)
  }

  lemma {:induction false} DecimalIsNumeral(n: nat)
    ensures Numeral(Decimal(n), n) && (Decimal(n)[0] == '0' ==> n == 0)
  {
    var digit := "0123456789"[n % 10];
    assert '0' <= digit <= '9' && digit as int - '0' as int == n % 10;
    if n < 10 {
      assert Decimal(n)[..0] == "";
    } else {
      DecimalIsNumeral(n / 10);
      assert Decimal(n)[..|Decimal(n)| - 1] == Decimal(n / 10);
    }
  }

  /** host:container in decimal. */
  predicate PortIs(text: string, p: PortMapping) {
    var k := Position(text, ':');
    k < |text| && Numeral(text[..k], p.host) && Numeral(text[k + 1..], p.container)
  }

  lemma {:induction false} PortTextIs(p: PortMapping)
    ensures PortIs(PortText(p), p)
  {
    hide Decimal, Position;
    DecimalIsNumeral(p.host);
    DecimalIsNumeral(p.container);
    var a, b := Decimal(p.host), Decimal(p.container);
    var text := PortText(p);
    assert text[|a|] == ':' && forall i :: 0 <= i < |a| ==> text[i] == a[i];
    assert text[..|a|] == a && text[|a| + 1..] == b;
  }

  lemma {:induction false} PortTextsAre(ports: seq<PortMapping>)
    ensures |PortTexts(ports)| == |ports|
    ensures forall i :: 0 <= i < |ports| ==> PortIs(PortTexts(ports)[i], ports[i])
  {
    hide PortIs, PortText;
    if ports != [] {
      PortTextIs(ports[0]);
      PortTextsAre(ports[1..]);
      var more := PortTexts(ports[1..]);
      forall i | 0 <= i < |ports| ensures PortIs(PortTexts(ports)[i], ports[i]) {
        assert i > 0 ==> PortTexts(ports)[i] == more[i - 1] && ports[i] == ports[1..][i - 1];
      }
    }
  }

  /** A value, or null where there is none. */
  function OrNull(s: Option<string>): JsonDocument.JsonValue {
    match s case Some(v) => JsonDocument.JString(v) case None => JsonDocument.JNull
  }

  /** The fields of runtime.json as a JSON reader sees them, given the texts of the ports and the mounts. */
  function RuntimeMembers(config: AxisConfig, rootfs: string, id: string, ports: seq<string>, mounts: seq<Entry>)
    : seq<(string, JsonDocument.JsonValue)>
  {
    var hostname := match config.hostname case Some(h) => if h == "" then config.name else h case None => config.name;
    [
      ("name", JsonDocument.JString(config.name)),
      ("rootfs", JsonDocument.JString(rootfs)),
      ("hostname", JsonDocument.JString(hostname)),
      ("workdir", JsonDocument.JString(config.workdir)),
      ("command", JsonDocument.JArray(JsonDocument.Strings(config.command))),
      ("env", JsonDocument.JObject(JsonDocument.Members(config.env))),
      ("ports", JsonDocument.JArray(JsonDocument.Strings(ports))),
      ("bind_mounts", JsonDocument.JObject(JsonDocument.Members(mounts))),
      ("restart", OrNull(config.restart)),
      ("cgroup_path", JsonDocument.JString("/sys/fs/cgroup/axis/" + id)),
      ("memory", OrNull(config.memory)),
      ("cpu", OrNull(config.cpu))
    ]
  }

  /** The texts are those of the ports, and the mounts those that the volumes leave in a dict. */
  ghost predicate PortsAndMounts(config: AxisConfig, ports: seq<string>, mounts: seq<Entry>) {
    |ports| == |config.ports| && (forall i :: 0 <= i < |ports| ==> PortIs(ports[i], config.ports[i])) &&
    DistinctKeys(mounts) && MapOf(mounts) == VolumeMap(config.volumes)
  }

  /** What json.dumps prints of a configuration is a JSON document with these twelve fields. */
  lemma {:induction false} WrittenDocument(config: AxisConfig, rootfs: string, id: string)
    returns (ports: seq<string>, mounts: seq<Entry>)
    ensures PortsAndMounts(config, ports, mounts)
    ensures JsonDocument.ReadDocument(Dumps(RuntimeFields(config, rootfs, id))) ==
            Some(JsonDocument.JObject(RuntimeMembers(config, rootfs, id, ports, mounts)))
  {
    var fields := RuntimeFields(config, rootfs, id);
    ports, mounts := PortTexts(config.ports), VolumeDict(config.volumes);
    hide Dumps, JsonDocument.ReadDocument, PortIs, MapOf, DistinctKeys, VolumeMap, RuntimeMembers, RuntimeFields,
      JsonDocument.FieldMembers;
    PortTextsAre(config.ports);
    VolumeDictMap(config.volumes);
    JsonDocument.DumpsRead(fields);
    TwelveMembers(config, rootfs, id);
  }

  lemma {:induction false} TwelveMembers(config: AxisConfig, rootfs: string, id: string)
    ensures JsonDocument.FieldMembers(RuntimeFields(config, rootfs, id)) ==
            RuntimeMembers(config, rootfs, id, PortTexts(config.ports), VolumeDict(config.volumes))
  {
    var fields := RuntimeFields(config, rootfs, id);
    var members := RuntimeMembers(config, rootfs, id, PortTexts(config.ports), VolumeDict(config.volumes));
    hide JsonDocument.FieldMembers, PortTexts, VolumeDict, JsonDocument.Strings, JsonDocument.Members;
    MembersAt(fields);
    forall i | 0 <= i < 12 ensures members[i] == (fields[i].0, JsonDocument.JsonOf(fields[i].1)) {
    }
  }

  lemma {:induction false} MembersAt(fields: Fields)
    ensures |JsonDocument.FieldMembers(fields)| == |fields|
    ensures forall i :: 0 <= i < |fields| ==>
              JsonDocument.FieldMembers(fields)[i] == (fields[i].0, JsonDocument.JsonOf(fields[i].1))
  {
    if fields != [] {
      MembersAt(fields[1..]);
    }
  }

  /** Refuses the first volume whose source is not a directory, else gives the text of the file. */
  method WriteRuntimeConfig(config: AxisConfig, rootfs: string, id: string, isDir: string -> bool)
    returns (r: Result<string, VolumeSpec>)
    ensures r.Ok? <==> forall v :: v in config.volumes ==> isDir(v.source)
    ensures r.Ok? ==> r.value == Dumps(RuntimeFields(config, rootfs, id))
    ensures r.Ok? ==> exists ports, mounts :: PortsAndMounts(config, ports, mounts) &&
                        JsonDocument.ReadDocument(r.value) ==
                        Some(JsonDocument.JObject(RuntimeMembers(config, rootfs, id, ports, mounts)))
    ensures r.Err? ==> exists i :: 0 <= i < |config.volumes| && r.error == config.volumes[i] &&
                         !isDir(r.error.source) && forall j :: 0 <= j < i ==> isDir(config.volumes[j].source)
  {
    for i := 0 to |config.volumes|
      invariant forall j :: 0 <= j < i ==> isDir(config.volumes[j].source)
    {
      if !isDir(config.volumes[i].source) {
        return Err(config.volumes[i]);
      }
    }
    hide Dumps, RuntimeFields, RuntimeMembers, JsonDocument.ReadDocument, PortsAndMounts;
    ghost var ports, mounts := WrittenDocument(config, rootfs, id);
    return Ok(Dumps(RuntimeFields(config, rootfs, id)));
  }

  // ----- the reader

  datatype RuntimeConfig = RuntimeConfig(
    name: string, rootfs: string, hostname: string, workdir: string, command: seq<string>,
    env: map<string, string>, bindMounts: map<string, string>, cgroupPath: string, memory: string, cpu: string)

  /** The fields in the order they are read; the first failure is the result. */
  function Load(t: string): Result<RuntimeConfig, Error> {
    var name := StringField(t, "name", true);
    if name.Err? then Err(name.error) else
    var rootfs := StringField(t, "rootfs", true);
    if rootfs.Err? then Err(rootfs.error) else
    var hostname := StringField(t, "hostname", true);
    if hostname.Err? then Err(hostname.error) else
    var workdir := StringField(t, "workdir", true);
    if workdir.Err? then Err(workdir.error) else
    var command := ArrayField(t, "command");
    if command.Err? then Err(command.error) else
    var env := MapField(t, "env", true);
    if env.Err? then Err(env.error) else
    var bindMounts := MapField(t, "bind_mounts", false);
    if bindMounts.Err? then Err(bindMounts.error) else
    var cgroupPath := StringField(t, "cgroup_path", true);
    if cgroupPath.Err? then Err(cgroupPath.error) else
    var memory := StringField(t, "memory", false);
    if memory.Err? then Err(memory.error) else
    var cpu := StringField(t, "cpu", false);
    if cpu.Err? then Err(cpu.error) else
    Ok(RuntimeConfig(name.value, rootfs.value, hostname.value, workdir.value, command.value, env.value,
                     bindMounts.value, cgroupPath.value, memory.value, cpu.value))
  }

  method LoadRuntimeConfig(text: string) returns (r: Result<RuntimeConfig, Error>)
    ensures r == Load(text)
  {
    hide StringField, ArrayField, MapField;
    var json := new Json(text);
    var name := json.StringValue("name", true);
    if name.Err? { return Err(name.error); }
    var rootfs := json.StringValue("rootfs", true);
    if rootfs.Err? { return Err(rootfs.error); }
    var hostname := json.StringValue("hostname", true);
    if hostname.Err? { return Err(hostname.error); }
    var workdir := json.StringValue("workdir", true);
    if workdir.Err? { return Err(workdir.error); }
    var command := json.StringArray("command");
    if command.Err? { return Err(command.error); }
    var env := json.StringMap("env", true);
    if env.Err? { return Err(env.error); }
    var bindMounts := json.StringMap("bind_mounts", false);
    if bindMounts.Err? { return Err(bindMounts.error); }
    var cgroupPath := json.StringValue("cgroup_path", true);
    if cgroupPath.Err? { return Err(cgroupPath.error); }
    var memory := json.StringValue("memory", false);
    if memory.Err? { return Err(memory.error); }
    var cpu := json.StringValue("cpu", false);
    if cpu.Err? { return Err(cpu.error); }
    return Ok(RuntimeConfig(name.value, rootfs.value, hostname.value, workdir.value, command.value, env.value,
                            bindMounts.value, cgroupPath.value, memory.value, cpu.value));
  }

  function ErrorOf<T>(r: Result<T, Error>): Option<Error> { if r.Err? then Some(r.error) else None }

  /** What is wrong with the k-th field that is read; memory, cpu and bind_mounts may be missing. */
  function FieldError(t: string, k: nat): Option<Error> {
    match k
    case 0 => ErrorOf(StringField(t, "name", true))
    case 1 => ErrorOf(StringField(t, "rootfs", true))
    case 2 => ErrorOf(StringField(t, "hostname", true))
    case 3 => ErrorOf(StringField(t, "workdir", true))
    case 4 => ErrorOf(ArrayField(t, "command"))
    case 5 => ErrorOf(MapField(t, "env", true))
    case 6 => ErrorOf(MapField(t, "bind_mounts", false))
    case 7 => ErrorOf(StringField(t, "cgroup_path", true))
    case 8 => ErrorOf(StringField(t, "memory", false))
    case 9 => ErrorOf(StringField(t, "cpu", false))
    case _ => None
  }

  /** loadRuntimeConfig fails exactly with what is wrong with the first bad field. */
  lemma {:induction false} FirstFailure(t: string, k: nat)
    requires FieldError(t, k).Some? && forall j :: 0 <= j < k ==> FieldError(t, j).None?
    ensures Load(t) == Err(FieldError(t, k).value)
  {
    hide StringField, ArrayField, MapField;
    assert k > 0 ==> FieldError(t, 0).None?;
    assert k > 1 ==> FieldError(t, 1).None?;
    assert k > 2 ==> FieldError(t, 2).None?;
    assert k > 3 ==> FieldError(t, 3).None?;
    assert k > 4 ==> FieldError(t, 4).None?;
    assert k > 5 ==> FieldError(t, 5).None?;
    assert k > 6 ==> FieldError(t, 6).None?;
    assert k > 7 ==> FieldError(t, 7).None?;
    assert k > 8 ==> FieldError(t, 8).None?;
  }

  /** It succeeds when none is bad, and each field is the one of its name. */
  lemma {:induction false} NoFailure(t: string)
    requires forall k :: 0 <= k < 10 ==> FieldError(t, k).None?
    ensures Load(t).Ok?
    ensures var r := Load(t).value;
            && Ok(r.name) == StringField(t, "name", true) && Ok(r.rootfs) == StringField(t, "rootfs", true)
            && Ok(r.hostname) == StringField(t, "hostname", true) && Ok(r.workdir) == StringField(t, "workdir", true)
            && Ok(r.command) == ArrayField(t, "command") && Ok(r.env) == MapField(t, "env", true)
            && Ok(r.bindMounts) == MapField(t, "bind_mounts", false)
            && Ok(r.cgroupPath) == StringField(t, "cgroup_path", true)
            && Ok(r.memory) == StringField(t, "memory", false) && Ok(r.cpu) == StringField(t, "cpu", false)
  {
    hide StringField, ArrayField, MapField;
    assert FieldError(t, 0).None? && FieldError(t, 1).None? && FieldError(t, 2).None? && FieldError(t, 3).None? &&
           FieldError(t, 4).None? && FieldError(t, 5).None? && FieldError(t, 6).None? && FieldError(t, 7).None? &&
           FieldError(t, 8).None? && FieldError(t, 9).None?;
  }

  // ----- the tokens of a document are well behaved

  lemma {:induction false} ReadableJoin(a: seq<Token>, b: seq<Token>)
    requires TokensReadable(a) && TokensReadable(b)
    requires a != [] && b != [] && a[|a| - 1].Quoted? ==> b[0].Sym?
    ensures TokensReadable(a + b)
  {
    forall i | 0 <= i < |a + b|
      ensures Plain((a + b)[i]) && ((a + b)[i].Quoted? && i + 1 < |a + b| ==> (a + b)[i + 1].Sym?)
    {
      assert i < |a| ==> (a + b)[i] == a[i];
      assert i + 1 < |a| ==> (a + b)[i + 1] == a[i + 1];
      assert i >= |a| ==> (a + b)[i] == b[i - |a|];
      assert |a| <= i + 1 < |a + b| ==> (a + b)[i + 1] == b[i + 1 - |a|];
    }
  }

  lemma {:induction false} LiteralPlain(s: string)
    ensures Plain(Literal(s))
  {
    EscapeBody(s);
  }

  lemma {:induction false} ItemTokensReadable(items: seq<string>)
    ensures TokensReadable(ItemTokens(items))
  {
    if items != [] {
      LiteralPlain(items[0]);
      if |items| > 1 {
        ItemTokensReadable(items[1..]);
        ReadableJoin([Literal(items[0]), Sym(',')], ItemTokens(items[1..]));
      }
    }
  }

  lemma {:induction false} EntryTokensReadable(entries: seq<Entry>)
    ensures TokensReadable(EntryTokens(entries))
  {
    if entries != [] {
      LiteralPlain(entries[0].key);
      LiteralPlain(entries[0].value);
      var head := [Literal(entries[0].key), Sym(':'), Literal(entries[0].value)];
      assert TokensReadable(head);
      if |entries| > 1 {
        EntryTokensReadable(entries[1..]);
        ReadableJoin([Sym(',')], EntryTokens(entries[1..]));
        ReadableJoin(head, [Sym(',')] + EntryTokens(entries[1..]));
      } else {
        assert EntryTokens(entries) == head;
      }
    }
  }

  lemma {:induction false} ValueTokensReadable(v: Value)
    ensures TokensReadable(ValueTokens(v)) && ValueTokens(v) != []
  {
    match v {
      case Str(s) => LiteralPlain(s);
      case Null =>
      case Arr(items) =>
        ItemTokensReadable(items);
        ReadableJoin([Sym('[')], ItemTokens(items));
        ReadableJoin([Sym('[')] + ItemTokens(items), [Sym(']')]);
      case Obj(entries) =>
        EntryTokensReadable(entries);
        ReadableJoin([Sym('{')], EntryTokens(entries));
        ReadableJoin([Sym('{')] + EntryTokens(entries), [Sym('}')]);
    }
  }

  lemma {:induction false} FieldTokensReadable(fields: Fields)
    ensures TokensReadable(FieldTokens(fields))
  {
    if fields != [] {
      LiteralPlain(fields[0].0);
      ValueTokensReadable(fields[0].1);
      var head := [Literal(fields[0].0), Sym(':')];
      ReadableJoin(head, ValueTokens(fields[0].1));
      if |fields| > 1 {
        FieldTokensReadable(fields[1..]);
        ReadableJoin([Sym(',')], FieldTokens(fields[1..]));
        ReadableJoin(head + ValueTokens(fields[0].1), [Sym(',')] + FieldTokens(fields[1..]));
      } else {
        assert FieldTokens(fields) == head + ValueTokens(fields[0].1);
      }
    }
  }

  lemma {:induction false} LayoutReadable(ps: Pieces, fields: Fields)
    requires LayoutOf(ps, fields)
    ensures Readable(ps)
  {
    FieldTokensReadable(fields);
    ReadableJoin([Sym('{')], FieldTokens(fields));
    ReadableJoin([Sym('{')] + FieldTokens(fields), [Sym('}')]);
    var tail :| Spells(ps, DocTokens(fields), Tail(tail));
    SpelledReadable(ps, DocTokens(fields), Tail(tail));
  }

  // ----- one field of a document

  /** The tokens of the fields before field `f`, each with its comma. */
  function FieldsBefore(fields: Fields, f: nat): seq<Token>
    requires f <= |fields|
  {
    if f == 0 then []
    else
      [Literal(fields[0].0), Sym(':')] + ValueTokens(fields[0].1) + [Sym(',')] + FieldsBefore(fields[1..], f - 1)
  }

  /** All the tokens of the document before the key of field `f`. */
  function Before(fields: Fields, f: nat): seq<Token>
    requires f <= |fields|
  {
    [Sym('{')] + FieldsBefore(fields, f)
  }

  /** Field `f` stands at `field`: key, colon, value, and more after it. */
  predicate FieldAt(field: Pieces, key: string, v: Value, after: Pieces) {
    field.Next? && field.token == Literal(key) && field.rest.Next? && field.rest.token == Sym(':') &&
    Spells(field.rest.rest, ValueTokens(v), after)
  }

  /** The first field: its key, its value, and the comma when there are more. */
  lemma {:induction false} FirstField(ps: Pieces, fields: Fields, rest: Pieces) returns (comma: Pieces)
    requires fields != [] && Spells(ps, FieldTokens(fields), rest)
    ensures FieldAt(ps, fields[0].0, fields[0].1, comma)
    ensures Spells(ps, [Literal(fields[0].0), Sym(':')] + ValueTokens(fields[0].1), comma)
    ensures if |fields| == 1 then comma == rest
            else comma.Next? && comma.token == Sym(',') && Spells(comma.rest, FieldTokens(fields[1..]), rest)
  {
    var head, v := [Literal(fields[0].0), Sym(':')], fields[0].1;
    var more := if |fields| == 1 then [] else [Sym(',')] + FieldTokens(fields[1..]);
    assert FieldTokens(fields) == head + ValueTokens(v) + more;
    hide Literal, ValueTokens, FieldTokens, Spells;
    comma := SpellsSplit(ps, head + ValueTokens(v), more, rest);
    var value := SpellsSplit(ps, head, ValueTokens(v), comma);
    TwoSpelled(ps, head, value);
    if |fields| == 1 {
      SpellsNothing(comma, rest);
    } else {
      SpellsStep(comma, more, rest);
      assert more[1..] == FieldTokens(fields[1..]);
    }
  }

  lemma {:induction false} TwoSpelled(ps: Pieces, ts: seq<Token>, rest: Pieces)
    requires |ts| == 2 && Spells(ps, ts, rest)
    ensures ps.Next? && ps.token == ts[0] && ps.rest.Next? && ps.rest.token == ts[1] && ps.rest.rest == rest
  {
    hide Spells;
    SpellsStep(ps, ts, rest);
    SpellsStep(ps.rest, ts[1..], rest);
    assert ts[1..][1..] == [];
    SpellsNothing(ps.rest.rest, rest);
  }

  lemma {:induction false} FieldsSpelled(ps: Pieces, fields: Fields, f: nat, rest: Pieces)
    returns (field: Pieces, after: Pieces)
    requires f < |fields| && Spells(ps, FieldTokens(fields), rest)
    ensures Spells(ps, FieldsBefore(fields, f), field) && FieldAt(field, fields[f].0, fields[f].1, after)
    decreases f
  {
    hide Literal, ValueTokens, FieldTokens, Spells, FieldAt;
    var comma := FirstField(ps, fields, rest);
    hide FieldsBefore;
    if f == 0 {
      field, after := ps, comma;
      NoFieldBefore(ps, fields);
    } else {
      field, after := FieldsSpelled(comma.rest, fields[1..], f - 1, rest);
      BeforeJoin(ps, fields, f, comma, field);
    }
  }

  lemma {:induction false} BeforeJoin(ps: Pieces, fields: Fields, f: nat, comma: Pieces, field: Pieces)
    requires 0 < f <= |fields| && comma.Next? && comma.token == Sym(',')
    requires Spells(ps, [Literal(fields[0].0), Sym(':')] + ValueTokens(fields[0].1), comma)
    requires Spells(comma.rest, FieldsBefore(fields[1..], f - 1), field)
    ensures Spells(ps, FieldsBefore(fields, f), field)
  {
    hide Literal, ValueTokens, Spells;
    var head := [Literal(fields[0].0), Sym(':')] + ValueTokens(fields[0].1);
    OneSpelled(comma);
    SpellsJoin(ps, head, comma, [Sym(',')], comma.rest);
    SpellsJoin(ps, head + [Sym(',')], comma.rest, FieldsBefore(fields[1..], f - 1), field);
  }

  lemma NoFieldBefore(ps: Pieces, fields: Fields)
    ensures Spells(ps, FieldsBefore(fields, 0), ps)
  {
  }

  lemma {:induction false} OneSpelled(ps: Pieces)
    requires ps.Next?
    ensures Spells(ps, [ps.token], ps.rest)
  {
    assert [ps.token][1..] == [];
  }

  lemma {:induction false} FieldSpelled(ps: Pieces, fields: Fields, f: nat) returns (field: Pieces, after: Pieces)
    requires f < |fields| && LayoutOf(ps, fields)
    ensures Spells(ps, Before(fields, f), field) && FieldAt(field, fields[f].0, fields[f].1, after)
  {
    var tail :| Spells(ps, DocTokens(fields), Tail(tail));
    var body := [Sym('{')] + FieldTokens(fields);
    var close := SpellsSplit(ps, body, [Sym('}')], Tail(tail));
    var first := SpellsSplit(ps, [Sym('{')], FieldTokens(fields), close);
    field, after := FieldsSpelled(first, fields, f, close);
    SpellsJoin(ps, [Sym('{')], first, FieldsBefore(fields, f), field);
  }

  /** A literal before field `f` mimics its key, with a ':' between the two: the lookup goes astray. */
  predicate ShadowedField(fields: Fields, f: nat)
    requires f < |fields|
  {
    Shadowed(Before(fields, f), fields[f].0)
  }

  lemma ValueSolid(field: Pieces, key: string, v: Value, after: Pieces)
    requires FieldAt(field, key, v, after)
    ensures field.rest.rest.Next? && Solid(field.rest.rest.token)
    ensures field.rest.rest.token.First() ==
            match v case Str(_) => '"' case Null => 'n' case Arr(_) => '[' case Obj(_) => '{'
    ensures v.Null? ==> field.rest.rest.token == NullWord
  {
  }

  /** Whatever the layout, the lookup of a field's key lands on its value exactly when not shadowed. */
  lemma {:induction false} FieldLookup(ps: Pieces, fields: Fields, f: nat, required: bool)
    returns (field: Pieces, after: Pieces)
    requires f < |fields| && LayoutOf(ps, fields) && IsKeyName(fields[f].0)
    ensures FieldAt(field, fields[f].0, fields[f].1, after) && field.rest.rest.Next? && Spaced(field.rest.rest)
    ensures var t := Flat(ps); var value := field.rest.rest; var pos := PosOf(t, value) + |value.gap|;
            0 <= PosOf(t, value) && RestOf(t, PosOf(t, value), value) && pos < |t| &&
            (ValueStart(t, fields[f].0, required) == Ok(Some(pos)) <==> !ShadowedField(fields, f))
  {
    hide *;
    var key := fields[f].0;
    LayoutParts(ps, fields);
    WholeText(ps);
    field, after := FieldSpelled(ps, fields, f);
    FieldParts(field, key, fields[f].1, after);
    ValueSolid(field, key, fields[f].1, after);
    LookupExact(Flat(ps), ps, Before(fields, f), field, key, required);
    SpacedTail(ps, Before(fields, f), field);
    SpacedThird(field);
    ShadowedMeans(fields, f);
  }

  lemma {:induction false} ShadowedMeans(fields: Fields, f: nat)
    requires f < |fields|
    ensures ShadowedField(fields, f) <==> Shadowed(Before(fields, f), fields[f].0)
  {
    hide Shadowed, Before;
  }

  lemma {:induction false} FoundMeans(fields: Fields, f: nat)
    ensures Found(fields, f) <==> f < |fields| && !Shadowed(Before(fields, f), fields[f].0)
  {
    hide Shadowed, Before;
  }

  lemma {:induction false} LayoutParts(ps: Pieces, fields: Fields)
    requires LayoutOf(ps, fields)
    ensures Spaced(ps) && Readable(ps)
  {
    hide Spaced, Readable, Spells;
    LayoutReadable(ps, fields);
  }

  lemma {:induction false} FieldParts(field: Pieces, key: string, v: Value, after: Pieces)
    requires FieldAt(field, key, v, after) && IsKeyName(key)
    ensures field.Next? && field.token == Quoted(key) && field.rest.Next? && field.rest.token == Sym(':')
  {
    hide Spells;
    EscapeKeyName(key);
  }

  lemma {:induction false} SpacedThird(ps: Pieces)
    requires Spaced(ps) && ps.Next? && ps.rest.Next?
    ensures Spaced(ps.rest.rest)
  {
    assert Spaced(ps.rest);
  }

  // ----- what is read at the value of a field

  function RereadAll(items: seq<string>): (r: seq<string>)
    ensures |r| == |items| && forall i :: 0 <= i < |r| ==> r[i] == Reread(items[i])
  {
    if items == [] then [] else [Reread(items[0])] + RereadAll(items[1..])
  }

  function RereadEntries(entries: seq<Entry>): (r: seq<Entry>)
    ensures |r| == |entries|
    ensures forall i :: 0 <= i < |r| ==> r[i] == Entry(Reread(entries[i].key), Reread(entries[i].value))
  {
    hide Reread;
    if entries == [] then []
    else [Entry(Reread(entries[0].key), Reread(entries[0].value))] + RereadEntries(entries[1..])
  }

  lemma SpellsStep(ps: Pieces, ts: seq<Token>, rest: Pieces)
    requires ts != [] && Spells(ps, ts, rest)
    ensures ps.Next? && ps.token == ts[0] && Spells(ps.rest, ts[1..], rest)
  {
  }

  lemma SpellsNothing(ps: Pieces, rest: Pieces)
    requires Spells(ps, [], rest)
    ensures ps == rest
  {
  }

  lemma {:induction false} ItemsSpelled(ps: Pieces, items: seq<string>, rest: Pieces)
    requires Spells(ps, ItemTokens(items) + [Sym(']')], rest)
    ensures ItemList(ps, RereadAll(items), rest)
    decreases |items|
  {
    var ts := ItemTokens(items) + [Sym(']')];
    SpellsStep(ps, ts, rest);
    if items == [] {
      assert ts[1..] == [];
      SpellsNothing(ps.rest, rest);
    } else {
      LiteralDenotes(items[0]);
      SpellsStep(ps.rest, ts[1..], rest);
      if |items| == 1 {
        assert ts == [Literal(items[0]), Sym(']')] && ts[1..][1..] == [];
        SpellsNothing(ps.rest.rest, rest);
      } else {
        assert ts[1] == Sym(',') && ts[1..][1..] == ItemTokens(items[1..]) + [Sym(']')];
        ItemsSpelled(ps.rest.rest, items[1..], rest);
        assert RereadAll(items)[1..] == RereadAll(items[1..]);
      }
    }
  }

  /** One entry, then the tokens `more`. */
  lemma {:induction false} EntrySpelled(ps: Pieces, e: Entry, more: seq<Token>, rest: Pieces)
    requires Spells(ps, [Literal(e.key), Sym(':'), Literal(e.value)] + more, rest)
    ensures ps.Next? && ps.rest.Next? && ps.rest.rest.Next?
    ensures IsEntry(ps, Entry(Reread(e.key), Reread(e.value))) && Spells(ps.rest.rest.rest, more, rest)
  {
    hide Denotes;
    var ts := [Literal(e.key), Sym(':'), Literal(e.value)] + more;
    LiteralDenotes(e.key);
    LiteralDenotes(e.value);
    SpellsStep(ps, ts, rest);
    assert ts[1..] == [Sym(':'), Literal(e.value)] + more;
    SpellsStep(ps.rest, ts[1..], rest);
    assert ts[1..][1..] == [Literal(e.value)] + more;
    SpellsStep(ps.rest.rest, ts[1..][1..], rest);
    assert ts[1..][1..][1..] == more;
  }

  lemma {:induction false} EntriesSpelled(ps: Pieces, entries: seq<Entry>, rest: Pieces)
    requires Spells(ps, EntryTokens(entries) + [Sym('}')], rest)
    ensures EntryList(ps, RereadEntries(entries), rest)
    decreases |entries|
  {
    hide IsEntry;
    var ts := EntryTokens(entries) + [Sym('}')];
    if entries == [] {
      SpellsStep(ps, ts, rest);
      assert ts[1..] == [];
      SpellsNothing(ps.rest, rest);
    } else {
      var e := entries[0];
      var head := [Literal(e.key), Sym(':'), Literal(e.value)];
      var more := if |entries| == 1 then [Sym('}')] else [Sym(',')] + (EntryTokens(entries[1..]) + [Sym('}')]);
      assert ts == head + more;
      EntrySpelled(ps, e, more, rest);
      var sep := ps.rest.rest.rest;
      SpellsStep(sep, more, rest);
      if |entries| == 1 {
        assert more[1..] == [];
        SpellsNothing(sep.rest, rest);
      } else {
        assert more[1..] == EntryTokens(entries[1..]) + [Sym('}')];
        EntriesSpelled(sep.rest, entries[1..], rest);
        assert RereadEntries(entries)[1..] == RereadEntries(entries[1..]);
      }
    }
  }

  /** A value read as a string, as an array and as a map. */
  function AsString(v: Value): Result<string, Error> {
    match v
    case Str(s) => Ok(Reread(s))
    case Null => Ok("")
    case _ => Err(Expected('"'))
  }

  function AsArray(v: Value): Result<seq<string>, Error> {
    if v.Arr? then Ok(RereadAll(v.items)) else Err(Expected('['))
  }

  function AsMap(v: Value): Result<map<string, string>, Error> {
    if v.Obj? then Ok(MapOf(RereadEntries(v.entries))) else Err(Expected('{'))
  }

  /** Whatever is expected there, the reader sees the value at this position. */
  predicate ReadsAs(t: string, pos: nat, v: Value) {
    StringAt(t, pos) == AsString(v) && ArrayAt(t, pos) == AsArray(v) && MapAt(t, pos) == AsMap(v)
  }

  lemma {:induction false} NotNull(t: string, pos: nat)
    requires pos < |t| && t[pos] != 'n'
    ensures !HasAt(t, pos, "null")
  {
    if HasAt(t, pos, "null") {
      HasAtChar(t, pos, "null", 0);
    }
  }

  lemma NoString(t: string, pos: nat)
    requires pos < |t| && t[pos] != '"'
    ensures ScanString(t, pos) == Err(Expected('"'))
  {
  }

  lemma {:induction false} ValueRead(t: string, p: nat, ps: Pieces, v: Value, after: Pieces)
    requires HasAt(t, p, Flat(ps)) && Spaced(ps) && Spells(ps, ValueTokens(v), after)
    ensures ReadsAs(t, p + |ps.gap|, v)
  {
    hide HasAt, Flat, ItemTokens, EntryTokens, ScanString, ScanItems, ScanEntries, RereadAll, RereadEntries,
      Reread, MapOf, Skip;
    SpellsStep(ps, ValueTokens(v), after);
    assert Solid(ps.token) && (ps.Next? ==> Spaced(ps.rest));
    hide Spaced, Solid, Spells, Denotes, ItemList, EntryList;
    FirstPiece(t, p, ps);
    var pos := p + |ps.gap|;
    match v {
      case Str(s) =>
        LiteralDenotes(s);
        NotNull(t, pos);
        LiteralScan(t, pos, ps.token, Reread(s));
      case Null =>
      case Arr(items) =>
        NotNull(t, pos);
        NoString(t, pos);
        assert ValueTokens(v)[1..] == ItemTokens(items) + [Sym(']')];
        ItemsSpelled(ps.rest, items, after);
        ItemsScan(t, pos + 1, ps.rest, RereadAll(items), after, []);
        assert [] + RereadAll(items) == RereadAll(items);
      case Obj(entries) =>
        NotNull(t, pos);
        NoString(t, pos);
        assert ValueTokens(v)[1..] == EntryTokens(entries) + [Sym('}')];
        EntriesSpelled(ps.rest, entries, after);
        EntriesScan(t, pos + 1, ps.rest, RereadEntries(entries), after, []);
        assert [] + RereadEntries(entries) == RereadEntries(entries);
    }
  }

  // ----- the whole file

  /** What the reader makes of a configuration when every key is found. */
  function RereadConfig(config: AxisConfig, rootfs: string, id: string): RuntimeConfig {
    RuntimeConfig(
      Reread(config.name), Reread(rootfs), Reread(config.ResolvedHostname()), Reread(config.workdir),
      RereadAll(config.command), MapOf(RereadEntries(config.env)),
      MapOf(RereadEntries(VolumeDict(config.volumes))), Reread("/sys/fs/cgroup/axis/" + id),
      if config.memory.Some? then Reread(config.memory.value) else "",
      if config.cpu.Some? then Reread(config.cpu.value) else "")
  }

  /** Field `f` is read back from its own value. */
  predicate Found(fields: Fields, f: nat) { f < |fields| && !ShadowedField(fields, f) }

  /** No key that the runtime looks up is shadowed (it never looks up "ports" and "restart"). */
  predicate AllFound(fields: Fields) {
    |fields| == 12 && forall f :: 0 <= f < 12 && f != 6 && f != 8 ==> Found(fields, f)
  }

  lemma {:induction false} FieldReads(ps: Pieces, fields: Fields, f: nat, required: bool)
    requires LayoutOf(ps, fields) && Found(fields, f) && IsKeyName(fields[f].0)
    ensures var v := ValueStart(Flat(ps), fields[f].0, required);
            v.Ok? && v.value.Some? && ReadsAs(Flat(ps), v.value.value, fields[f].1)
  {
    hide Flat, HasAt, Spaced, Spells, ValueStart, IsKeyName, LayoutOf, ReadsAs;
    var field, after := FieldLookup(ps, fields, f, required);
    var value := field.rest.rest;
    ValueRead(Flat(ps), PosOf(Flat(ps), value), value, fields[f].1, after);
  }

  lemma {:induction false} StringReads(ps: Pieces, fields: Fields, f: nat, key: string, v: Value, required: bool)
    requires LayoutOf(ps, fields) && Found(fields, f) && IsKeyName(key) && fields[f] == (key, v)
    requires v.Str? || v.Null?
    ensures StringField(Flat(ps), key, required) == Ok(if v.Str? then Reread(v.s) else "")
  {
    hide Flat, LayoutOf, ValueStart, IsKeyName, Reread, StringAt, Found;
    FieldReads(ps, fields, f, required);
  }

  lemma {:induction false} ArrayReads(ps: Pieces, fields: Fields, f: nat, key: string, items: seq<string>)
    requires LayoutOf(ps, fields) && Found(fields, f) && IsKeyName(key) && fields[f] == (key, Arr(items))
    ensures ArrayField(Flat(ps), key) == Ok(RereadAll(items))
  {
    hide Flat, LayoutOf, ValueStart, IsKeyName, RereadAll, ArrayAt, Found;
    FieldReads(ps, fields, f, true);
  }

  lemma {:induction false} MapReads(
    ps: Pieces, fields: Fields, f: nat, key: string, entries: seq<Entry>, required: bool)
    requires LayoutOf(ps, fields) && Found(fields, f) && IsKeyName(key) && fields[f] == (key, Obj(entries))
    ensures MapField(Flat(ps), key, required) == Ok(MapOf(RereadEntries(entries)))
  {
    hide Flat, LayoutOf, ValueStart, IsKeyName, RereadEntries, MapAt, MapOf, Found;
    FieldReads(ps, fields, f, required);
  }

  lemma KeyNames()
    ensures IsKeyName("name") && IsKeyName("rootfs") && IsKeyName("hostname") && IsKeyName("workdir")
    ensures IsKeyName("command") && IsKeyName("env") && IsKeyName("bind_mounts") && IsKeyName("cgroup_path")
    ensures IsKeyName("memory") && IsKeyName("cpu")
  {
  }

  /** The first six fields. */
  lemma {:induction false} FirstReads(ps: Pieces, config: AxisConfig, rootfs: string, id: string)
    requires LayoutOf(ps, RuntimeFields(config, rootfs, id)) && AllFound(RuntimeFields(config, rootfs, id))
    ensures StringField(Flat(ps), "name", true) == Ok(Reread(config.name))
    ensures StringField(Flat(ps), "rootfs", true) == Ok(Reread(rootfs))
    ensures StringField(Flat(ps), "hostname", true) == Ok(Reread(config.ResolvedHostname()))
    ensures StringField(Flat(ps), "workdir", true) == Ok(Reread(config.workdir))
    ensures ArrayField(Flat(ps), "command") == Ok(RereadAll(config.command))
    ensures MapField(Flat(ps), "env", true) == Ok(MapOf(RereadEntries(config.env)))
  {
    hide *;
    KeyNames();
    FirstFields(config, rootfs, id);
    var fields := RuntimeFields(config, rootfs, id);
    StringReads(ps, fields, 0, "name", Str(config.name), true);
    StringReads(ps, fields, 1, "rootfs", Str(rootfs), true);
    StringReads(ps, fields, 2, "hostname", Str(config.ResolvedHostname()), true);
    StringReads(ps, fields, 3, "workdir", Str(config.workdir), true);
    ArrayReads(ps, fields, 4, "command", config.command);
    MapReads(ps, fields, 5, "env", config.env, true);
  }

  lemma FirstFields(config: AxisConfig, rootfs: string, id: string)
    ensures var fields := RuntimeFields(config, rootfs, id);
            |fields| == 12 && fields[0] == ("name", Str(config.name)) && fields[1] == ("rootfs", Str(rootfs)) &&
            fields[2] == ("hostname", Str(config.ResolvedHostname())) &&
            fields[3] == ("workdir", Str(config.workdir)) && fields[4] == ("command", Arr(config.command)) &&
            fields[5] == ("env", Obj(config.env))
    ensures AllFound(RuntimeFields(config, rootfs, id)) ==>
              forall f :: 0 <= f < 6 ==> Found(RuntimeFields(config, rootfs, id), f)
  {
  }

  lemma LastFields(config: AxisConfig, rootfs: string, id: string)
    ensures var fields := RuntimeFields(config, rootfs, id);
            |fields| == 12 && fields[7] == ("bind_mounts", Obj(VolumeDict(config.volumes))) &&
            fields[9] == ("cgroup_path", Str("/sys/fs/cgroup/axis/" + id)) &&
            fields[10] == ("memory", Optional(config.memory)) && fields[11] == ("cpu", Optional(config.cpu))
    ensures AllFound(RuntimeFields(config, rootfs, id)) ==>
              forall f :: f == 7 || 9 <= f < 12 ==> Found(RuntimeFields(config, rootfs, id), f)
  {
  }

  /** The other four. */
  lemma {:induction false} LastReads(ps: Pieces, config: AxisConfig, rootfs: string, id: string)
    requires LayoutOf(ps, RuntimeFields(config, rootfs, id)) && AllFound(RuntimeFields(config, rootfs, id))
    ensures MapField(Flat(ps), "bind_mounts", false) == Ok(MapOf(RereadEntries(VolumeDict(config.volumes))))
    ensures StringField(Flat(ps), "cgroup_path", true) == Ok(Reread("/sys/fs/cgroup/axis/" + id))
    ensures StringField(Flat(ps), "memory", false) ==
            Ok(if config.memory.Some? then Reread(config.memory.value) else "")
    ensures StringField(Flat(ps), "cpu", false) == Ok(if config.cpu.Some? then Reread(config.cpu.value) else "")
  {
    hide Flat, LayoutOf, Found, Reread, RereadEntries, MapOf, StringField, MapField, VolumeDict, RuntimeFields,
      IsKeyName, AllFound;
    KeyNames();
    LastFields(config, rootfs, id);
    var fields := RuntimeFields(config, rootfs, id);
    MapReads(ps, fields, 7, "bind_mounts", VolumeDict(config.volumes), false);
    StringReads(ps, fields, 9, "cgroup_path", Str("/sys/fs/cgroup/axis/" + id), true);
    StringReads(ps, fields, 10, "memory", Optional(config.memory), false);
    StringReads(ps, fields, 11, "cpu", Optional(config.cpu), false);
  }

  /**
    Whatever whitespace stands between the tokens, and whatever the strings are: when no key is
    shadowed, the file loads and every field is the field written, character by character reread.
   */
  lemma {:induction false} LoadAnyLayout(ps: Pieces, config: AxisConfig, rootfs: string, id: string)
    requires LayoutOf(ps, RuntimeFields(config, rootfs, id)) && AllFound(RuntimeFields(config, rootfs, id))
    ensures Load(Flat(ps)) == Ok(RereadConfig(config, rootfs, id))
  {
    hide Flat, LayoutOf, Found, Reread, RereadAll, RereadEntries, MapOf, StringField, ArrayField, MapField, VolumeDict,
      RuntimeFields, AllFound;
    FirstReads(ps, config, rootfs, id);
    LastReads(ps, config, rootfs, id);
  }

  lemma {:induction false} LoadPrinted(config: AxisConfig, rootfs: string, id: string)
    requires AllFound(RuntimeFields(config, rootfs, id))
    ensures Load(Dumps(RuntimeFields(config, rootfs, id))) == Ok(RereadConfig(config, rootfs, id))
  {
    hide Load, RereadConfig, AllFound, RuntimeFields;
    DumpsIsLayout(RuntimeFields(config, rootfs, id));
    LoadAnyLayout(DocPieces(RuntimeFields(config, rootfs, id)), config, rootfs, id);
  }

  // ----- the round trip

  /** The configuration as the runtime is meant to see it: None read as the empty string. */
  function Intended(config: AxisConfig, rootfs: string, id: string): RuntimeConfig {
    RuntimeConfig(
      config.name, rootfs, config.ResolvedHostname(), config.workdir, config.command, MapOf(config.env),
      VolumeMap(config.volumes), "/sys/fs/cgroup/axis/" + id,
      if config.memory.Some? then config.memory.value else "", if config.cpu.Some? then config.cpu.value else "")
  }

  predicate KeptMap(m: map<string, string>) { forall k :: k in m ==> AllKept(k) && AllKept(m[k]) }

  /** Every string has only characters 0x20-0x7E, newlines and tabs. */
  predicate KeptConfig(r: RuntimeConfig) {
    AllKept(r.name) && AllKept(r.rootfs) && AllKept(r.hostname) && AllKept(r.workdir) &&
    (forall i :: 0 <= i < |r.command| ==> AllKept(r.command[i])) && KeptMap(r.env) && KeptMap(r.bindMounts) &&
    AllKept(r.cgroupPath) && AllKept(r.memory) && AllKept(r.cpu)
  }

  lemma {:induction false} EntriesKept(entries: seq<Entry>)
    ensures KeptMap(MapOf(RereadEntries(entries)))
  {
    var es := RereadEntries(entries);
    forall i | 0 <= i < |es| ensures AllKept(es[i].key) && AllKept(es[i].value) {
      RereadKept(entries[i].key);
      RereadKept(entries[i].value);
    }
    MapKept(es);
  }

  lemma {:induction false} MapKept(es: seq<Entry>)
    requires forall i :: 0 <= i < |es| ==> AllKept(es[i].key) && AllKept(es[i].value)
    ensures KeptMap(MapOf(es))
  {
    if es != [] {
      MapKept(es[..|es| - 1]);
    }
  }

  lemma {:induction false} KeptEntries(entries: seq<Entry>)
    requires DistinctKeys(entries) && KeptMap(MapOf(entries))
    ensures RereadEntries(entries) == entries
  {
    MapOfDistinct(entries);
    forall i | 0 <= i < |entries| ensures RereadEntries(entries)[i] == entries[i] {
      KeptReread(entries[i].key);
      KeptReread(entries[i].value);
    }
  }

  lemma {:induction false} RereadIsKept(config: AxisConfig, rootfs: string, id: string)
    ensures KeptConfig(RereadConfig(config, rootfs, id))
  {
    assert AllKept("");
    hide Reread, AllKept, MapOf, KeptMap;
    RereadKept(config.name);
    RereadKept(rootfs);
    RereadKept(config.ResolvedHostname());
    RereadKept(config.workdir);
    forall i | 0 <= i < |config.command| ensures AllKept(RereadAll(config.command)[i]) {
      RereadKept(config.command[i]);
    }
    EntriesKept(config.env);
    EntriesKept(VolumeDict(config.volumes));
    RereadKept("/sys/fs/cgroup/axis/" + id);
    if config.memory.Some? {
      RereadKept(config.memory.value);
    }
    if config.cpu.Some? {
      RereadKept(config.cpu.value);
    }
  }

  lemma {:induction false} KeptIsReread(config: AxisConfig, rootfs: string, id: string)
    requires DistinctKeys(config.env) && KeptConfig(Intended(config, rootfs, id))
    ensures RereadConfig(config, rootfs, id) == Intended(config, rootfs, id)
  {
    hide Reread, AllKept, MapOf, KeptMap;
    KeptReread(config.name);
    KeptReread(rootfs);
    KeptReread(config.ResolvedHostname());
    KeptReread(config.workdir);
    forall i | 0 <= i < |config.command| ensures RereadAll(config.command)[i] == config.command[i] {
      KeptReread(config.command[i]);
    }
    assert RereadAll(config.command) == config.command;
    KeptEntries(config.env);
    VolumeDictMap(config.volumes);
    KeptEntries(VolumeDict(config.volumes));
    KeptReread("/sys/fs/cgroup/axis/" + id);
    if config.memory.Some? {
      KeptReread(config.memory.value);
    }
    if config.cpu.Some? {
      KeptReread(config.cpu.value);
    }
  }

  /**
    The round trip: when no key is shadowed, the printed file loads as the intended configuration
    if and only if its strings are made of 0x20-0x7E, newline and tab.
   */
  lemma {:induction false} RoundTrip(config: AxisConfig, rootfs: string, id: string)
    requires DistinctKeys(config.env) && AllFound(RuntimeFields(config, rootfs, id))
    ensures Load(Dumps(RuntimeFields(config, rootfs, id))) == Ok(Intended(config, rootfs, id)) <==>
            KeptConfig(Intended(config, rootfs, id))
  {
    hide Load, RereadConfig, Intended, KeptConfig, AllFound, RuntimeFields;
    LoadPrinted(config, rootfs, id);
    RereadIsKept(config, rootfs, id);
    if KeptConfig(Intended(config, rootfs, id)) {
      KeptIsReread(config, rootfs, id);
    }
  }

  // ----- shadowing, in terms of the strings of the document

  /** The string whose printed form ends in `"k"`. */
  predicate KeyLike(s: string, k: string) { s == k || EndsWith(s, "\"" + k) }

  lemma {:induction false} LiteralIsKey(s: string, k: string)
    requires IsKeyName(k)
    ensures IsKey(Literal(s), k) <==> KeyLike(s, k)
  {
    MimicsEscape(s, k);
  }

  lemma {:induction false} DumpsFlat(fields: Fields)
    ensures Dumps(fields) == Flat(DocPieces(fields))
  {
    hide Flat, DocPieces;
  }

  /** In a printed document `"k"` stands only, and always, where a key-like string ends. */
  lemma {:induction false} PrintedKeys(fields: Fields, k: string, q: nat)
    requires IsKeyName(k) && q + |k| + 2 <= |Dumps(fields)|
    ensures HasAt(Dumps(fields), q, QuotedKey(k)) <==>
            KeyLiteralEnds(DocPieces(fields), k, |Dumps(fields)| - (q + |k| + 2))
  {
    hide *;
    var ps := DocPieces(fields);
    DumpsFlat(fields);
    DumpsIsLayout(fields);
    LayoutParts(ps, fields);
    WholeText(ps);
    KeyOccurrences(Flat(ps), 0, ps, k, q);
  }

  /** The tokens of the entries before entry `j`, each with its comma. */
  function EntriesBefore(entries: seq<Entry>, j: nat): seq<Token>
    requires j <= |entries|
  {
    if j == 0 then []
    else
      [Literal(entries[0].key), Sym(':'), Literal(entries[0].value)] + ([Sym(',')] + EntriesBefore(entries[1..], j - 1))
  }

  lemma {:induction false} EntryTokensSplit(entries: seq<Entry>, more: seq<Token>)
    requires entries != []
    ensures EntryTokens(entries) + more ==
            [Literal(entries[0].key), Sym(':'), Literal(entries[0].value)] +
            (if |entries| == 1 then more else [Sym(',')] + (EntryTokens(entries[1..]) + more))
  {
    hide Literal;
  }

  lemma {:induction false} EntrySplit(ps: Pieces, entries: seq<Entry>, j: nat, more: seq<Token>, rest: Pieces)
    returns (entry: Pieces)
    requires j < |entries| && Spells(ps, EntryTokens(entries) + more, rest)
    ensures Spells(ps, EntriesBefore(entries, j), entry)
    ensures entry.Next? && entry.rest.Next? && entry.rest.rest.Next?
    ensures entry.token == Literal(entries[j].key) && entry.rest.token == Sym(':')
    ensures entry.rest.rest.token == Literal(entries[j].value)
    decreases j
  {
    hide *;
    var next := FirstEntry(ps, entries, more, rest);
    if j == 0 {
      entry := ps;
      NoneBefore(ps, entries);
    } else {
      entry := EntrySplit(next.rest, entries[1..], j - 1, more, rest);
      OneBefore(ps, entries, j, next, entry);
    }
  }

  /** The first entry, and the comma when there are more. */
  lemma {:induction false} FirstEntry(ps: Pieces, entries: seq<Entry>, more: seq<Token>, rest: Pieces)
    returns (next: Pieces)
    requires entries != [] && Spells(ps, EntryTokens(entries) + more, rest)
    ensures Spells(ps, [Literal(entries[0].key), Sym(':'), Literal(entries[0].value)], next)
    ensures ps.Next? && ps.rest.Next? && ps.rest.rest.Next?
    ensures ps.token == Literal(entries[0].key) && ps.rest.token == Sym(':')
    ensures ps.rest.rest.token == Literal(entries[0].value)
    ensures |entries| > 1 ==>
              next.Next? && next.token == Sym(',') && Spells(next.rest, EntryTokens(entries[1..]) + more, rest)
  {
    var head := [Literal(entries[0].key), Sym(':'), Literal(entries[0].value)];
    var tail := if |entries| == 1 then more else [Sym(',')] + (EntryTokens(entries[1..]) + more);
    EntryTokensSplit(entries, more);
    hide Spells, EntryTokens, Literal;
    next := SpellsSplit(ps, head, tail, rest);
    ThreeTokens(ps, head, next);
    if |entries| > 1 {
      SpellsStep(next, tail, rest);
      assert tail[1..] == EntryTokens(entries[1..]) + more;
    }
  }

  lemma {:induction false} NoneBefore(ps: Pieces, entries: seq<Entry>)
    ensures Spells(ps, EntriesBefore(entries, 0), ps)
  {
  }

  lemma {:induction false} OneBefore(ps: Pieces, entries: seq<Entry>, j: nat, next: Pieces, entry: Pieces)
    requires 0 < j < |entries| && next.Next? && next.token == Sym(',')
    requires Spells(ps, [Literal(entries[0].key), Sym(':'), Literal(entries[0].value)], next)
    requires Spells(next.rest, EntriesBefore(entries[1..], j - 1), entry)
    ensures Spells(ps, EntriesBefore(entries, j), entry)
  {
    var head := [Literal(entries[0].key), Sym(':'), Literal(entries[0].value)];
    var before := EntriesBefore(entries[1..], j - 1);
    assert EntriesBefore(entries, j) == head + ([Sym(',')] + before);
    hide Spells, EntriesBefore, Literal;
    OneSpelled(next);
    SpellsJoin(next, [Sym(',')], next.rest, before, entry);
    SpellsJoin(ps, head, next, [Sym(',')] + before, entry);
  }

  lemma {:induction false} ThreeTokens(ps: Pieces, ts: seq<Token>, rest: Pieces)
    requires |ts| == 3 && Spells(ps, ts, rest)
    ensures ps.Next? && ps.rest.Next? && ps.rest.rest.Next?
    ensures ps.token == ts[0] && ps.rest.token == ts[1] && ps.rest.rest.token == ts[2]
  {
    SpellsStep(ps, ts, rest);
    SpellsStep(ps.rest, ts[1..], rest);
    SpellsStep(ps.rest.rest, ts[1..][1..], rest);
  }

  /** The tokens before entry `j` of the map in field `f`. */
  function BeforeEntry(fields: Fields, f: nat, entries: seq<Entry>, j: nat): seq<Token>
    requires f < |fields| && j <= |entries|
  {
    Before(fields, f) + [Literal(fields[f].0), Sym(':'), Sym('{')] + EntriesBefore(entries, j)
  }

  /** Where entry `j` of the map in field `f` stands. */
  lemma {:induction false} MapEntrySpelled(ps: Pieces, fields: Fields, f: nat, entries: seq<Entry>, j: nat)
    returns (entry: Pieces)
    requires LayoutOf(ps, fields) && f < |fields| && fields[f].1 == Obj(entries) && j < |entries|
    ensures Spells(ps, BeforeEntry(fields, f, entries, j), entry)
    ensures entry.Next? && entry.rest.Next? && entry.rest.rest.Next?
    ensures entry.token == Literal(entries[j].key) && entry.rest.token == Sym(':')
    ensures entry.rest.rest.token == Literal(entries[j].value)
  {
    hide LayoutOf, EntryTokens, EntriesBefore, Before, Literal;
    var field, after := FieldSpelled(ps, fields, f);
    var head := [Literal(fields[f].0), Sym(':'), Sym('{')];
    var value := field.rest.rest;
    SpellsStep(value, ValueTokens(fields[f].1), after);
    assert ValueTokens(fields[f].1)[1..] == EntryTokens(entries) + [Sym('}')];
    SpellsThree(field);
    hide Spells, ValueTokens;
    entry := EntrySplit(value.rest, entries, j, [Sym('}')], after);
    SpellsJoin(ps, Before(fields, f), field, head, value.rest);
    SpellsJoin(ps, Before(fields, f) + head, value.rest, EntriesBefore(entries, j), entry);
  }

  /**
    The failing family: an environment entry named like a key that is printed later is what the
    lookup of that key finds, whatever value that later field has.
   */
  lemma {:induction false} EntryWins(
    ps: Pieces, fields: Fields, f: nat, entries: seq<Entry>, j: nat, required: bool)
    requires LayoutOf(ps, fields) && f < |fields| && fields[f].1 == Obj(entries) && j < |entries|
    requires IsKeyName(entries[j].key) && !Shadowed(BeforeEntry(fields, f, entries, j), entries[j].key)
    ensures StringField(Flat(ps), entries[j].key, required) == Ok(Reread(entries[j].value))
  {
    var e := entries[j];
    KeyLiteral(e.key);
    hide *;
    var entry := MapEntrySpelled(ps, fields, f, entries, j);
    EntryRead(ps, fields, BeforeEntry(fields, f, entries, j), entry, e, required);
  }

  lemma {:induction false} KeyLiteral(k: string)
    requires IsKeyName(k)
    ensures Literal(k) == Quoted(k)
  {
    EscapeKeyName(k);
  }

  lemma {:induction false} EntryRead(
    ps: Pieces, fields: Fields, before: seq<Token>, entry: Pieces, e: Entry, required: bool)
    requires LayoutOf(ps, fields) && Spells(ps, before, entry)
    requires entry.Next? && entry.rest.Next? && entry.rest.rest.Next?
    requires entry.token == Quoted(e.key) && entry.rest.token == Sym(':') && entry.rest.rest.token == Literal(e.value)
    requires IsKeyName(e.key) && !Shadowed(before, e.key)
    ensures StringField(Flat(ps), e.key, required) == Ok(Reread(e.value))
  {
    hide *;
    var t := Flat(ps);
    LayoutParts(ps, fields);
    LiteralSolid(e.value);
    WholeText(ps);
    LookupExact(t, ps, before, entry, e.key, required);
    SpacedTail(ps, before, entry);
    SpacedThird(entry);
    RestHas(t, PosOf(t, entry.rest.rest), entry.rest.rest);
    EntryValueRead(t, PosOf(t, entry.rest.rest), entry.rest.rest, e.value);
    FieldFrom(t, e.key, required, PosOf(t, entry.rest.rest) + |entry.rest.rest.gap|);
  }

  lemma LiteralSolid(s: string)
    ensures Solid(Literal(s))
  {
  }

  lemma RestHas(t: string, p: nat, ps: Pieces)
    requires RestOf(t, p, ps)
    ensures HasAt(t, p, Flat(ps))
  {
  }

  lemma {:induction false} FieldFrom(t: string, key: string, required: bool, pos: nat)
    requires ValueStart(t, key, required) == Ok(Some(pos))
    ensures StringField(t, key, required) == StringAt(t, pos)
  {
    hide ValueStart, StringAt;
  }

  lemma {:induction false} EntryValueRead(t: string, p: nat, ps: Pieces, s: string)
    requires HasAt(t, p, Flat(ps)) && Spaced(ps) && ps.Next? && ps.token == Literal(s)
    ensures StringAt(t, p + |ps.gap|) == Ok(Reread(s))
  {
    assert [Literal(s)][1..] == [];
    ValueRead(t, p, ps, Str(s), ps.rest);
  }

  // ----- a condition on the strings alone

  predicate FreeValue(v: Value, k: string) {
    match v
    case Str(s) => !KeyLike(s, k)
    case Null => true
    case Arr(items) => forall i :: 0 <= i < |items| ==> !KeyLike(items[i], k)
    case Obj(entries) => forall i :: 0 <= i < |entries| ==> !KeyLike(entries[i].key, k) && !KeyLike(entries[i].value, k)
  }

  /** No string printed before field `f` is the key `k` or ends in a quote followed by it. */
  predicate FreeBefore(fields: Fields, f: nat, k: string)
    requires f <= |fields|
  {
    forall i :: 0 <= i < f ==> !KeyLike(fields[i].0, k) && FreeValue(fields[i].1, k)
  }

  predicate NoKey(ts: seq<Token>, k: string) { forall i :: 0 <= i < |ts| ==> !IsKey(ts[i], k) }

  lemma {:induction false} ItemsFree(items: seq<string>, k: string)
    requires IsKeyName(k) && FreeValue(Arr(items), k)
    ensures NoKey(ItemTokens(items), k)
  {
    if items != [] {
      LiteralIsKey(items[0], k);
      ItemsFree(items[1..], k);
    }
  }

  lemma {:induction false} EntriesFree(entries: seq<Entry>, k: string)
    requires IsKeyName(k) && FreeValue(Obj(entries), k)
    ensures NoKey(EntryTokens(entries), k)
  {
    hide IsKey, Literal;
    if entries != [] {
      LiteralIsKey(entries[0].key, k);
      LiteralIsKey(entries[0].value, k);
      SymNoKey(':', k);
      SymNoKey(',', k);
      EntriesFree(entries[1..], k);
    }
  }

  lemma SymNoKey(c: char, k: string)
    ensures !IsKey(Sym(c), k) && !IsKey(NullWord, k)
  {
  }

  lemma {:induction false} NoKeyJoin(a: seq<Token>, b: seq<Token>, k: string)
    requires NoKey(a, k) && NoKey(b, k)
    ensures NoKey(a + b, k)
  {
    hide IsKey;
  }

  lemma {:induction false} ValueFree(v: Value, k: string)
    requires IsKeyName(k) && FreeValue(v, k)
    ensures NoKey(ValueTokens(v), k)
  {
    match v {
      case Str(s) => LiteralIsKey(s, k);
      case Null =>
      case Arr(items) =>
        ItemsFree(items, k);
        NoKeyJoin([Sym('[')], ItemTokens(items), k);
        NoKeyJoin([Sym('[')] + ItemTokens(items), [Sym(']')], k);
      case Obj(entries) =>
        EntriesFree(entries, k);
        NoKeyJoin([Sym('{')], EntryTokens(entries), k);
        NoKeyJoin([Sym('{')] + EntryTokens(entries), [Sym('}')], k);
    }
  }

  lemma {:induction false} FreeTail(fields: Fields, f: nat, k: string)
    requires 0 < f <= |fields| && FreeBefore(fields, f, k)
    ensures FreeBefore(fields[1..], f - 1, k)
  {
    hide FreeValue, KeyLike;
    assert forall i :: 0 <= i < f - 1 ==> fields[1..][i] == fields[i + 1];
  }

  lemma {:induction false} FieldsFree(fields: Fields, f: nat, k: string)
    requires IsKeyName(k) && f <= |fields| && FreeBefore(fields, f, k)
    ensures NoKey(FieldsBefore(fields, f), k)
    decreases f
  {
    hide IsKey, Literal, ValueTokens, FreeValue, KeyLike, IsKeyName;
    if f > 0 {
      var head, value := [Literal(fields[0].0), Sym(':')], ValueTokens(fields[0].1);
      FreeTail(fields, f, k);
      SymNoKey(':', k);
      SymNoKey(',', k);
      LiteralIsKey(fields[0].0, k);
      ValueFree(fields[0].1, k);
      FieldsFree(fields[1..], f - 1, k);
      NoKeyJoin(head, value, k);
      NoKeyJoin(head + value, [Sym(',')], k);
      NoKeyJoin(head + value + [Sym(',')], FieldsBefore(fields[1..], f - 1), k);
    }
  }

  lemma {:induction false} BeforeFree(fields: Fields, f: nat, k: string)
    requires IsKeyName(k) && f <= |fields| && FreeBefore(fields, f, k)
    ensures NoKey(Before(fields, f), k)
  {
    hide IsKey, IsKeyName, FreeBefore, FieldsBefore;
    FieldsFree(fields, f, k);
    SymNoKey('{', k);
    NoKeyJoin([Sym('{')], FieldsBefore(fields, f), k);
  }

  lemma {:induction false} NoKeyUnshadowed(ts: seq<Token>, k: string)
    requires NoKey(ts, k)
    ensures !Shadowed(ts, k)
  {
    hide IsKey;
  }

  /** Nothing shadows the key `k` before the first entry of the map in field `f`. */
  lemma {:induction false} FreeEntry(fields: Fields, f: nat, entries: seq<Entry>, k: string)
    requires IsKeyName(k) && f < |fields| && FreeBefore(fields, f, k) && !KeyLike(fields[f].0, k)
    ensures NoKey(BeforeEntry(fields, f, entries, 0), k) && !Shadowed(BeforeEntry(fields, f, entries, 0), k)
  {
    hide IsKey, IsKeyName, FreeBefore, KeyLike, Before, Literal, Shadowed;
    var head := [Literal(fields[f].0), Sym(':'), Sym('{')];
    BeforeFree(fields, f, k);
    LiteralIsKey(fields[f].0, k);
    SymNoKey(':', k);
    SymNoKey('{', k);
    NoKeyJoin(Before(fields, f), head, k);
    assert BeforeEntry(fields, f, entries, 0) == Before(fields, f) + head;
    NoKeyUnshadowed(Before(fields, f) + head, k);
  }

  /** A key is found when no string printed before its field is like it. */
  lemma {:induction false} FreeIsFound(fields: Fields, f: nat)
    requires f < |fields| && IsKeyName(fields[f].0) && FreeBefore(fields, f, fields[f].0)
    ensures Found(fields, f)
  {
    hide *;
    BeforeFree(fields, f, fields[f].0);
    NoKeyUnshadowed(Before(fields, f), fields[f].0);
    FoundMeans(fields, f);
  }

  /** Every key that is looked up is free: no string printed before it is the key or ends in a quote and the key. */
  predicate FreeConfig(config: AxisConfig, rootfs: string, id: string) {
    var fields := RuntimeFields(config, rootfs, id);
    |fields| == 12 && forall f :: 0 <= f < 12 && f != 6 && f != 8 ==> FreeBefore(fields, f, fields[f].0)
  }

  lemma {:induction false} FreeAllFound(config: AxisConfig, rootfs: string, id: string)
    requires FreeConfig(config, rootfs, id)
    ensures AllFound(RuntimeFields(config, rootfs, id))
  {
    var fields := RuntimeFields(config, rootfs, id);
    KeyNames();
    FirstFields(config, rootfs, id);
    LastFields(config, rootfs, id);
    hide RuntimeFields, FreeBefore, Found, IsKeyName;
    forall f | 0 <= f < 12 && f != 6 && f != 8 ensures Found(fields, f) {
      FreeIsFound(fields, f);
    }
  }

  /** The round trip from a condition on the strings of the configuration alone. */
  lemma {:induction false} RoundTripFree(config: AxisConfig, rootfs: string, id: string)
    requires DistinctKeys(config.env) && FreeConfig(config, rootfs, id)
    ensures Load(Dumps(RuntimeFields(config, rootfs, id))) == Ok(Intended(config, rootfs, id)) <==>
            KeptConfig(Intended(config, rootfs, id))
  {
    hide *;
    FreeAllFound(config, rootfs, id);
    RoundTrip(config, rootfs, id);
  }
}
