# Axis: a verified model of its protocols and file formats

Axis is a small container runtime: a Python command line (`axis run`, `axis stop`, `axis reconcile`,
...) that keeps its state in JSON files, and a C++ runtime that reads one of those files and sets up
the container. This project models the parts where the two languages or several processes meet:

- **runtime.json** (`JsonText`, `JsonIndent`, `JsonReader`, `JsonGrammar`, `KeyLookup`, `JsonStrings`,
  `JsonDocument`, `Config`, `RuntimeJson`, `Landing`, `TokenReading`, `Whitespace`, `Witnesses`). Python prints
  the configuration with `json.dumps(..., indent=2)`; the C++ reader finds each field by searching for its
  quoted key. `JsonDocument` reads whole documents as RFC 8259 describes them (strings by section 7,
  whitespace by section 2), apart from any printer, and gets back what is printed. The reader's loops are
  methods, each proved equal to a function; the functions are
  proved equivalent to grammars; the search is characterised exactly for every layout of every document,
  and so are what is read from the tokens,
  errors included, and the part that whitespace between them plays.
- **status.json** (`LockedFile`, `Status`, `StopProtocol`, `SoloRuns`, `Supervisor`, `ExitCodes`).
  `LockedFile` is a generic protocol of processes that lock, read, write a temporary file, rename, release,
  and may die at any step; it refines an atomic state machine, and its calls can always come to an end.
  `StopProtocol` adds `write_status`, which takes no lock and validates nothing, and gives the exact windows
  in which a stop command is undone; `SoloRuns` says what a stop command and a pass do from their first step
  to their last. `Supervisor` is `axis run` alone, as a class whose methods are the source's.
- **network.json state and resources.json** (`Network`, `Journal`): the allocator and the journal over
  the same protocol, with the exact capacity.
- **Axisfile and volumes** (`Axisfile`, `AxisfileReading`, `Paths`, `Volumes`, `FileTree`, `MountTable`,
  `Mounts`, `EndToEnd`): the Axisfile line loop, what each field of its result says about the lines, the two
  containment checks, the recursive mkdir as seen through the mounts already
  made, and the mounts; `EndToEnd.MountVolumes` runs the four from the lines of the Axisfile to what a path
  inside the container shows.
- **Repair and relay** (`Reconcile`, `Proxy`).

Findings where the code does less than its documents say; each is a theorem below.

- `docs/SPECS.md:202` says that `axis stop` prevents another restart. It does exactly when its write
  lands outside the windows of `StopProtocol.Undoes`. `StopProtocol.StopUndone` gives a run, without any
  crash, in which a stop written during the one-second sleep is followed by another pass.
- An environment variable named like a later key of runtime.json takes that key's place: with
  `ENV cpu=4` and no `CPU` line the runtime is given the CPU limit `4` (`Witnesses.EnvCpuWitness`).
- Whitespace between the tokens of runtime.json can decide what is read. With `ENV k=cpu`, `ENV a:=x` and
  no `CPU` line the CPU limit is `:` or ` : ` (`Witnesses.WhitespaceWitness`);
  `Whitespace.WhitespaceIrrelevant` says exactly when it cannot.
- Strings come back unchanged exactly when made of 0x20-0x7E, newline and tab (`RuntimeJson.RoundTrip`).
- Both destination checks accept `//`, which is the root; mounted last it hides an earlier volume
  (`Mounts.HiddenMount`). For normalised destinations the longest match wins.
- A network setup that fails after `allocate_ip` leaves the address allocated
  (`Supervisor.Container.RunOnce`).
- A signal that kills the runtime itself is recorded as an error (`ExitCodes.RuntimeKilled`).

## Model

| member | source | states |
|---|---|---|
| RuntimeJson.WriteRuntimeConfig | src/axis/runtime.py:34-53 | succeeds exactly when every volume source is a directory, names the first that is not, and otherwise prints a text that a JSON reader reads as the twelve fields in order, the ports as host:container in decimal and the mounts as the dict that the volumes leave |
| RuntimeJson.WrittenDocument | src/axis/runtime.py:39-53 | the text of every configuration is a JSON document with the twelve fields and their values, null where there is none |
| JsonDocument.StringRead | src/axis/runtime.py:53 | a decoder of JSON strings (short escapes, four hex digits weighted 4096, 256, 16 and 1, surrogate pairs joined) gives back every string from its printed form, whatever follows |
| JsonDocument.EscapeValue | src/axis/runtime.py:53 | a `\u` escape has four lower-case digits whose value is the number |
| JsonDocument.PrintedAscii | src/axis/runtime.py:53 | what is printed of a string is ASCII without control characters |
| JsonDocument.LayoutRead | src/axis/runtime.py:53 | every layout of a document in JSON white space is a layout in the sense of the theorems about the C++ reader, and a JSON reader gets the fields from it, in order |
| JsonDocument.DumpsRead | src/axis/runtime.py:53 | and so from what json.dumps prints |
| JsonIndent.DumpsIsPretty | src/axis/runtime.py:53 | the layout of indent=2 told by the tokens: a line for each element, two spaces for each open bracket, one space after a colon, nothing between empty brackets |
| JsonText.DumpsIsLayout | src/axis/runtime.py:53 | the printed text is one layout of the document: its tokens with only whitespace between them |
| JsonReader.Json.SkipWhitespace | src/runtime/runtime_config.cpp:133-138 | the loop stops at the first character that is not a space |
| JsonDocument.SpacesExactly | src/runtime/runtime_config.cpp:133-138 | what the loop skips is the white space of JSON, the vertical tab and the form feed |
| JsonReader.Json.ParseString | src/runtime/runtime_config.cpp:102-131 | the loop computes the string scan, with its three errors, on any text |
| JsonReader.Json.FindValue | src/runtime/runtime_config.cpp:82-100 | first quoted key, first colon after it, whitespace skipped |
| JsonReader.Json.StringValue | src/runtime/runtime_config.cpp:13-23 | the string field, null and an absent optional key read as empty |
| JsonReader.Json.StringArray | src/runtime/runtime_config.cpp:25-46 | the array field on any text |
| JsonReader.Json.ArrayItems | src/runtime/runtime_config.cpp:31-45 | the loop terminates and computes the array scan from any position after a bracket |
| JsonReader.Json.StringMap | src/runtime/runtime_config.cpp:48-79 | the map field on any text |
| JsonReader.Json.MapEntries | src/runtime/runtime_config.cpp:57-78 | the loop terminates and stores exactly the entries the map scan finds, the last value of a key staying |
| JsonReader.Json.ParseEntry | src/runtime/runtime_config.cpp:64-69 | one key, colon and value, with the error of the first that is missing |
| JsonGrammar.StringGrammar | src/runtime/runtime_config.cpp:102-131 | on arbitrary text, a string scan succeeds if and only if a quoted body with lenient escapes stands there, and yields its meaning |
| JsonGrammar.ArrayGrammar | src/runtime/runtime_config.cpp:31-45 | on arbitrary text, an array scan succeeds if and only if the text is an array of the grammar (trailing comma allowed), and yields its items |
| JsonGrammar.MapGrammar | src/runtime/runtime_config.cpp:57-78 | the same for maps |
| KeyLookup.KeyOccurrences | src/runtime/runtime_config.cpp:82-90 | in any readable layout `"key"` stands exactly where a literal ends that is the key or ends in an escaped quote and the key |
| KeyLookup.KeySearch | src/runtime/runtime_config.cpp:84-90 | the substring search finds the end of the first such literal, or nothing |
| KeyLookup.LookupExact | src/runtime/runtime_config.cpp:82-100 | the lookup lands on the field's own value if and only if no such literal before it has a colon between |
| RuntimeJson.PrintedKeys | src/axis/runtime.py:39-53 | the same occurrence theorem for printed documents over arbitrary strings |
| RuntimeJson.LiteralIsKey | src/runtime/runtime_config.cpp:84-90 | the printed form of a string is such a literal if and only if the string is the key or ends in a quote and the key |
| JsonStrings.MimicsEscape | src/runtime/runtime_config.cpp:84-90 | no string escapes into a false key ending |
| RuntimeJson.FieldLookup | src/runtime/runtime_config.cpp:82-100 | in every layout of every document, the lookup of each field's key is right if and only if the field is not shadowed |
| RuntimeJson.FreeIsFound | src/runtime/runtime_config.cpp:82-100 | a field is found when no string printed before it equals its key or ends in a quote and the key |
| RuntimeJson.EntryWins | src/runtime/runtime_config.cpp:82-100 | the failing family: an env entry named like a later key is what that key's lookup returns |
| Witnesses.EnvCpuWitness | src/axis/runtime.py:45-51 | with ENV cpu=4 and no CPU line the printed file loads with the CPU limit 4 |
| JsonStrings.EscapeBody | src/runtime/runtime_config.cpp:113-124 | reading back the printed form of any string gives the string character by character reread |
| JsonStrings.StringRoundTrip | src/runtime/runtime_config.cpp:113-124 | a string survives if and only if it has only 0x20-0x7E, newline and tab |
| RuntimeJson.LoadRuntimeConfig | src/runtime/runtime_config.cpp:152-174 | reads the ten fields in order, stopping at the first error |
| RuntimeJson.FirstFailure | src/runtime/runtime_config.cpp:152-174 | loading fails with what is wrong with the first bad field in the order of reading |
| RuntimeJson.NoFailure | src/runtime/runtime_config.cpp:152-174 | loading succeeds when no field is bad, each member read under its own name; memory, cpu and bind_mounts may be missing |
| RuntimeJson.LoadAnyLayout | src/runtime/runtime_config.cpp:152-174 | any layout of a document without shadowed keys loads, for arbitrary strings, field by field |
| RuntimeJson.RoundTrip | src/axis/runtime.py:39-53 | without shadowed keys, loading the printed text gives the intended configuration if and only if all its strings survive |
| TokenReading.LoadsAs | src/runtime/runtime_config.cpp:152-174 | for every layout of every document the tokens decide: it loads as a configuration if and only if each of the ten lookups reads that value, and loads at all if and only if each reads something |
| TokenReading.RoundTripExactly | src/axis/runtime.py:39-53 | for every configuration, shadowed keys or not, the printed file loads as intended if and only if each of the ten lookups reads its intended value |
| TokenReading.StringFieldFrom | src/runtime/runtime_config.cpp:13-23 | a string field of any layout, errors included, from the tokens where its lookup lands |
| TokenReading.ArrayFieldFrom | src/runtime/runtime_config.cpp:25-46 | the same for an array field |
| TokenReading.MapFieldFrom | src/runtime/runtime_config.cpp:48-79 | the same for a map field |
| RuntimeJson.RoundTripFree | src/axis/runtime.py:39-53 | the same equivalence when no string printed before a looked-up key is that key or ends in a quote and the key |
| Witnesses.PlainComesBack | src/axis/runtime.py:39-53 | a configuration that meets the condition and comes back as it was |
| Landing.Lands | src/runtime/runtime_config.cpp:82-100 | for every layout and key, from the tokens alone: whether the lookup throws, lands on a value, or inside which literal and how far from its end |
| Landing.StringInText | src/runtime/runtime_config.cpp:13-23 | the string read from inside a literal: null, an error, or the text up to the next literal |
| Landing.ItemsInText | src/runtime/runtime_config.cpp:31-45 | the items, or the error, that the array loop reads from inside a literal |
| Landing.EntriesInText | src/runtime/runtime_config.cpp:57-78 | the entries, or the error, that the map loop reads from inside a literal |
| TokenReading.LandsOnValue | src/axis/runtime.py:39-53 | a lookup that does not land inside a literal lands on a whole value of the document |
| Whitespace.CommandLands | src/runtime/runtime_config.cpp:25-29 | the lookup of the command always lands on a value |
| Whitespace.FoundLands | src/runtime/runtime_config.cpp:82-100 | a key that is not shadowed lands on its value |
| Whitespace.StringAlike | src/runtime/runtime_config.cpp:13-23 | a string field reads alike in two layouts, errors included, or both read the text between two literals |
| Whitespace.MapAlike | src/runtime/runtime_config.cpp:48-79 | a map field reads alike in two layouts, errors included, or both read entries made of such text |
| Whitespace.StringDiffers | src/runtime/runtime_config.cpp:13-23 | the converse for string fields: stray text differs between the compact layout and a spaced one |
| Whitespace.MapDiffers | src/runtime/runtime_config.cpp:48-79 | the converse for map fields |
| Whitespace.WhitespaceIrrelevant | src/runtime/runtime_config.cpp:133-138 | for every configuration, all layouts of the printed file load alike if and only if some lookup reads nothing or none lands on stray text, conditions on the tokens alone |
| Witnesses.WhitespaceWitness | src/runtime/runtime_config.cpp:82-100 | a configuration whose two layouts load with different CPU limits |
| Config.VolumeDictMap | src/axis/runtime.py:47 | the volume dict maps each destination to the source of its last volume |
| LockedFile.Linearizable | src/axis/state.py:162-170 | any interleaving with crashes: the file is whole, equals the logged operations applied one at a time, replies are the atomic ones, one process holds the lock, a returned call is in the log between its beginning and now |
| LockedFile.OrderKept | src/axis/state.py:162-170 | real time: a call that begins after another has returned takes effect after it |
| LockedFile.StepInv | src/axis/state.py:78-85 | every step of lock, read, temporary file, rename, release and crash keeps the protocol's invariant |
| LockedFile.LogGrows | src/axis/state.py:78-85 | what took effect is never taken back |
| LockedFile.CallCompletes | src/axis/state.py:78-85 | the seven steps of a call made while nobody holds the lock end in its return: the reply is that of the contents it began with, a write is in the file, its temporary file is gone, the lock is free, the log is one longer |
| LockedFile.CallReturns | src/axis/state.py:162-170 | the same after any run: the contents are those of the operation applied to the contents before |
| LockedFile.HolderReturns | src/axis/state.py:162-170 | from every reachable world the holder of the lock can run on, without a crash, until its call has returned and the lock is free |
| Status.NormalizeComplete | src/axis/state.py:196-203 | a normalised payload has every default field and one agreed state |
| Status.FalsyExactly | src/axis/state.py:200 | the values that count as false: null, false, zero and the empty string |
| Status.StateIs | src/axis/state.py:196-203 | the state of a payload is its "state", else its "status", else created |
| Status.MissingField | src/axis/state.py:177-193 | what each field reads as when the payload does not set it; a field that is set is kept |
| Status.PermittedExactly | src/axis/state.py:19-27 | the transition table by its targets: from which states each may be entered |
| Status.StampedFields | src/axis/state.py:206-212 | what write_status writes: extra fields win, the others keep their normalised values |
| Status.TransitionedFields | src/axis/state.py:221-242 | every field that an accepted transition writes: the target under both names, the stamp, started_at and finished_at set once and never changed, the extra fields, the others as they were |
| Status.StartingMarks | src/axis/cli.py:242-248 | the starting write keeps every field but the state, desired_state and the stamp |
| Status.RunningMarks | src/axis/cli.py:266 | the running write records the pid, forgets an earlier stop, sets started_at and keeps the rest |
| Status.FailedMarks | src/axis/cli.py:306 | the write of the exception handler: failed, runtime_error, desired_state exited, the rest kept |
| Status.LoggedStep | src/axis/state.py:226-229 | a call moves the state along the table or writes nothing |
| Status.ReachesClosed | src/axis/state.py:19-27 | reachability is closed under the table and begins with an edge of it |
| Status.ReachesExactly | src/axis/state.py:19-27 | a state is reachable from another if and only if a finite path along the table leads there |
| Status.StatesFollowTable | src/axis/state.py:19-27 | between any two points of the log the state has moved along the table |
| Status.LogIsPath | src/axis/state.py:19-27 | each logged call leaves the state or moves it along one edge of the table |
| Status.TransitionsAreAtomic | src/axis/state.py:221-242 | any processes calling transition_state with crashes: the file is whole and its payload is the logged calls applied in order, the states form a path in the table with self-loops, created is never re-entered, deleted is final |
| Status.TransitionReturns | src/axis/state.py:221-242 | in any run a call made while nobody holds the lock can return: a permitted one has its payload in the file and returns it, a refused one leaves the file and names the transition |
| StopProtocol.StepInv | src/axis/cli.py:239-310 | every step of the supervisor, of any stop command, of a new one or of a crash keeps the invariant |
| StopProtocol.Refusals | src/axis/cli.py:239-302 | in every reachable state the starting and exited transitions are accepted; running is refused exactly when the file says exited |
| StopProtocol.CommitDooms | src/axis/cli.py:137-149 | a stop written outside the windows leaves the supervisor in a state with no further pass |
| StopProtocol.DoomedRun | src/axis/cli.py:239-256 | from such a state no continuation starts a pass |
| StopProtocol.CommitUndone | src/axis/cli.py:248-255 | a stop written in a window has a continuation, without any crash, that starts another pass |
| StopProtocol.HolderRun | src/axis/state.py:162-170 | a stop command that holds the lock can run on until it releases it, the supervisor standing still |
| StopProtocol.StopUndone | src/axis/cli.py:248-255 | from every start with RESTART always a run without crashes in which a stop is written during the sleep and another pass follows |
| StopProtocol.FreshStart | src/axis/cli.py:239-256 | a container just created is such a start |
| StopProtocol.StopSticks | src/axis/cli.py:137-149 | with RESTART always, a committed stop sticks in every continuation if and only if the supervisor is outside its read-to-write windows |
| SoloRuns.StopOfLive | src/axis/cli.py:145-149 | a stop of a container that is running or stopping and whose process is alive, step by step: the file becomes stopping with manual_stop true, then the processes are killed, and only then it becomes exited with exit_reason "stopped"; the lock is free at the end and every other field is kept |
| SoloRuns.StopOfEnded | src/axis/cli.py:140-143 | a stop of a container that is exited, failed or deleted, or whose process is dead, whoever holds the lock: one write, of exited with manual_stop true, and nothing is killed |
| SoloRuns.StopRefused | src/axis/state.py:226-229 | any other stop, such as that of a starting container, is refused: the file stays as it is, the lock is free and nothing is killed |
| SoloRuns.StopAtRuns | src/axis/cli.py:137-149 | these steps are a run of the protocol without crashes |
| SoloRuns.PassAlone | src/axis/cli.py:239-256 | a pass that nothing disturbs, step by step: it writes starting, running and exited in turn, with what each says of the fields; without RESTART always it is done, with it restart_count is one more and the loop is at its head again |
| SoloRuns.SupAtRuns | src/axis/cli.py:239-310 | these steps are a run of the protocol without crashes |
| SoloRuns.PassFails | src/axis/cli.py:303-310 | a pass that goes wrong, or whose running transition is refused, marks the container failed and ends the supervisor |
| SoloRuns.OnePass | src/axis/cli.py:250-256 | without RESTART always no run, whatever the stop commands and crashes do, has a second pass |
| Supervisor.TransitionLawful | src/axis/state.py:221-242 | an accepted transition follows the table and leaves set timestamps alone |
| Supervisor.WriteLawful | src/axis/state.py:206-212 | so does write_status when its target is permitted |
| Supervisor.TimesNeverChange | src/axis/state.py:235-238 | over a whole run a set started_at or finished_at never changes |
| Supervisor.Container.TransitionTo | src/axis/state.py:221-242 | for any extra fields, accepted exactly when permitted; a refused call writes nothing |
| Supervisor.Container.WriteStatusFile | src/axis/state.py:206-212 | the new status for any target and extra fields, logged in the history, lawful when the target is permitted |
| Supervisor.Container.Fail | src/axis/cli.py:303-310 | the handler writes failed, runtime_error and desired_state exited and keeps the rest; the address is given back only if this pass wrote network.json |
| Supervisor.Container.RunOnce | src/axis/cli.py:259-310 | no transition is rejected; the first write records the pid; a completed pass leaves the code, the reason (oom_killed, signal, completed or error), whether it was an OOM kill, and the signal, all told by the code and the OOM count, and the allocation map as it was; any other leaves runtime_error, and only a network failure after allocation leaves the address |
| Supervisor.Container.RunContainerLoop | src/axis/cli.py:239-256 | over any number of passes: nothing rejected, restart_count is the initial count plus the restarts, at each loop head the container holds no address, with RESTART always it ends only by an exception; what status.json says when it returns or raises |
| ExitCodes.RunInit | src/runtime/Container.cpp:188-211 | returns at the first ECHILD or unexpected error and only there, with the application's last status at ECHILD and 1 otherwise |
| ExitCodes.AppCode | src/runtime/Container.cpp:155-211 | whatever else is reaped and in whatever order, PID 1 returns the application's own code |
| ExitCodes.OrderOfReaping | src/runtime/Container.cpp:188-211 | the order of reaping does not matter |
| ExitCodes.WordDecodes | src/runtime/Container.cpp:155-164 | the code of every way of ending, through the status word |
| ExitCodes.OtherStatus | src/runtime/Container.cpp:155-164 | any other status word, such as that of a stopped process, gives 1 |
| ExitCodes.SeenIsConventional | src/runtime/Container.cpp:336-338 | the code crosses the two further waits unchanged |
| ExitCodes.Reported | src/axis/cli.py:474-483 | from how the application ended: the reason, the oom_killed flag and whether and which signal is recorded, each by an equivalence |
| ExitCodes.DetailsExactly | src/axis/cli.py:474-483 | the same from the exit code: oom_killed is true exactly when there were OOM kills and false exactly when there were none and the code is below 128; the signal is the code less 128 |
| ExitCodes.RuntimeKilled | src/axis/cli.py:474-483 | a signal that kills the runtime is recorded as an error |
| Network.NetworkStore.AllocateIp | src/axis/network.py:104-119 | the address held, else the least free one, else none; the map changes accordingly |
| Network.NetworkStore.ReleaseIp | src/axis/network.py:122-128 | the map without the identifier |
| Network.ApplyGood | src/axis/network.py:104-128 | addresses stay distinct hosts other than the gateway |
| Network.Capacity | src/axis/network.py:104-119 | at most 253 addresses are held; allocation fails if and only if the identifier is new and exactly 253 are held; otherwise the least free host |
| Network.KeepsAddress | src/axis/network.py:104-128 | until its release a container keeps its address |
| Network.AllocatorSafe | src/axis/network.py:274-295 | any interleaving with crashes: the persisted map is the lock-order one and sound, and allocations without a release between agree |
| Network.AllocateReturns | src/axis/network.py:104-119 | in any run an allocate_ip made while nobody holds the lock can return: the address held, or the least free host, then recorded in the file, or nothing when 253 are held |
| Network.ReleaseReturns | src/axis/network.py:122-128 | and a release_ip: the file no longer names the container |
| Journal.ResourceFile.AddResource | src/axis/state.py:255-260 | a new resource goes last, a known one changes nothing |
| Journal.JournalOf | src/axis/state.py:255-260 | the journal is the first-occurrence list of the calls in lock order |
| Journal.JournalKept | src/axis/state.py:245-260 | any interleaving with crashes: each resource once, in first-call order, never lost or moved |
| Journal.AddReturns | src/axis/state.py:255-260 | in any run an add_resource made while nobody holds the lock can return, and its resource is then in the file |
| Axisfile.ParseAxisfile | src/axis/axisfile.py:11-93 | the line loop equals the reading `Parsed`, whose result AxisfileReading.ParsedDescribes and AxisfileReading.ParsedExactly characterise from the text of the lines |
| AxisfileReading.StripExactly | src/axis/axisfile.py:30 | stripping takes away the white space at both ends and nothing else |
| AxisfileReading.ReadsExactly | src/axis/axisfile.py:34-36 | the instruction is the text up to the first space in upper case, its value the stripped text after it |
| AxisfileReading.HasWordReads | src/axis/axisfile.py:34-36 | a line is an instruction exactly when it reads as one, with one value |
| AxisfileReading.IdleExactly | src/axis/axisfile.py:31-32 | blank lines and comments, and no others, say nothing |
| AxisfileReading.InterpretedExactly | src/axis/axisfile.py:38-67 | for each of the thirteen instructions, what its value says, and nothing else is taken from it |
| AxisfileReading.MistakenExactly | src/axis/axisfile.py:38-69 | when each of the ten mistakes is reported, by an equivalence |
| AxisfileReading.MappingSaid | src/axis/ports.py:15-46 | a port mapping is accepted exactly when it is a port or two in 1 to 65535, with no protocol or tcp after the last slash |
| AxisfileReading.ParsedDescribes | src/axis/axisfile.py:15-93 | each scalar of the configuration is what the last line with its instruction says, or the default when there is none; each list holds what its lines say in their order; the environment has for each key the value of the last ENV line that gives it |
| AxisfileReading.ParsedExactly | src/axis/axisfile.py:29-77 | the first wrong line is reported with its number and mistake, else a missing FROM, else a missing or empty command, each by an equivalence |
| AxisfileReading.LastLineSets | src/axis/axisfile.py:38-67 | the last line with a scalar instruction, a space and a value sets the field of that instruction to the value |
| AxisfileReading.LineAdds | src/axis/axisfile.py:46-58 | a line with a list instruction adds its element after those of the lines before it |
| AxisfileReading.LineGivesKey | src/axis/axisfile.py:103-112 | the last ENV line with a key gives it everything after the first equals sign, unstripped |
| AxisfileReading.LineTouchesOwn | src/axis/axisfile.py:38-67 | a line changes the fields of its own instruction only |
| Axisfile.EnvLastValue | src/axis/axisfile.py:53-55 | each key has the last value given to it |
| Axisfile.WrongLine | src/axis/axisfile.py:29-69 | the first wrong line is the one reported |
| Axisfile.SwapLines | src/axis/axisfile.py:29-69 | adjacent accepted lines with different instructions may change places |
| Axisfile.IdleLines | src/axis/axisfile.py:31-32 | a blank line or comment anywhere changes only the line numbers of errors |
| Axisfile.VolumeAccepted | src/axis/axisfile.py:121-135 | a VOLUME value is accepted if and only if it has a source and a destination that the C++ check accepts |
| Paths.SafeExactly | src/runtime/Container.cpp:75-83 | the substring checks accept exactly the absolute paths other than the root text with no component `..` |
| Paths.StaysUnder | src/runtime/Container.cpp:93 | an accepted destination resolves under the root filesystem, to itself |
| Volumes.SafeReread | src/runtime/Container.cpp:88 | the check gives the same answer before printing and after reading back, for every string |
| Volumes.VolumesContained | src/runtime/Container.cpp:85-95 | with accepted destinations and no shadowed key the file loads, no destination is refused and every target stays under the root |
| Volumes.AxisfileContained | src/axis/axisfile.py:121-135 | the same from the text of an Axisfile |
| FileTree.FileSystem.MkdirNext | src/runtime/Container.cpp:59-73 | through any mounts, each mkdir finds its parent present, and fails only behind a file |
| FileTree.FileSystem.MkdirRecursive | src/runtime/Container.cpp:59-73 | through any mounts, succeeds if and only if no file stands where the path goes on; makes the places on the way and nothing else, up to the file when one stops it |
| FileTree.PlainView | src/runtime/Container.cpp:59-73 | without mounts a path shows itself, so the same holds of a plain file system |
| FileTree.FileSystem.LookupExactly | src/runtime/Container.cpp:59-73 | a path is found exactly when every place on its way shows a directory; otherwise the first that does not gives the error |
| FileTree.NamesResolve | src/runtime/Container.cpp:59-73 | the last place on the way is where the path resolves to |
| MountTable.TraceResolves | src/runtime/Container.cpp:99 | a walk with `.` and `..` across mounts ends where the resolved path leads |
| MountTable.LastEnclosingWins | src/runtime/Container.cpp:85-107 | after mounting in sequence a path leads into the last mounted target that encloses it |
| Mounts.ViewBound | src/runtime/Container.cpp:99 | a mount changes what is shown at and below its target and nothing else |
| Mounts.FaithfulBound | src/runtime/Container.cpp:99 | after a mount every shown place still stands in a shown directory |
| Mounts.Namespace.Bind | src/runtime/Container.cpp:99 | succeeds exactly when both paths lead to directories and the kernel does not refuse; one more mount at the place the target leads to, showing what the source showed |
| Mounts.Namespace.IsDirExactly | src/runtime/Container.cpp:99 | a source or target is a directory exactly when every place on its way shows one |
| Mounts.Namespace.MountOne | src/runtime/Container.cpp:88-103 | one destination: check, recursive mkdir through the mounts made so far, mount; what refused it otherwise |
| Mounts.RootsMore | src/runtime/Container.cpp:99 | what each mount shows is what its source showed when it was mounted |
| Mounts.Namespace.SetupBindMounts | src/runtime/Container.cpp:85-107 | mounts in map order up to the first refused destination, for a stated reason; each mount shows what its source showed then; on success exactly the places on the ways of the destinations have been made |
| Mounts.VisibleExactly | src/runtime/Container.cpp:85-107 | every mount is seen if and only if no later target encloses an earlier one |
| Mounts.DeepestExactly | src/runtime/Container.cpp:85-107 | the deepest target always wins if and only if no later target strictly encloses an earlier one that is not mounted again |
| Mounts.SortedIsNested | src/runtime/runtime_config.cpp:57-69 | in map order normalised destinations come after those that enclose them |
| Mounts.LongestDestinationWins | src/runtime/Container.cpp:85-107 | for normalised destinations every path below the root leads into the volume of its longest enclosing destination |
| Mounts.LongestKeyWins | src/runtime/Container.cpp:85-107 | the order-free reading: when all mounts of the map are made, a path shows the source of the longest destination enclosing it, at the rest of the path |
| EndToEnd.VolumesArrive | src/runtime/runtime_config.cpp:152-174 | a file that loads has the root and the volumes as written, when their keys are found and their own strings survive, whatever became of the others |
| EndToEnd.MountVolumes | src/runtime/Container.cpp:85-107 | from the lines of the Axisfile: parse, print, load and mount; a path shows on disk what the source of the last VOLUME of the longest destination enclosing it showed when it was mounted, and the rest of the path below that, or the cause of the failure is given |
| Mounts.HiddenMount | src/runtime/Container.cpp:75-83 | two accepted destinations, not normalised, the second of which hides the first |
| Reconcile.StateDirectory.RepairStatus | src/axis/cli.py:196-201 | a stale container is marked failed when its status may be written, and reported either way |
| Reconcile.StateDirectory.PruneProxies | src/axis/cli.py:203-217 | dead proxies are dropped when the file may be written, and reported either way |
| Reconcile.StateDirectory.ReconcileAll | src/axis/cli.py:183-223 | one pass repairs every container, prints its reports in order, and writes nothing exactly when nothing is to be written |
| Reconcile.NothingReported | src/axis/cli.py:219-222 | nothing is printed about containers exactly when none is stale |
| Reconcile.RepairedStatus | src/axis/cli.py:198 | the repair sets the state, pid, exit_reason, desired_state and updated_at and keeps every other field |
| Reconcile.LiveSublist | src/axis/cli.py:205-208 | what is left of the proxies is the live ones, all of them, in order |
| Reconcile.StillStale | src/axis/cli.py:196-217 | after a pass a container is stale if and only if it was and could not be written |
| Reconcile.PassRepairs | src/axis/cli.py:192-217 | a pass marks failed exactly the writable containers marked running, starting or stopping with no live process, drops exactly the dead proxies, and leaves every other file as it is |
| Reconcile.Fixpoint | src/axis/cli.py:183-223 | a second pass writes nothing and changes nothing |
| Proxy.ProxyConnection | src/axis/proxy.py:36-58 | the loop handles events up to the first that is not received and sent whole, moving each side's bytes to the other |
| Proxy.PrefixDelivered | src/axis/proxy.py:42-58 | in each direction the bytes delivered are a prefix of those received, equal while the relay runs and in the direction that did not end it |

## Left out

- Docker pull and export, file copying, bridge, veth and iptables commands, cgroup writes, clone and chroot: foreign tools and the kernel.
- Signals to PID 1, Ctrl-C on `axis run`, and timeouts of `stop`: killing a process is a step that only the process's own exit shows.
- `axis clean` and `axis reconcile` running at the same time as a supervisor: removing files resets the status, so neither is a process of the interleaving models.
- StopProtocol.StopSticks: the temporary file inside one write is a single rename step here; its steps are those of LockedFile. A pass counts from its `starting` write.
- StopProtocol.StopSticks: stated for RESTART always; without it the loop never starts a second pass (SoloRuns.OnePass).
- SoloRuns.StopOfLive: a command or a pass with nothing running beside it; beside others it is StopProtocol.StepInv and StopProtocol.HolderRun that say what it keeps.
- JsonDocument.DumpsRead: the reader has no numbers, which runtime.json does not contain, and refuses lone surrogates.
- RuntimeJson.RoundTrip: assumes that no looked-up key is shadowed; TokenReading.RoundTripExactly has no such condition.
- EndToEnd.MountVolumes: assumes that the keys of the root and of the volumes are found, that their own strings survive and that destinations are normalised; without that, only containment is stated (Volumes.AxisfileContained).
- Python strings with lone surrogates, which Dafny characters do not have, and UTF-8 as bytes: the printed text is ASCII.
- Axisfile.ParseAxisfile: `shlex.split`, path resolution, `int`, case mapping and splitting into lines are parameters; the message texts of errors are reduced to their kind and line.
- Supervisor.Container.RunContainerLoop: a pass is reduced to how it ends; resource journal writes inside it, and a failure while network.json is being cleaned up after the exit, are not modelled.
- Network.AllocatorSafe: addresses are host numbers of the /24 network; their text form and a state file that is not valid JSON are not modelled.
- FileTree.FileSystem.MkdirRecursive: absolute paths only; no symbolic links, permissions, limits on name length or embedded NUL characters.
- Mounts.Namespace.SetupBindMounts: mounts that lie inside a source are not copied along with it (MS_REC), a source that is a file is refused, and other refusals of the kernel are a parameter.
- ExitCodes.RunInit: the status words are those of Linux; stop and continue notifications, which waitpid does not return without its flags, decode to 1.
- Reconcile.StateDirectory.ReconcileAll: each directory is taken to resolve to its own container, and proxy pids to be integers.
- Proxy.ProxyConnection: readiness of the two sockets is a sequence of events; threads and the accept loop are left out.
- Listing, log following, statistics and inspection: display.
