/**
  status.json: the payload as a JSON object, its normalisation, the table of lifecycle transitions,
  and the two ways of writing it. transition_state follows the locked-file protocol.
 */
module Status {
  import opened Wrappers
  import LockedFile

  datatype LifeState = Created | Starting | Running | Stopping | Exited | Failed | Deleted

  /** A JSON value; a string that names a lifecycle state is `Name`, a timestamp is `Time`. */
  datatype Json = Null | Bool(b: bool) | Int(n: int) | Name(s: LifeState) | Time(at: nat) | Text(text: string)

  datatype Field =
    | State | StatusName | DesiredState | Pid | ExitCode | ExitSignal | ExitReason | OomKilled
    | StartedAt | FinishedAt | UpdatedAt | RestartCount | ManualStop | Other(name: string)

  type Dict = map<Field, Json>

  predicate Truthy(j: Json) {
    match j
    case Null => false
    case Bool(b) => b
    case Int(n) => n != 0
    case Text(text) => text != ""
    case _ => true
  }

  /** The values that Python's `or` and `not` take for false. */
  lemma {:induction false} FalsyExactly(j: Json)
    ensures !Truthy(j) <==> j == Null || j == Bool(false) || j == Int(0) || j == Text("")
  {
  }

  /** d.get(field, default) */
  function Get(d: Dict, field: Field, default: Json := Null): Json {
    if field in d then d[field] else default
  }

  function DefaultStatus(now: nat): Dict {
    map[
      State := Name(Created), StatusName := Name(Created), DesiredState := Name(Running), Pid := Null,
      ExitCode := Null, ExitSignal := Null, ExitReason := Null, OomKilled := Bool(false), StartedAt := Null,
      FinishedAt := Null, UpdatedAt := Time(now), RestartCount := Int(0), ManualStop := Bool(false)
    ]
  }

  /** The defaults a payload does not set; "state" and "status" made equal. */
  function Normalize(payload: Dict): Dict {
    var merged := DefaultStatus(0) + payload;
    var state :=
      if Truthy(merged[State]) then merged[State]
      else if Truthy(merged[StatusName]) then merged[StatusName]
      else Name(Created);
    merged[State := state][StatusName := state]
  }

  function StateOf(d: Dict): Json { Normalize(d)[State] }

  function ManualOf(d: Dict): Json { Get(Normalize(d), ManualStop, Bool(false)) }

  /** Every default field is there and the two names of the state agree. */
  predicate Complete(d: Dict) {
    DefaultStatus(0).Keys <= d.Keys && Truthy(d[State]) && d[StatusName] == d[State]
  }

  lemma NormalizeComplete(d: Dict)
    ensures Complete(Normalize(d))
  {
  }

  /** The state of a payload: "state", else "status", else created. */
  lemma {:induction false} StateIs(d: Dict)
    ensures StateOf(d) == if Truthy(Get(d, State)) then d[State]
                          else if State in d && Truthy(Get(d, StatusName)) then d[StatusName]
                          else Name(Created)
  {
  }

  /** What a field that the payload does not set reads as; a field that it sets is kept. */
  lemma {:induction false} MissingField(d: Dict, f: Field)
    ensures f in d && f != State && f != StatusName ==> Get(Normalize(d), f) == d[f]
    ensures f !in d ==>
              match f
              case DesiredState => Get(Normalize(d), f) == Name(Running)
              case OomKilled => Get(Normalize(d), f) == Bool(false)
              case ManualStop => Get(Normalize(d), f) == Bool(false)
              case RestartCount => Get(Normalize(d), f) == Int(0)
              case State => true
              case StatusName => true
              case UpdatedAt => Get(Normalize(d), f).Time?
              case _ => Get(Normalize(d), f) == Null
  {
  }

  lemma {:induction false} CompleteNormal(d: Dict)
    requires Complete(d)
    ensures Normalize(d) == d
  {
    assert DefaultStatus(0) + d == d;
  }

  // ----- writing

  function Stamped(payload: Dict, target: LifeState, extra: Dict, now: nat): Dict {
    (Normalize(Normalize(payload)) + extra)[State := Name(target)][StatusName := Name(target)][UpdatedAt := Time(now)]
  }

  /** What write_status writes over the payload it read: no validation, no lock. */
  function WriteStatus(payload: Dict, target: LifeState, extra: Dict, now: nat): Dict {
    Stamped(payload, target, extra, now)
  }

  function AllowedFrom(s: LifeState): set<LifeState> {
    match s
    case Created => {Starting, Running, Failed, Deleted}
    case Starting => {Running, Failed, Deleted}
    case Running => {Stopping, Exited, Failed, Deleted}
    case Stopping => {Exited, Failed, Deleted}
    case Exited => {Starting, Deleted}
    case Failed => {Starting, Deleted}
    case Deleted => {}
  }

  /** The target is the present state or a successor of it in the table. */
  predicate Permitted(current: Json, target: LifeState) {
    current.Name? && (target == current.s || target in AllowedFrom(current.s))
  }

  /** The table by its targets: where each state may be entered from, besides itself. */
  lemma {:induction false} PermittedExactly(current: Json, target: LifeState)
    ensures Permitted(current, target) <==>
            current.Name? &&
            (current.s == target ||
             match target
             case Created => false
             case Starting => current.s == Created || current.s == Exited || current.s == Failed
             case Running => current.s == Created || current.s == Starting
             case Stopping => current.s == Running
             case Exited => current.s == Running || current.s == Stopping
             case Failed => current.s != Exited && current.s != Deleted
             case Deleted => true)
  {
  }

  datatype Transition = Transition(target: LifeState, extra: Dict, now: nat)

  predicate Ending(s: LifeState) { s == Exited || s == Failed || s == Deleted }

  function SetOnce(p: Dict, field: Field, now: nat): Dict {
    if Truthy(Get(p, field)) then p else p[field := Time(now)]
  }

  /** The first time the container runs, and the first time it ends. */
  function Marked(p: Dict, target: LifeState, now: nat): Dict {
    if target == Running then SetOnce(p, StartedAt, now)
    else if Ending(target) then SetOnce(p, FinishedAt, now)
    else p
  }

  /** The payload transition_state writes when the transition is permitted. */
  function Transitioned(payload: Dict, op: Transition): Dict {
    Marked(Stamped(payload, op.target, op.extra, op.now), op.target, op.now)
  }

  function TransitionState(payload: Dict, op: Transition): LockedFile.Outcome<Dict, Result<Dict, (Json, LifeState)>> {
    if Permitted(StateOf(payload), op.target) then
      LockedFile.Write(Transitioned(payload, op), Ok(Transitioned(payload, op)))
    else LockedFile.Keep(Err((StateOf(payload), op.target)))
  }

  // ----- what the written payload says

  predicate Stamps(f: Field) { f == State || f == StatusName || f == UpdatedAt }

  /** The fields that the writing functions set. */
  predicate Managed(f: Field) { Stamps(f) || f == StartedAt || f == FinishedAt }

  lemma {:induction false} StampedFields(payload: Dict, target: LifeState, extra: Dict, now: nat)
    ensures var p := Stamped(payload, target, extra, now);
            Complete(p) && Normalize(p) == p && p[State] == StateOf(p) == Name(target) && p[UpdatedAt] == Time(now)
    ensures forall f :: f in extra && !Stamps(f) ==> Get(Stamped(payload, target, extra, now), f) == extra[f]
    ensures forall f :: f !in extra && !Stamps(f) ==>
                          Get(Stamped(payload, target, extra, now), f) == Get(Normalize(payload), f)
  {
    hide Normalize;
    NormalizeComplete(payload);
    CompleteNormal(Normalize(payload));
    var p := Stamped(payload, target, extra, now);
    assert DefaultStatus(0).Keys <= Normalize(payload).Keys <= p.Keys;
    CompleteNormal(p);
  }

  lemma SetOnceFields(p: Dict, field: Field, now: nat)
    requires Complete(p) && (field == StartedAt || field == FinishedAt)
    ensures var q := SetOnce(p, field, now);
            Complete(q) && Truthy(Get(q, field)) && (Truthy(Get(p, field)) ==> Get(q, field) == Get(p, field)) &&
            q[State] == p[State] && forall f :: f != field ==> Get(q, f) == Get(p, f)
  {
  }

  /** A timestamp that is set on the first such transition, and never again. */
  function OnceSet(value: Json, now: nat, marks: bool): Json {
    if marks && !Truthy(value) then Time(now) else value
  }

  lemma {:induction false} MarkedFields(p: Dict, target: LifeState, now: nat)
    requires Complete(p)
    ensures var r := Marked(p, target, now);
            && Complete(r) && r[State] == p[State]
            && (forall f :: f != StartedAt && f != FinishedAt ==> Get(r, f) == Get(p, f))
            && Get(r, StartedAt) == OnceSet(Get(p, StartedAt), now, target == Running)
            && Get(r, FinishedAt) ==
               OnceSet(Get(p, FinishedAt), now, target == Exited || target == Failed || target == Deleted)
  {
    SetOnceFields(p, StartedAt, now);
    SetOnceFields(p, FinishedAt, now);
  }

  /**
    Every field of the payload that an accepted transition writes: the target under both names, the
    stamp, the two timestamps set once, the extra fields, and the others as they were.
   */
  lemma {:induction false} TransitionedFields(payload: Dict, op: Transition)
    ensures var p := Transitioned(payload, op); var before := Normalize(payload);
            && StateOf(p) == Name(op.target) && Normalize(p) == p && Get(p, UpdatedAt) == Time(op.now)
            && Get(p, StatusName) == Name(op.target)
            && (forall f :: f in op.extra && !Managed(f) ==> Get(p, f) == op.extra[f])
            && (forall f :: f !in op.extra && !Managed(f) ==> Get(p, f) == Get(before, f))
            && Get(p, StartedAt) ==
               OnceSet(Get(op.extra, StartedAt, Get(before, StartedAt)), op.now, op.target == Running)
            && Get(p, FinishedAt) ==
               OnceSet(Get(op.extra, FinishedAt, Get(before, FinishedAt)), op.now,
                 op.target == Exited || op.target == Failed || op.target == Deleted)
  {
    hide Stamped, Normalize, Marked, Complete, Truthy, OnceSet;
    var p := Stamped(payload, op.target, op.extra, op.now);
    StampedFields(payload, op.target, op.extra, op.now);
    MarkedFields(p, op.target, op.now);
    CompleteNormal(Transitioned(payload, op));
    CompleteNames(p);
    CompleteNames(Transitioned(payload, op));
  }

  lemma {:induction false} CompleteNames(d: Dict)
    requires Complete(d)
    ensures Get(d, StatusName) == Get(d, State) == d[State] && Get(d, UpdatedAt) == d[UpdatedAt]
  {
  }

  // ----- the writes of a container's life

  /** A normalised payload with the fields outside `changed` as they were, but for the state and the stamp. */
  ghost predicate RestKept(before: Dict, after: Dict, changed: set<Field>) {
    Normalize(after) == after && forall f :: f !in changed && !Stamps(f) ==> Get(after, f) == Get(Normalize(before), f)
  }

  ghost predicate MarkedStarting(before: Dict, after: Dict) {
    StateOf(after) == Name(Starting) && Get(after, DesiredState) == Name(Running) &&
    RestKept(before, after, {DesiredState})
  }

  /** The pid is recorded, and an earlier stop is forgotten. */
  ghost predicate MarkedRunning(before: Dict, after: Dict, pid: int) {
    StateOf(after) == Name(Running) && Get(after, DesiredState) == Name(Running) &&
    Get(after, ManualStop) == Bool(false) && Get(after, Pid) == Int(pid) && Truthy(Get(after, StartedAt)) &&
    RestKept(before, after, {DesiredState, ManualStop, Pid, StartedAt})
  }

  /** What the exception handler of a pass leaves. */
  ghost predicate MarkedFailed(before: Dict, after: Dict) {
    StateOf(after) == Name(Failed) && Get(after, ExitReason) == Text("runtime_error") &&
    Get(after, DesiredState) == Name(Exited) && RestKept(before, after, {ExitReason, DesiredState})
  }

  lemma {:induction false} HasDefaults(d: Dict)
    ensures ManualStop in Normalize(d) && RestartCount in Normalize(d)
  {
  }

  lemma {:induction false} StartingMarks(d: Dict, now: nat)
    ensures var extra: Dict := map[
              DesiredState := Name(Running), ManualStop := ManualOf(d),
              RestartCount := Get(Normalize(d), RestartCount, Int(0))];
            MarkedStarting(d, Transitioned(d, Transition(Starting, extra, now)))
  {
    hide Transitioned, Normalize, StateOf;
    HasDefaults(d);
    var extra: Dict := map[
      DesiredState := Name(Running), ManualStop := ManualOf(d),
      RestartCount := Get(Normalize(d), RestartCount, Int(0))];
    TransitionedFields(d, Transition(Starting, extra, now));
  }

  lemma {:induction false} RunningMarks(d: Dict, pid: int, now: nat)
    ensures var extra: Dict := map[Pid := Int(pid), ManualStop := Bool(false), DesiredState := Name(Running)];
            MarkedRunning(d, Transitioned(d, Transition(Running, extra, now)), pid)
  {
    hide Transitioned, Normalize, StateOf;
    var extra: Dict := map[Pid := Int(pid), ManualStop := Bool(false), DesiredState := Name(Running)];
    TransitionedFields(d, Transition(Running, extra, now));
    assert Truthy(Time(now));
  }

  lemma {:induction false} FailedMarks(d: Dict, now: nat)
    ensures var extra: Dict := map[ExitReason := Text("runtime_error"), DesiredState := Name(Exited)];
            MarkedFailed(d, WriteStatus(d, Failed, extra, now))
  {
    hide Stamped, Normalize, StateOf;
    var extra: Dict := map[ExitReason := Text("runtime_error"), DesiredState := Name(Exited)];
    StampedFields(d, Failed, extra, now);
  }

  // ----- the file under any number of transition_state calls

  const STATUS_MACHINE: LockedFile.Machine<Dict, Transition, Result<Dict, (Json, LifeState)>> :=
    LockedFile.Machine(DefaultStatus(0), (s, op) => TransitionState(s, op))

  type StatusEvent = LockedFile.Event<Transition, Result<Dict, (Json, LifeState)>>

  function StateAfter(log: seq<StatusEvent>): Json { StateOf(LockedFile.Replay(STATUS_MACHINE, log)) }

  /** `to` can be reached from `from` along the table. */
  predicate Reaches(from: LifeState, to: LifeState) {
    to == from ||
    match from
    case Created => true
    case Deleted => false
    case _ => to != Created
  }

  /** Reachability is closed under the table, and begins with an edge of it. */
  lemma {:induction false} ReachesClosed(a: LifeState, b: LifeState, c: LifeState)
    ensures Reaches(a, b) && Permitted(Name(b), c) ==> Reaches(a, c)
    ensures Reaches(a, b) && a != b ==> exists m :: m in AllowedFrom(a) && Reaches(m, b)
  {
    if Reaches(a, b) && a != b {
      assert Failed in AllowedFrom(Created) && Starting in AllowedFrom(Created) && Deleted in AllowedFrom(Created);
      assert Failed in AllowedFrom(Starting) && Failed in AllowedFrom(Running) && Failed in AllowedFrom(Stopping);
      assert Starting in AllowedFrom(Exited) && Starting in AllowedFrom(Failed);
    }
  }

  predicate EdgeAt(path: seq<LifeState>, k: nat)
    requires k + 1 < |path|
  {
    path[k + 1] in AllowedFrom(path[k])
  }

  /** A path from `a` to `b`, every step of it an edge of the table. */
  predicate TablePath(path: seq<LifeState>, a: LifeState, b: LifeState) {
    path != [] && path[0] == a && path[|path| - 1] == b && forall k :: 0 <= k < |path| - 1 ==> EdgeAt(path, k)
  }

  /** A way along the table. */
  function Route(a: LifeState, b: LifeState): seq<LifeState> {
    if a == b then [a]
    else if b in AllowedFrom(a) then [a, b]
    else
      match a
      case Running => [a, Exited, b]
      case Stopping => if b == Running then [a, Exited, Starting, b] else [a, Exited, b]
      case Exited => if b == Stopping then [a, Starting, Running, b] else [a, Starting, b]
      case Failed => if b == Running then [a, Starting, b] else [a, Starting, Running, b]
      case _ => [a, Running, b]
  }

  lemma {:induction false} PathReaches(path: seq<LifeState>, a: LifeState, b: LifeState)
    requires TablePath(path, a, b)
    ensures Reaches(a, b)
    decreases |path|
  {
    if |path| > 1 {
      var init := path[..|path| - 1];
      forall k | 0 <= k < |init| - 1 ensures EdgeAt(init, k) {
        assert EdgeAt(path, k);
      }
      assert EdgeAt(path, |path| - 2);
      PathReaches(init, a, init[|init| - 1]);
      ReachesClosed(a, init[|init| - 1], b);
    }
  }

  /** Reachability is exactly the existence of a finite path along the table. */
  lemma {:induction false} ReachesExactly(a: LifeState, b: LifeState)
    ensures Reaches(a, b) <==> exists path :: TablePath(path, a, b)
  {
    if Reaches(a, b) {
      assert TablePath(Route(a, b), a, b);
    }
    forall path | TablePath(path, a, b) ensures Reaches(a, b) {
      PathReaches(path, a, b);
    }
  }

  lemma {:induction false} DefaultState()
    ensures StateOf(DefaultStatus(0)) == Name(Created)
  {
    CompleteNormal(DefaultStatus(0));
  }

  /** One logged call moves the state along the table, or is refused and changes nothing. */
  lemma {:induction false} LoggedStep(log: seq<StatusEvent>, e: StatusEvent)
    ensures var before := StateAfter(log); var after := StateAfter(log + [e]);
            if Permitted(before, e.op.target) then after == Name(e.op.target)
            else LockedFile.Replay(STATUS_MACHINE, log + [e]) == LockedFile.Replay(STATUS_MACHINE, log)
  {
    assert (log + [e])[..|log|] == log;
    TransitionedFields(LockedFile.Replay(STATUS_MACHINE, log), e.op);
  }

  lemma {:induction false} StateNamed(log: seq<StatusEvent>)
    ensures StateAfter(log).Name?
  {
    if log == [] {
      DefaultState();
    } else {
      var n := |log| - 1;
      assert log == log[..n] + [log[n]];
      StateNamed(log[..n]);
      LoggedStep(log[..n], log[n]);
    }
  }

  lemma {:induction false} LoggedState(log: seq<StatusEvent>, e: StatusEvent)
    ensures StateAfter(log + [e]) ==
            if Permitted(StateAfter(log), e.op.target) then Name(e.op.target) else StateAfter(log)
  {
    hide Permitted, LockedFile.Replay, StateOf;
    LoggedStep(log, e);
  }

  /** From any point of the log to any later one the state has moved along the table. */
  lemma {:induction false} StatesFollowTable(log: seq<StatusEvent>, i: nat, j: nat)
    requires i <= j <= |log|
    ensures StateAfter(log[..i]).Name? && StateAfter(log[..j]).Name?
    ensures Reaches(StateAfter(log[..i]).s, StateAfter(log[..j]).s)
    decreases j - i
  {
    hide StateAfter, AllowedFrom;
    StateNamed(log[..i]);
    StateNamed(log[..j]);
    if i < j {
      StatesFollowTable(log, i, j - 1);
      assert log[..j] == log[..j - 1] + [log[j - 1]];
      LoggedState(log[..j - 1], log[j - 1]);
      ReachesClosed(StateAfter(log[..i]).s, StateAfter(log[..j - 1]).s, log[j - 1].op.target);
    }
  }

  /** The state stays, or moves along one edge of the table. */
  predicate Edge(from: Json, to: Json) {
    from.Name? && to.Name? && (to == from || to.s in AllowedFrom(from.s))
  }

  lemma {:induction false} LogIsPath(log: seq<StatusEvent>, k: nat)
    requires k < |log|
    ensures Edge(StateAfter(log[..k]), StateAfter(log[..k + 1]))
  {
    StateNamed(log[..k]);
    assert log[..k + 1] == log[..k] + [log[k]];
    LoggedStep(log[..k], log[k]);
  }

  /**
    Any number of processes calling transition_state, with crashes at any step: the file is whole
    and holds exactly the payload that the logged calls give one after the other, so none is lost;
    the committed states form a path in the table with self-loops, which never returns to created
    and never leaves deleted.
   */
  lemma {:induction false} TransitionsAreAtomic(actions: seq<LockedFile.Action<Transition>>, i: nat, j: nat)
    requires i <= j <= |LockedFile.Run(STATUS_MACHINE, actions).log|
    ensures var w := LockedFile.Run(STATUS_MACHINE, actions);
            && (w.file.Some? ==> w.file.value.Whole?)
            && LockedFile.Contents(STATUS_MACHINE, w) == LockedFile.Replay(STATUS_MACHINE, w.log)
            && (forall k :: 0 <= k < |w.log| ==> Edge(StateAfter(w.log[..k]), StateAfter(w.log[..k + 1])))
            && LockedFile.Faithful(STATUS_MACHINE, w.log)
            && (StateAfter(w.log[..i]) != Name(Created) ==> StateAfter(w.log[..j]) != Name(Created))
            && (StateAfter(w.log[..i]) == Name(Deleted) ==> StateAfter(w.log[..j]) == Name(Deleted))
  {
    LockedFile.Linearizable(STATUS_MACHINE, actions);
    var log := LockedFile.Run(STATUS_MACHINE, actions).log;
    hide LockedFile.Run, LockedFile.Replay, LockedFile.Contents, StateAfter, Edge;
    StatesFollowTable(log, i, j);
    forall k | 0 <= k < |log| ensures Edge(StateAfter(log[..k]), StateAfter(log[..k + 1])) {
      LogIsPath(log, k);
    }
  }

  /**
    In any run of transition_state calls, a call made while nobody holds the lock can return: a
    permitted one leaves its payload in the file and returns it, a refused one leaves the file alone
    and says which transition was refused.
   */
  lemma {:induction false} TransitionReturns(
    actions: seq<LockedFile.Action<Transition>>, pid: nat, op: Transition)
    requires LockedFile.MayCall(LockedFile.Run(STATUS_MACHINE, actions), pid)
    ensures var w := LockedFile.Run(STATUS_MACHINE, actions);
            var v := LockedFile.Run(STATUS_MACHINE, actions + LockedFile.CallSteps(pid, op));
            var payload := LockedFile.Contents(STATUS_MACHINE, w);
            var phase := LockedFile.PhaseOf(v, pid);
            && v.lock == None && phase.Returned? && phase.op == op && |v.log| == |w.log| + 1
            && if Permitted(StateOf(payload), op.target) then
                 v.file == Some(LockedFile.Whole(Transitioned(payload, op))) &&
                 phase.reply == Ok(Transitioned(payload, op))
               else v.file == w.file && phase.reply == Err((StateOf(payload), op.target))
  {
    hide LockedFile.Run, LockedFile.CallSteps, LockedFile.PhaseOf, LockedFile.Contents, Transitioned, StateOf,
      Permitted;
    LockedFile.CallReturns(STATUS_MACHINE, actions, pid, op);
  }
}
