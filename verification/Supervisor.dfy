/**
  `axis run` without interference: the loop over passes, each of which starts the runtime, takes an
  address, relays the output until the container exits, and gives the address back.
 */
module Supervisor {
  import opened Wrappers
  import opened Status
  import opened Network
  import opened ExitCodes

  /** How one pass goes, as the outside world decides. */
  datatype Pass =
    | NoRuntime                         // the runtime cannot be started
    | NoNetwork                         // network setup fails before an address is taken
    | HalfNetwork                       // it fails after that, before network.json is written
    | Lost                              // something fails once network.json is written
    | Exits(code: int, oomKills: int)   // the container exits

  datatype LoopResult = Supervising | Returned(code: int) | Raised | Rejected

  /** What one write of the status may do: follow the table, and leave set timestamps alone. */
  predicate LawfulWrite(before: Dict, after: Dict) {
    && StateOf(after).Name? && Permitted(StateOf(before), StateOf(after).s)
    && KeepsTime(before, after, StartedAt) && KeepsTime(before, after, FinishedAt)
  }

  predicate KeepsTime(before: Dict, after: Dict, f: Field) {
    Truthy(Get(Normalize(before), f)) ==> Get(Normalize(after), f) == Get(Normalize(before), f)
  }

  predicate Lawful(history: seq<Dict>) {
    forall k :: 0 < k < |history| ==> LawfulWrite(history[k - 1], history[k])
  }

  /** A timestamp that is set never changes again. */
  lemma {:induction false} TimesNeverChange(history: seq<Dict>, i: nat, j: nat, f: Field)
    requires Lawful(history) && i <= j < |history| && (f == StartedAt || f == FinishedAt)
    requires Truthy(Get(Normalize(history[i]), f))
    ensures Get(Normalize(history[j]), f) == Get(Normalize(history[i]), f)
    decreases j - i
  {
    if i < j {
      TimesNeverChange(history, i, j - 1, f);
      assert LawfulWrite(history[j - 1], history[j]);
    }
  }

  lemma {:induction false} LawfulOne(history: seq<Dict>, d: Dict)
    requires Lawful(history) && history != [] && LawfulWrite(history[|history| - 1], d)
    ensures Lawful(history + [d])
  {
    hide LawfulWrite;
  }

  function RestartsOf(d: Dict): Json { Get(Normalize(d), RestartCount) }

  /** No stop command has asked the container to end. */
  predicate Wanted(d: Dict) { !Truthy(ManualOf(d)) }

  /** The extra fields that the supervisor passes. */
  predicate OrdinaryExtra(extra: Dict) { forall f :: f in extra ==> !Managed(f) }

  lemma {:induction false} TransitionLawful(d: Dict, op: Transition)
    requires Permitted(StateOf(d), op.target)
    ensures StateOf(Transitioned(d, op)) == Name(op.target)
    ensures OrdinaryExtra(op.extra) ==> LawfulWrite(d, Transitioned(d, op))
    ensures RestartsOf(Transitioned(d, op)) ==
            if RestartCount in op.extra then op.extra[RestartCount] else RestartsOf(d)
    ensures Wanted(Transitioned(d, op)) <==> if ManualStop in op.extra then !Truthy(op.extra[ManualStop]) else Wanted(d)
  {
    hide Transitioned, Normalize, Truthy;
    TransitionedFields(d, op);
    NormalizeComplete(d);
    NormalizeComplete(Transitioned(d, op));
    assert !Managed(ManualStop) && !Managed(RestartCount);
  }

  lemma {:induction false} WriteLawful(d: Dict, target: LifeState, extra: Dict, now: nat)
    ensures var p := WriteStatus(d, target, extra, now);
            && StateOf(p) == Name(target)
            && (OrdinaryExtra(extra) && Permitted(StateOf(d), target) ==> LawfulWrite(d, p))
            && RestartsOf(p) == (if RestartCount in extra then extra[RestartCount] else RestartsOf(d))
            && (Wanted(p) <==> if ManualStop in extra then !Truthy(extra[ManualStop]) else Wanted(d))
  {
    hide Stamped, Normalize, Truthy;
    StampedFields(d, target, extra, now);
    NormalizeComplete(d);
    NormalizeComplete(WriteStatus(d, target, extra, now));
    assert !Stamps(ManualStop) && !Stamps(RestartCount);
  }

  lemma {:induction false} HasRestartCount(d: Dict)
    ensures Get(Normalize(d), RestartCount, Int(0)) == RestartsOf(d)
  {
    NormalizeComplete(d);
  }

  /** The end of a pass as status.json tells it: the code and the reason. */
  predicate ReportsReason(after: Dict, code: int, oomKills: int) {
    && StateOf(after) == Name(Exited) && Get(after, ExitCode) == Int(code) && Get(after, Pid) == Null
    && Truthy(Get(after, FinishedAt))
    && Get(after, ExitReason) ==
       Text(if oomKills > 0 then "oom_killed" else if code >= 128 then "signal" else if code == 0 then "completed"
            else "error")
  }

  /**
    With it whether it was an OOM kill, and the signal. A signal leaves the flag of an earlier OOM kill,
    and the other endings leave the signal of an earlier pass.
   */
  predicate ReportsExit(before: Dict, after: Dict, code: int, oomKills: int) {
    && ReportsReason(after, code, oomKills)
    && Get(after, OomKilled) ==
       (if oomKills > 0 then Bool(true) else if code < 128 then Bool(false) else Get(Normalize(before), OomKilled))
    && Get(after, ExitSignal) ==
       (if oomKills <= 0 && code >= 128 then Int(code - 128) else Get(Normalize(before), ExitSignal))
  }

  function ExitExtra(d: Dict, code: int, oomKills: int): Dict {
    map[ExitCode := Int(code), Pid := Null, ManualStop := ManualOf(d)] + ExitDetails(code, oomKills)
  }

  lemma {:induction false} ExitExtraFields(d: Dict, code: int, oomKills: int)
    ensures var extra := ExitExtra(d, code, oomKills);
            && RestartCount !in extra && ManualStop in extra && extra[ManualStop] == ManualOf(d)
            && ExitCode in extra && extra[ExitCode] == Int(code) && Pid in extra && extra[Pid] == Null
            && FinishedAt !in extra
  {
    hide Normalize, ManualOf;
  }

  lemma {:induction false} ExitExtraOrdinary(d: Dict, code: int, oomKills: int)
    ensures OrdinaryExtra(ExitExtra(d, code, oomKills))
  {
    hide Normalize, ManualOf;
  }

  predicate SameAt(d: Dict, e: Dict, f: Field) {
    (f in d <==> f in e) && (f in d ==> d[f] == e[f])
  }

  lemma {:induction false} ExitExtraDetails(d: Dict, code: int, oomKills: int)
    ensures var extra := ExitExtra(d, code, oomKills); var details := ExitDetails(code, oomKills);
            SameAt(extra, details, ExitReason) && SameAt(extra, details, OomKilled) &&
            SameAt(extra, details, ExitSignal)
  {
    hide Normalize, ManualOf;
  }

  lemma {:induction false} ExitReported(d: Dict, code: int, oomKills: int, now: nat)
    ensures ReportsExit(d, Transitioned(d, Transition(Exited, ExitExtra(d, code, oomKills), now)), code, oomKills)
  {
    hide Transitioned, Normalize, StateOf, Truthy, ExitExtra, ExitDetails;
    ExitExtraFields(d, code, oomKills);
    ExitExtraDetails(d, code, oomKills);
    DetailsExactly(code, oomKills);
    DetailsReason(code, oomKills);
    ExitFieldsKept(d, ExitExtra(d, code, oomKills), now);
  }

  lemma {:induction false} ExitFieldsKept(d: Dict, extra: Dict, now: nat)
    requires FinishedAt !in extra
    ensures var p := Transitioned(d, Transition(Exited, extra, now));
            && StateOf(p) == Name(Exited) && Truthy(Get(p, FinishedAt))
            && (ExitCode in extra ==> Get(p, ExitCode) == extra[ExitCode])
            && (Pid in extra ==> Get(p, Pid) == extra[Pid])
            && (ExitReason in extra ==> Get(p, ExitReason) == extra[ExitReason])
            && Get(p, OomKilled) == (if OomKilled in extra then extra[OomKilled] else Get(Normalize(d), OomKilled))
            && Get(p, ExitSignal) == (if ExitSignal in extra then extra[ExitSignal] else Get(Normalize(d), ExitSignal))
  {
    hide Transitioned, Normalize, StateOf;
    TransitionedFields(d, Transition(Exited, extra, now));
    assert Truthy(Time(now));
  }

  lemma {:induction false} DetailsReason(code: int, oomKills: int)
    ensures var d := ExitDetails(code, oomKills);
            ExitReason in d && (OomKilled in d <==> oomKills > 0 || code < 128)
  {
  }

  /** The write of the running state keeps what the report leaves alone. */
  lemma {:induction false} ReportsSince(first: Dict, running: Dict, after: Dict, pid: int, pass: Pass)
    requires pass.Exits? && MarkedRunning(first, running, pid) && ReportsExit(running, after, pass.code, pass.oomKills)
    ensures ReportsExit(first, after, pass.code, pass.oomKills)
  {
    hide Normalize, StateOf, Truthy;
  }

  /** The pass reaches its normal end: the container exits after it was given an address. */
  predicate Completes(held: Allocations, id: string, pass: Pass) {
    pass.Exits? && Apply(held, Allocate(id)).reply.Some?
  }

  class Container {
    const id: string
    const restart: bool                // RESTART always
    const store: NetworkStore
    var status: Dict                   // status.json
    var networkFile: bool              // network.json exists
    var clock: nat
    ghost var history: seq<Dict>       // what status.json has held, oldest first

    ghost predicate Valid()
      reads this
    {
      history != [] && history[|history| - 1] == status
    }

    /** Nothing has interfered: every write so far was lawful, and no stop has been asked for. */
    ghost predicate Alone()
      reads this
    {
      Valid() && Lawful(history) && Wanted(status)
    }

    /** A container as run_command leaves it before the loop. */
    constructor (id: string, restart: bool, store: NetworkStore, status: Dict)
      requires StateOf(status) == Name(Created) && Wanted(status)
      ensures Alone() && this.id == id && this.restart == restart && this.store == store && this.status == status
      ensures history == [status] && fresh(this)
    {
      this.id, this.restart, this.store := id, restart, store;
      this.status, this.networkFile, this.clock, this.history := status, false, 0, [status];
    }

    /** write_status: no validation, whatever the target and the extra fields. */
    method WriteStatusFile(target: LifeState, extra: Dict)
      requires Valid()
      modifies this
      ensures Valid() && status == WriteStatus(old(status), target, extra, old(clock))
      ensures history == old(history) + [status] && networkFile == old(networkFile)
      ensures StateOf(status) == Name(target)
      ensures RestartsOf(status) == if RestartCount in extra then extra[RestartCount] else RestartsOf(old(status))
      ensures Wanted(status) <==> if ManualStop in extra then !Truthy(extra[ManualStop]) else Wanted(old(status))
      ensures Lawful(old(history)) && OrdinaryExtra(extra) && old(Permitted(StateOf(status), target)) ==>
                Lawful(history)
    {
      hide StateOf, Normalize, Permitted, RestartsOf, LawfulWrite, Lawful, Wanted, WriteStatus, Truthy, OrdinaryExtra;
      WriteLawful(status, target, extra, clock);
      ghost var lawful := Lawful(history) && OrdinaryExtra(extra) && Permitted(StateOf(status), target);
      status, clock := WriteStatus(status, target, extra, clock), clock + 1;
      if lawful {
        LawfulOne(history, status);
      }
      history := history + [status];
    }

    /** transition_state: refused exactly when the table forbids it, and then nothing is written. */
    method TransitionTo(target: LifeState, extra: Dict) returns (accepted: bool)
      requires Valid()
      modifies this
      ensures Valid() && networkFile == old(networkFile) && (accepted <==> Permitted(StateOf(old(status)), target))
      ensures !accepted ==> status == old(status) && history == old(history)
      ensures accepted ==> history == old(history) + [status]
      ensures accepted ==> status == Transitioned(old(status), Transition(target, extra, old(clock)))
      ensures accepted ==> StateOf(status) == Name(target)
      ensures accepted && RestartCount in extra ==> RestartsOf(status) == extra[RestartCount]
      ensures accepted && RestartCount !in extra ==> RestartsOf(status) == RestartsOf(old(status))
      ensures accepted && ManualStop in extra ==> (Wanted(status) <==> !Truthy(extra[ManualStop]))
      ensures accepted && ManualStop !in extra ==> (Wanted(status) <==> Wanted(old(status)))
      ensures Lawful(old(history)) && OrdinaryExtra(extra) ==> Lawful(history)
    {
      hide Transitioned, StateOf, Normalize, Permitted, RestartsOf, LawfulWrite, Lawful, Wanted, Truthy, OrdinaryExtra;
      var op := Transition(target, extra, clock);
      accepted := Permitted(StateOf(status), target);
      if accepted {
        TransitionLawful(status, op);
        ghost var lawful := Lawful(history) && OrdinaryExtra(extra);
        status, clock := Transitioned(status, op), clock + 1;
        if lawful {
          LawfulOne(history, status);
        }
        history := history + [status];
      }
    }

    /** The exception handler and the finally clause of a pass. */
    method Fail(networkWritten: bool)
      requires Alone() && (StateOf(status) == Name(Starting) || StateOf(status) == Name(Running))
      modifies this, store
      ensures Alone() && MarkedFailed(old(status), status) && history == old(history) + [status]
      ensures RestartsOf(status) == RestartsOf(old(status))
      ensures networkWritten && old(networkFile) ==> store.allocations == old(store.allocations) - {id}
      ensures !networkWritten ==> store.allocations == old(store.allocations)
    {
      hide StateOf, Normalize, RestartsOf, LawfulWrite, Lawful, Wanted, WriteStatus, MarkedFailed;
      FailedMarks(status, clock);
      WriteStatusFile(Failed, map[ExitReason := Text("runtime_error"), DesiredState := Name(Exited)]);
      if networkWritten && networkFile {
        store.ReleaseIp(id);
      }
    }

    /** The top of the loop: what the file says about stops and restarts is written back. */
    method MarkStarting() returns (accepted: bool)
      requires Alone() && (StateOf(status) == Name(Created) || StateOf(status) == Name(Exited))
      modifies this
      ensures Alone() && accepted && history == old(history) + [status] && StateOf(status) == Name(Starting)
      ensures RestartsOf(status) == RestartsOf(old(status)) && MarkedStarting(old(status), status)
    {
      hide Transitioned, StateOf, Normalize, LawfulWrite, Lawful, MarkedStarting;
      var restarts := Get(Normalize(status), RestartCount, Int(0));
      HasRestartCount(status);
      StartingMarks(status, clock);
      accepted := TransitionTo(
        Starting, map[DesiredState := Name(Running), ManualStop := ManualOf(status), RestartCount := restarts]);
    }

    /** The write before the sleep: one more restart. */
    method CountRestart()
      requires Alone() && StateOf(status) == Name(Exited) && RestartsOf(status).Int?
      modifies this
      ensures Alone() && old(history) <= history && StateOf(status) == Name(Exited)
      ensures RestartsOf(status) == Int(RestartsOf(old(status)).n + 1)
    {
      hide WriteStatus, StateOf, Normalize, LawfulWrite, Lawful, Wanted;
      HasRestartCount(status);
      var restarts := Get(Normalize(status), RestartCount, Int(0));
      WriteStatusFile(Exited, map[RestartCount := Int(restarts.n + 1)]);
    }

    /** The runtime reports its pid: false when the transition is refused. */
    method MarkRunning(pid: int) returns (accepted: bool)
      requires Alone() && StateOf(status) == Name(Starting)
      modifies this
      ensures Alone() && accepted && history == old(history) + [status] && StateOf(status) == Name(Running)
      ensures RestartsOf(status) == RestartsOf(old(status)) && MarkedRunning(old(status), status, pid)
    {
      hide Transitioned, StateOf, Normalize, RestartsOf, LawfulWrite, Lawful, Wanted, MarkedRunning;
      RunningMarks(status, pid, clock);
      accepted := TransitionTo(Running, map[Pid := Int(pid), ManualStop := Bool(false), DesiredState := Name(Running)]);
    }

    /** The end of a pass whose container has exited. */
    method MarkExited(code: int, oomKills: int) returns (accepted: bool)
      requires Alone() && StateOf(status) == Name(Running)
      modifies this
      ensures Alone() && accepted && old(history) <= history && StateOf(status) == Name(Exited)
      ensures RestartsOf(status) == RestartsOf(old(status)) && ReportsExit(old(status), status, code, oomKills)
      ensures history == old(history) + [status]
    {
      hide Transitioned, StateOf, Normalize, RestartsOf, LawfulWrite, Lawful, ReportsExit, ExitExtra, OrdinaryExtra;
      ExitExtraFields(status, code, oomKills);
      ExitExtraOrdinary(status, code, oomKills);
      ExitReported(status, code, oomKills, clock);
      accepted := TransitionTo(Exited, ExitExtra(status, code, oomKills));
    }

    /** run_container_once: the exit code, or none when an exception leaves it. */
    method RunOnce(pass: Pass) returns (code: Option<int>, rejected: bool)
      requires Alone() && StateOf(status) == Name(Starting) && id !in store.allocations
      modifies this, store
      ensures Alone() && !rejected && old(history) <= history && RestartsOf(status) == RestartsOf(old(status))
      ensures code.Some? <==> Completes(old(store.allocations), id, pass)
      ensures code.Some? ==> code.value == pass.code && StateOf(status) == Name(Exited)
      ensures code.Some? ==> ReportsExit(old(status), status, pass.code, pass.oomKills)
      ensures code.None? ==> |history| >= 2 && MarkedFailed(history[|history| - 2], status)
      ensures code.Some? || !pass.NoRuntime? ==>
                |history| == |old(history)| + 2 && MarkedRunning(old(status), history[|old(history)|], old(clock))
      ensures code.None? && pass.NoRuntime? ==> |history| == |old(history)| + 1
      ensures code.Some? || !pass.HalfNetwork? ==> store.allocations == old(store.allocations)
      ensures code.None? && pass.HalfNetwork? ==> store.allocations == After(old(store.allocations), Allocate(id))
    {
      hide StateOf, Normalize, RestartsOf, LawfulWrite, Lawful, Wanted, ReportsExit, MarkedRunning, MarkedFailed,
        FirstFree, Free, LeastFree;
      if pass.NoRuntime? {
        Fail(false);
        return None, false;
      }
      var accepted := MarkRunning(clock);
      if !accepted {
        return None, true;
      }
      if pass.NoNetwork? {
        Fail(false);
        return None, false;
      }
      var host := store.AllocateIp(id);
      if host.None? || pass.HalfNetwork? {
        Fail(false);
        return None, false;
      }
      networkFile := true;
      if pass.Lost? {
        Fail(true);
        return None, false;
      }
      ghost var running := status;
      accepted := MarkExited(pass.code, pass.oomKills);
      if !accepted {
        return None, true;
      }
      ReportsSince(old(status), running, status, old(clock), pass);
      store.ReleaseIp(id);
      return Some(pass.code), false;
    }

    /**
      run_container_loop over the passes that the outside world will make; it is still supervising
      when they run out. `taken` counts the restarts.
     */
    method RunContainerLoop(passes: seq<Pass>) returns (result: LoopResult, ghost taken: nat)
      requires Alone() && StateOf(status) == Name(Created) && RestartsOf(status).Int? && id !in store.allocations
      modifies this, store
      ensures Alone() && old(history) <= history
      ensures RestartsOf(status) == Int(RestartsOf(old(status)).n + taken)
      ensures taken <= |passes| && forall k :: 0 <= k < taken ==> Completes(old(store.allocations), id, passes[k])
      ensures match result
              case Supervising => taken == |passes| && (restart || taken == 0)
              case Returned(code) =>
                !restart && taken == 0 < |passes| && Completes(old(store.allocations), id, passes[0]) &&
                code == passes[0].code
              case Raised =>
                taken < |passes| && (restart || taken == 0) && !Completes(old(store.allocations), id, passes[taken])
              case Rejected => false
      ensures result.Returned? ==> ReportsReason(status, passes[0].code, passes[0].oomKills)
      ensures result.Raised? ==> |history| >= 2 && MarkedFailed(history[|history| - 2], status)
      ensures store.allocations ==
              if result.Raised? && passes[taken].HalfNetwork? then After(old(store.allocations), Allocate(id))
              else old(store.allocations)
    {
      hide StateOf, Normalize, RestartsOf, LawfulWrite, Lawful, Completes, ReportsReason, MarkedRunning, MarkedFailed,
        After;
      ghost var first := RestartsOf(status).n;
      ghost var held := store.allocations;
      taken := 0;
      for i := 0 to |passes|
        invariant Alone() && old(history) <= history && store.allocations == held && id !in held
        invariant taken == i && (i > 0 ==> restart)
        invariant StateOf(status) == Name(if i == 0 then Created else Exited)
        invariant RestartsOf(status) == Int(first + i)
        invariant forall k :: 0 <= k < i ==> Completes(held, id, passes[k])
      {
        var accepted := MarkStarting();
        if !accepted {
          return Rejected, taken;
        }
        var code, rejected := RunOnce(passes[i]);
        if rejected {
          return Rejected, taken;
        }
        if code.None? {
          return Raised, taken;
        }
        if !restart || Truthy(ManualOf(status)) {
          return Returned(code.value), taken;
        }
        CountRestart();
        taken := taken + 1;
      }
      return Supervising, taken;
    }
  }
}
