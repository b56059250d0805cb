/**
  A file that many processes update with the same protocol: take an flock, read the file, decide,
  write a temporary file, rename it over the file, release. A process may die at any step, which
  frees its lock and leaves its temporary file behind. Every run of it is, in lock order, a run of
  the operations applied one at a time to the contents.
 */
module LockedFile {
  import opened Wrappers

  /** What an operation does to the contents: write new ones, or leave the file alone. */
  datatype Outcome<S, R> = Write(next: S, reply: R) | Keep(reply: R)

  /** `init` is what a missing file reads as. */
  datatype Machine<!S, !Op, !R> = Machine(init: S, apply: (S, Op) -> Outcome<S, R>) {
    function After(s: S, op: Op): S {
      match apply(s, op)
      case Write(next, _) => next
      case Keep(_) => s
    }
  }

  // ----- the processes

  /** A file on disk, possibly half written. */
  datatype File<S> = Partial | Whole(payload: S)

  /** `begun` is the length of the log when the call began, `at` the place where it took effect. */
  datatype Phase<S, Op, R> =
    | Idle
    | Waiting(op: Op, begun: nat)
    | Locked(op: Op, begun: nat)
    | Decided(op: Op, begun: nat, seen: S)             // the file is read and the outcome is a write
    | Opened(op: Op, begun: nat, seen: S)              // the temporary file is open and incomplete
    | Filled(op: Op, begun: nat, seen: S)              // the temporary file is complete and synced
    | Leaving(op: Op, begun: nat, reply: R, at: nat)   // still locked, nothing left to write
    | Returned(op: Op, begun: nat, reply: R, at: nat)  // the lock is free again

  datatype Event<Op, R> = Event(pid: nat, op: Op, reply: R)

  /** `log` is the order in which the operations took effect. */
  datatype World<S, Op, R> = World(
    file: Option<File<S>>,
    temps: map<nat, File<S>>,
    lock: Option<nat>,
    phases: map<nat, Phase<S, Op, R>>,
    log: seq<Event<Op, R>>)

  function PhaseOf<S, Op, R>(w: World<S, Op, R>, pid: nat): Phase<S, Op, R> {
    if pid in w.phases then w.phases[pid] else Idle
  }

  datatype Action<Op> =
    | Begin(pid: nat, op: Op)
    | Acquire(pid: nat)
    | ReadFile(pid: nat)
    | OpenTemp(pid: nat)
    | FillTemp(pid: nat)
    | Rename(pid: nat)
    | Release(pid: nat)
    | Crash(pid: nat)

  function Contents<S, Op, R>(m: Machine<S, Op, R>, w: World<S, Op, R>): S {
    if w.file.Some? && w.file.value.Whole? then w.file.value.payload else m.init
  }

  function Next<S, Op, R>(m: Machine<S, Op, R>, s: S, op: Op): S
    requires m.apply(s, op).Write?
  {
    m.apply(s, op).next
  }

  function Enter<S, Op, R>(w: World<S, Op, R>, pid: nat, phase: Phase<S, Op, R>): World<S, Op, R> {
    w.(phases := w.phases[pid := phase])
  }

  /** One step of one process; a step that is not enabled changes nothing. */
  function Step<S, Op, R>(m: Machine<S, Op, R>, w: World<S, Op, R>, a: Action<Op>): World<S, Op, R> {
    match (a, PhaseOf(w, a.pid))
    case (Begin(pid, op), Idle) => Enter(w, pid, Waiting(op, |w.log|))
    case (Begin(pid, op), Returned(_, _, _, _)) => Enter(w, pid, Waiting(op, |w.log|))
    case (Acquire(pid), Waiting(op, begun)) =>
      if w.lock.None? then Enter(w, pid, Locked(op, begun)).(lock := Some(pid)) else w
    case (ReadFile(pid), Locked(op, begun)) =>
      var s := Contents(m, w);
      (match m.apply(s, op)
       case Write(_, _) => Enter(w, pid, Decided(op, begun, s))
       case Keep(reply) =>
         Enter(w, pid, Leaving(op, begun, reply, |w.log|)).(log := w.log + [Event(pid, op, reply)]))
    case (OpenTemp(pid), Decided(op, begun, seen)) =>
      Enter(w, pid, Opened(op, begun, seen)).(temps := w.temps[pid := Partial])
    case (FillTemp(pid), Opened(op, begun, seen)) =>
      if m.apply(seen, op).Write? then
        Enter(w, pid, Filled(op, begun, seen)).(temps := w.temps[pid := Whole(Next(m, seen, op))])
      else w
    case (Rename(pid), Filled(op, begun, seen)) =>
      if pid in w.temps then
        var reply := m.apply(seen, op).reply;
        Enter(w, pid, Leaving(op, begun, reply, |w.log|)).(
        file := Some(w.temps[pid]), temps := w.temps - {pid}, log := w.log + [Event(pid, op, reply)])
      else w
    case (Release(pid), Leaving(op, begun, reply, at)) =>
      Enter(w, pid, Returned(op, begun, reply, at)).(lock := None)
    case (Crash(pid), _) => Enter(w, pid, Idle).(lock := if w.lock == Some(pid) then None else w.lock)
    case _ => w
  }

  function Run<S, Op, R>(m: Machine<S, Op, R>, actions: seq<Action<Op>>): World<S, Op, R> {
    if actions == [] then World(None, map[], None, map[], [])
    else Step(m, Run(m, actions[..|actions| - 1]), actions[|actions| - 1])
  }

  // ----- the abstract machine

  /** The contents after the logged operations, applied one at a time to the initial contents. */
  function Replay<S, Op, R>(m: Machine<S, Op, R>, log: seq<Event<Op, R>>): S {
    if log == [] then m.init else m.After(Replay(m, log[..|log| - 1]), log[|log| - 1].op)
  }

  /** Every logged operation got the reply that the abstract machine gives at its turn. */
  predicate Faithful<S, Op, R(==)>(m: Machine<S, Op, R>, log: seq<Event<Op, R>>) {
    forall i :: 0 <= i < |log| ==> log[i].reply == m.apply(Replay(m, log[..i]), log[i].op).reply
  }

  lemma {:induction false} LogOne<S, Op, R>(m: Machine<S, Op, R>, log: seq<Event<Op, R>>, e: Event<Op, R>)
    requires Faithful(m, log) && e.reply == m.apply(Replay(m, log), e.op).reply
    ensures Replay(m, log + [e]) == m.After(Replay(m, log), e.op) && Faithful(m, log + [e])
  {
    assert (log + [e])[..|log|] == log;
    forall i | 0 <= i < |log + [e]|
      ensures (log + [e])[i].reply == m.apply(Replay(m, (log + [e])[..i]), (log + [e])[i].op).reply
    {
      assert i < |log| ==> (log + [e])[..i] == log[..i];
    }
  }

  // ----- the invariant

  predicate Holding<S, Op, R>(phase: Phase<S, Op, R>) {
    phase.Locked? || phase.Decided? || phase.Opened? || phase.Filled? || phase.Leaving?
  }

  predicate Writing<S, Op, R>(phase: Phase<S, Op, R>) { phase.Decided? || phase.Opened? || phase.Filled? }

  /** What the state of one process says about the file, the lock and the log. */
  ghost predicate PhaseOk<S, Op, R>(m: Machine<S, Op, R>, w: World<S, Op, R>, pid: nat) {
    var phase := PhaseOf(w, pid);
    && (Holding(phase) <==> w.lock == Some(pid))
    && (Writing(phase) ==> phase.seen == Contents(m, w) && m.apply(phase.seen, phase.op).Write?)
    && (phase.Filled? ==> pid in w.temps && w.temps[pid] == Whole(Next(m, phase.seen, phase.op)))
    && (phase.Leaving? || phase.Returned? ==>
          phase.begun <= phase.at < |w.log| && w.log[phase.at] == Event(pid, phase.op, phase.reply))
    && (!phase.Idle? ==> phase.begun <= |w.log|)
  }

  ghost predicate Inv<S, Op, R>(m: Machine<S, Op, R>, w: World<S, Op, R>) {
    && (w.file.Some? ==> w.file.value.Whole?)
    && Contents(m, w) == Replay(m, w.log) && Faithful(m, w.log)
    && forall pid: nat :: PhaseOk(m, w, pid)
  }

  /** What a step leaves as it is, whatever it does. */
  lemma {:induction false} StepFrame<S, Op, R>(m: Machine<S, Op, R>, w: World<S, Op, R>, a: Action<Op>)
    requires Inv(m, w)
    ensures var w' := Step(m, w, a);
            (w'.file.Some? ==> w'.file.value.Whole?) && Contents(m, w') == Replay(m, w'.log) && Faithful(m, w'.log) &&
            w.log <= w'.log && (w'.log != w.log ==> Holding(PhaseOf(w, a.pid))) &&
            (Contents(m, w') != Contents(m, w) ==> Holding(PhaseOf(w, a.pid)))
  {
    hide Replay, Faithful;
    var w' := Step(m, w, a);
    assert PhaseOk(m, w, a.pid);
    var phase := PhaseOf(w, a.pid);
    if a.ReadFile? && phase.Locked? && m.apply(Contents(m, w), phase.op).Keep? {
      LogOne(m, w.log, Event(a.pid, phase.op, m.apply(Contents(m, w), phase.op).reply));
    } else if a.Rename? && phase.Filled? {
      LogOne(m, w.log, Event(a.pid, phase.op, m.apply(phase.seen, phase.op).reply));
    }
  }

  lemma {:induction false} StepOwn<S, Op, R>(m: Machine<S, Op, R>, w: World<S, Op, R>, a: Action<Op>)
    requires Inv(m, w)
    ensures PhaseOk(m, Step(m, w, a), a.pid)
  {
    hide Replay, Faithful;
    assert PhaseOk(m, w, a.pid);
  }

  lemma {:induction false} StepOther<S, Op, R>(m: Machine<S, Op, R>, w: World<S, Op, R>, a: Action<Op>, pid: nat)
    requires Inv(m, w) && pid != a.pid
    ensures PhaseOk(m, Step(m, w, a), pid)
  {
    hide Replay, Faithful;
    assert PhaseOk(m, w, a.pid) && PhaseOk(m, w, pid);
    assert PhaseOf(Step(m, w, a), pid) == PhaseOf(w, pid);
  }

  lemma {:induction false} StepInv<S, Op, R>(m: Machine<S, Op, R>, w: World<S, Op, R>, a: Action<Op>)
    requires Inv(m, w)
    ensures Inv(m, Step(m, w, a))
  {
    hide Step, PhaseOk, Replay, Faithful, Contents;
    StepFrame(m, w, a);
    forall pid: nat ensures PhaseOk(m, Step(m, w, a), pid) {
      if pid == a.pid {
        StepOwn(m, w, a);
      } else {
        StepOther(m, w, a, pid);
      }
    }
  }

  lemma {:induction false} RunInv<S, Op, R>(m: Machine<S, Op, R>, actions: seq<Action<Op>>)
    ensures Inv(m, Run(m, actions))
  {
    if actions != [] {
      RunInv(m, actions[..|actions| - 1]);
      StepInv(m, Run(m, actions[..|actions| - 1]), actions[|actions| - 1]);
    }
  }

  /**
    Refinement: after any interleaving with any crashes the file is whole and holds what the logged
    operations give one at a time, every reply is the abstract one, at most one process holds the
    lock, and every call that returned is in the log, with the reply it returned, at a place between
    its beginning and now.
   */
  lemma {:induction false} Linearizable<S, Op, R>(m: Machine<S, Op, R>, actions: seq<Action<Op>>)
    ensures var w := Run(m, actions);
            (w.file.Some? ==> w.file.value.Whole?) &&
            Contents(m, w) == Replay(m, w.log) && Faithful(m, w.log)
    ensures forall p, q: nat ::
              Holding(PhaseOf(Run(m, actions), p)) && Holding(PhaseOf(Run(m, actions), q)) ==> p == q
    ensures forall pid: nat :: var phase := PhaseOf(Run(m, actions), pid);
              phase.Returned? ==>
                phase.begun <= phase.at < |Run(m, actions).log| &&
                Run(m, actions).log[phase.at] == Event(pid, phase.op, phase.reply)
  {
    RunInv(m, actions);
    var w := Run(m, actions);
    forall p, q: nat | Holding(PhaseOf(w, p)) && Holding(PhaseOf(w, q)) ensures p == q {
      assert PhaseOk(m, w, p) && PhaseOk(m, w, q);
    }
    forall pid: nat | PhaseOf(w, pid).Returned?
      ensures var phase := PhaseOf(w, pid);
              phase.begun <= phase.at < |w.log| && w.log[phase.at] == Event(pid, phase.op, phase.reply)
    {
      assert PhaseOk(m, w, pid);
    }
  }

  lemma {:induction false} StepGrows<S, Op, R>(m: Machine<S, Op, R>, w: World<S, Op, R>, a: Action<Op>)
    ensures w.log <= Step(m, w, a).log
  {
  }

  /** What took effect stays: the log only grows. */
  lemma {:induction false} LogGrows<S, Op, R>(m: Machine<S, Op, R>, actions: seq<Action<Op>>, more: seq<Action<Op>>)
    ensures Run(m, actions).log <= Run(m, actions + more).log
    decreases |more|
  {
    if more == [] {
      assert actions + more == actions;
    } else {
      var n := |more| - 1;
      LogGrows(m, actions, more[..n]);
      assert actions + more == actions + more[..n] + [more[n]];
      hide Run, Step;
      RunSplit(m, actions + more[..n], more[n]);
      StepGrows(m, Run(m, actions + more[..n]), more[n]);
    }
  }

  lemma {:induction false} RunSplit<S, Op, R>(m: Machine<S, Op, R>, actions: seq<Action<Op>>, a: Action<Op>)
    ensures Run(m, actions + [a]) == Step(m, Run(m, actions), a)
  {
    assert (actions + [a])[..|actions|] == actions;
  }

  /** A call of this process, if one is under way or done, began when the log had `floor` entries or more. */
  predicate BegunFrom<S, Op, R>(w: World<S, Op, R>, pid: nat, floor: nat) {
    floor <= |w.log| && (PhaseOf(w, pid).Idle? || floor <= PhaseOf(w, pid).begun)
  }

  lemma BegunStep<S, Op, R>(
    m: Machine<S, Op, R>, w: World<S, Op, R>, a: Action<Op>, pid: nat, floor: nat)
    requires BegunFrom(w, pid, floor)
    ensures BegunFrom(Step(m, w, a), pid, floor)
  {
  }

  lemma {:induction false} BegunLater<S, Op, R>(
    m: Machine<S, Op, R>, actions: seq<Action<Op>>, more: seq<Action<Op>>, pid: nat, floor: nat)
    requires BegunFrom(Run(m, actions), pid, floor)
    ensures BegunFrom(Run(m, actions + more), pid, floor)
    decreases |more|
  {
    hide BegunFrom, Run, Step;
    if more == [] {
      assert actions + more == actions;
    } else {
      var n := |more| - 1;
      BegunLater(m, actions, more[..n], pid, floor);
      assert actions + more == actions + more[..n] + [more[n]];
      RunSplit(m, actions + more[..n], more[n]);
      BegunStep(m, Run(m, actions + more[..n]), more[n], pid, floor);
    }
  }

  /**
    Real time: a call that begins after another has returned takes effect after it, whichever
    processes make them and whatever happens in between.
   */
  lemma {:induction false} OrderKept<S, Op, R>(
    m: Machine<S, Op, R>, actions: seq<Action<Op>>, earlier: nat, later: nat, op: Op, more: seq<Action<Op>>)
    requires PhaseOf(Run(m, actions), earlier).Returned?
    requires PhaseOf(Run(m, actions), later).Idle? || PhaseOf(Run(m, actions), later).Returned?
    requires PhaseOf(Run(m, actions + [Begin(later, op)] + more), later).Returned?
    ensures PhaseOf(Run(m, actions), earlier).at < PhaseOf(Run(m, actions + [Begin(later, op)] + more), later).at
  {
    var w := Run(m, actions);
    RunInv(m, actions);
    RunInv(m, actions + [Begin(later, op)] + more);
    RunSplit(m, actions, Begin(later, op));
    assert PhaseOk(m, w, earlier);
    assert PhaseOk(m, Run(m, actions + [Begin(later, op)] + more), later);
    assert BegunFrom(Run(m, actions + [Begin(later, op)]), later, |w.log|);
    hide Run, Step, Inv, Replay, Faithful;
    BegunLater(m, actions + [Begin(later, op)], more, later, |w.log|);
  }

  // ----- calls come to an end

  function StepAll<S, Op, R>(m: Machine<S, Op, R>, w: World<S, Op, R>, actions: seq<Action<Op>>): World<S, Op, R>
    decreases |actions|
  {
    if actions == [] then w else StepAll(m, Step(m, w, actions[0]), actions[1..])
  }

  lemma {:induction false} RunOn<S, Op, R>(m: Machine<S, Op, R>, actions: seq<Action<Op>>, more: seq<Action<Op>>)
    ensures Run(m, actions + more) == StepAll(m, Run(m, actions), more)
    decreases |more|
  {
    hide Step;
    if more == [] {
      assert actions + more == actions;
    } else {
      RunSplit(m, actions, more[0]);
      RunOn(m, actions + [more[0]], more[1..]);
      assert actions + [more[0]] + more[1..] == actions + more;
    }
  }

  lemma {:induction false} StepOne<S, Op, R>(
    m: Machine<S, Op, R>, w: World<S, Op, R>, a: Action<Op>, more: seq<Action<Op>>)
    ensures StepAll(m, w, [a] + more) == StepAll(m, Step(m, w, a), more)
  {
    hide Step;
    assert ([a] + more)[1..] == more;
  }

  /** The steps of one call. */
  function CallSteps<Op>(pid: nat, op: Op): seq<Action<Op>> {
    [Begin(pid, op), Acquire(pid), ReadFile(pid), OpenTemp(pid), FillTemp(pid), Rename(pid), Release(pid)]
  }

  /** What a call that ran alone has done: the file, the reply and the log, and nothing else. */
  ghost predicate Called<S, Op, R>(m: Machine<S, Op, R>, w: World<S, Op, R>, pid: nat, op: Op, v: World<S, Op, R>) {
    var outcome := m.apply(Contents(m, w), op);
    && v.lock == None
    && PhaseOf(v, pid) == Returned(op, |w.log|, outcome.reply, |w.log|)
    && (forall p: nat :: p != pid ==> PhaseOf(v, p) == PhaseOf(w, p))
    && v.log == w.log + [Event(pid, op, outcome.reply)]
    && v.temps == (if outcome.Write? then w.temps - {pid} else w.temps)
    && v.file == if outcome.Write? then Some(Whole(outcome.next)) else w.file
  }

  /** A process that may begin, and a lock that nobody holds. */
  predicate MayCall<S, Op, R>(w: World<S, Op, R>, pid: nat) {
    w.lock == None && (PhaseOf(w, pid).Idle? || PhaseOf(w, pid).Returned?)
  }

  /** The first three steps: the file is read under the lock. */
  lemma {:induction false} CallReads<S, Op, R>(m: Machine<S, Op, R>, w: World<S, Op, R>, pid: nat, op: Op)
    requires MayCall(w, pid)
    ensures var v := Step(m, Step(m, Step(m, w, Begin(pid, op)), Acquire(pid)), ReadFile(pid));
            var s := Contents(m, w);
            && v.lock == Some(pid) && v.file == w.file && v.temps == w.temps
            && (forall p: nat :: p != pid ==> PhaseOf(v, p) == PhaseOf(w, p))
            && match m.apply(s, op)
               case Write(_, _) => PhaseOf(v, pid) == Decided(op, |w.log|, s) && v.log == w.log
               case Keep(reply) =>
                 PhaseOf(v, pid) == Leaving(op, |w.log|, reply, |w.log|) && v.log == w.log + [Event(pid, op, reply)]
  {
    var w1 := Step(m, w, Begin(pid, op));
    assert PhaseOf(w1, pid) == Waiting(op, |w.log|);
    var w2 := Step(m, w1, Acquire(pid));
    assert PhaseOf(w2, pid) == Locked(op, |w.log|) && Contents(m, w2) == Contents(m, w);
  }

  /** The next three: a write puts the new contents in place. */
  lemma {:induction false} CallWrites<S, Op, R>(m: Machine<S, Op, R>, v: World<S, Op, R>, pid: nat)
    requires PhaseOf(v, pid).Decided? && m.apply(PhaseOf(v, pid).seen, PhaseOf(v, pid).op).Write?
    ensures var u := Step(m, Step(m, Step(m, v, OpenTemp(pid)), FillTemp(pid)), Rename(pid));
            var phase := PhaseOf(v, pid); var outcome := m.apply(phase.seen, phase.op);
            && u.lock == v.lock && u.file == Some(Whole(outcome.next)) && u.temps == v.temps - {pid}
            && PhaseOf(u, pid) == Leaving(phase.op, phase.begun, outcome.reply, |v.log|)
            && (forall p: nat :: p != pid ==> PhaseOf(u, p) == PhaseOf(v, p))
            && u.log == v.log + [Event(pid, phase.op, outcome.reply)]
  {
    var phase := PhaseOf(v, pid);
    var v1 := Step(m, v, OpenTemp(pid));
    assert PhaseOf(v1, pid) == Opened(phase.op, phase.begun, phase.seen);
    var v2 := Step(m, v1, FillTemp(pid));
    assert PhaseOf(v2, pid) == Filled(phase.op, phase.begun, phase.seen);
    assert v2.temps[pid] == Whole(Next(m, phase.seen, phase.op));
    assert v2.temps - {pid} == v.temps - {pid};
  }

  /** A call that leaves the file alone passes them by. */
  lemma {:induction false} CallKeeps<S, Op, R>(m: Machine<S, Op, R>, v: World<S, Op, R>, pid: nat)
    requires PhaseOf(v, pid).Leaving?
    ensures Step(m, Step(m, Step(m, v, OpenTemp(pid)), FillTemp(pid)), Rename(pid)) == v
  {
  }

  lemma {:induction false} CallReleases<S, Op, R>(m: Machine<S, Op, R>, v: World<S, Op, R>, pid: nat)
    requires PhaseOf(v, pid).Leaving?
    ensures var u := Step(m, v, Release(pid)); var phase := PhaseOf(v, pid);
            u.lock == None && u.file == v.file && u.log == v.log && u.temps == v.temps &&
            PhaseOf(u, pid) == Returned(phase.op, phase.begun, phase.reply, phase.at) &&
            forall p: nat :: p != pid ==> PhaseOf(u, p) == PhaseOf(v, p)
  {
  }

  /** A call that runs alone takes effect and returns: a write is in the file. */
  lemma {:induction false} CallCompletes<S, Op, R>(m: Machine<S, Op, R>, w: World<S, Op, R>, pid: nat, op: Op)
    requires MayCall(w, pid)
    ensures Called(m, w, pid, op, StepAll(m, w, CallSteps(pid, op)))
  {
    hide Step, PhaseOf, Contents;
    SevenSteps(m, w, pid, op);
    CallReads(m, w, pid, op);
    var v := Step(m, Step(m, Step(m, w, Begin(pid, op)), Acquire(pid)), ReadFile(pid));
    if m.apply(Contents(m, w), op).Write? {
      CallWrites(m, v, pid);
    } else {
      CallKeeps(m, v, pid);
    }
    CallReleases(m, Step(m, Step(m, Step(m, v, OpenTemp(pid)), FillTemp(pid)), Rename(pid)), pid);
  }

  lemma {:induction false} SevenSteps<S, Op, R>(m: Machine<S, Op, R>, w: World<S, Op, R>, pid: nat, op: Op)
    ensures var v := Step(m, Step(m, Step(m, w, Begin(pid, op)), Acquire(pid)), ReadFile(pid));
            StepAll(m, w, CallSteps(pid, op)) ==
            Step(m, Step(m, Step(m, Step(m, v, OpenTemp(pid)), FillTemp(pid)), Rename(pid)), Release(pid))
  {
    var w1 := Step(m, w, Begin(pid, op));
    var w2 := Step(m, w1, Acquire(pid));
    var w3 := Step(m, w2, ReadFile(pid));
    var w4 := Step(m, w3, OpenTemp(pid));
    var w5 := Step(m, w4, FillTemp(pid));
    var w6 := Step(m, w5, Rename(pid));
    hide Step;
    var a6: seq<Action<Op>> := [Release(pid)] + [];
    var a5 := [Rename(pid)] + a6;
    var a4 := [FillTemp(pid)] + a5;
    var a3 := [OpenTemp(pid)] + a4;
    var a2 := [ReadFile(pid)] + a3;
    var a1 := [Acquire(pid)] + a2;
    assert CallSteps(pid, op) == [Begin(pid, op)] + a1;
    StepOne(m, w, Begin(pid, op), a1);
    StepOne(m, w1, Acquire(pid), a2);
    StepOne(m, w2, ReadFile(pid), a3);
    StepOne(m, w3, OpenTemp(pid), a4);
    StepOne(m, w4, FillTemp(pid), a5);
    StepOne(m, w5, Rename(pid), a6);
    StepOne(m, w6, Release(pid), []);
  }

  /** In any run, a call made while nobody holds the lock can return, and its write is then in the file. */
  lemma {:induction false} CallReturns<S, Op, R>(
    m: Machine<S, Op, R>, actions: seq<Action<Op>>, pid: nat, op: Op)
    requires MayCall(Run(m, actions), pid)
    ensures Called(m, Run(m, actions), pid, op, Run(m, actions + CallSteps(pid, op)))
    ensures Contents(m, Run(m, actions + CallSteps(pid, op))) == m.After(Contents(m, Run(m, actions)), op)
  {
    hide Run, StepAll, CallSteps, PhaseOf;
    RunOn(m, actions, CallSteps(pid, op));
    CallCompletes(m, Run(m, actions), pid, op);
  }

  /** No process dies. */
  predicate NoCrash<Op>(actions: seq<Action<Op>>) { forall i :: 0 <= i < |actions| ==> !actions[i].Crash? }

  /** The next step of a process inside its call, and how many are left until it releases the lock. */
  function NextStep<S, Op, R>(phase: Phase<S, Op, R>, pid: nat): Action<Op> {
    match phase
    case Locked(_, _) => ReadFile(pid)
    case Decided(_, _, _) => OpenTemp(pid)
    case Opened(_, _, _) => FillTemp(pid)
    case Filled(_, _, _) => Rename(pid)
    case _ => Release(pid)
  }

  function StepsLeft<S, Op, R>(phase: Phase<S, Op, R>): nat {
    match phase
    case Locked(_, _) => 5
    case Decided(_, _, _) => 4
    case Opened(_, _, _) => 3
    case Filled(_, _, _) => 2
    case Leaving(_, _, _, _) => 1
    case _ => 0
  }

  lemma {:induction false} HolderStep<S, Op, R>(m: Machine<S, Op, R>, w: World<S, Op, R>, pid: nat)
    requires Inv(m, w) && w.lock == Some(pid)
    ensures var v := Step(m, w, NextStep(PhaseOf(w, pid), pid));
            (v.lock == None && PhaseOf(v, pid).Returned? && PhaseOf(v, pid).op == PhaseOf(w, pid).op) ||
            (v.lock == w.lock && StepsLeft(PhaseOf(v, pid)) < StepsLeft(PhaseOf(w, pid)) &&
             Holding(PhaseOf(v, pid)) && PhaseOf(v, pid).op == PhaseOf(w, pid).op)
  {
    hide Replay, Faithful;
    assert PhaseOk(m, w, pid);
  }

  /** From any reachable world the holder of the lock can go on, without a crash, until its call returns. */
  lemma {:induction false} HolderReturns<S, Op, R>(m: Machine<S, Op, R>, w: World<S, Op, R>, pid: nat)
    returns (actions: seq<Action<Op>>)
    requires Inv(m, w) && w.lock == Some(pid)
    ensures NoCrash(actions) && Inv(m, StepAll(m, w, actions)) && StepAll(m, w, actions).lock == None
    ensures Holding(PhaseOf(w, pid)) && PhaseOf(StepAll(m, w, actions), pid).Returned?
    ensures PhaseOf(StepAll(m, w, actions), pid).op == PhaseOf(w, pid).op
    decreases StepsLeft(PhaseOf(w, pid))
  {
    assert PhaseOk(m, w, pid);
    hide Step, Inv, PhaseOf, StepsLeft;
    var a := NextStep(PhaseOf(w, pid), pid);
    HolderStep(m, w, pid);
    StepInv(m, w, a);
    var v := Step(m, w, a);
    var rest: seq<Action<Op>> := [];
    if v.lock != None {
      rest := HolderReturns(m, v, pid);
    }
    actions := [a] + rest;
    StepOne(m, w, a, rest);
  }
}
