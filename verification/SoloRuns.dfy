/**
  What the commands of StopProtocol do when nothing interrupts them: every step of a stop command and
  of a pass of the supervisor, told by the status file and by whether the process is alive.
 */
module SoloRuns {
  import opened Wrappers
  import opened Status
  import opened StopProtocol

  /** The world after the first k steps of this stop command, one choice a step. */
  function StopAt(w: World, id: nat, cs: seq<Choice>, k: nat): World
    requires k <= |cs|
  {
    if k == 0 then w else StopNext(StopAt(w, id, cs, k - 1), id, cs[k - 1])
  }

  function StopSteps(id: nat, cs: seq<Choice>, k: nat): seq<Action>
    requires k <= |cs|
  {
    if k == 0 then [] else StopSteps(id, cs, k - 1) + [StopStep(id, cs[k - 1])]
  }

  /** It is a run of the protocol. */
  lemma {:induction false} StopAtRuns(w: World, id: nat, cs: seq<Choice>, k: nat)
    requires k <= |cs|
    ensures StopAt(w, id, cs, k) == RunFrom(w, StopSteps(id, cs, k)) && NoCrash(StopSteps(id, cs, k))
  {
    hide StopNext;
    if k > 0 {
      StopAtRuns(w, id, cs, k - 1);
      var last := [StopStep(id, cs[k - 1])];
      RunJoin(w, StopSteps(id, cs, k - 1), last);
      assert last[1..] == [];
    }
  }

  /** Nothing but this stop command, the lock and the file differ. */
  ghost predicate OnlyStop(w: World, v: World, id: nat) {
    v.sup == w.sup && v.passes == w.passes && v.always == w.always &&
    forall j: nat :: j != id ==> StopOf(v, j) == StopOf(w, j)
  }

  /** The world w with this stop command at s, and this lock and file. */
  function Put(w: World, id: nat, s: Stop, lock: Option<Holder>, file: Dict): World {
    w.(stops := w.stops[id := s], lock := lock, file := file)
  }

  lemma {:induction false} PutAgain(w: World, id: nat, s: Stop, t: Stop, lock: Option<Holder>, next: Option<Holder>,
      file: Dict, after: Dict)
    ensures StopPut(Put(w, id, s, lock, file), id, t).(lock := next, file := after) == Put(w, id, t, next, after)
    ensures StopOf(Put(w, id, s, lock, file), id) == s
  {
    assert w.stops[id := s][id := t] == w.stops[id := t];
  }

  lemma {:induction false} PutFrame(w: World, id: nat, s: Stop, lock: Option<Holder>, file: Dict)
    ensures OnlyStop(w, Put(w, id, s, lock, file), id)
  {
  }

  // ----- the steps of one call

  /** The call of a stop command at s that has come to tx. */
  function Calling(stopped: bool, tx: Tx): Stop { if stopped then ToStopped(tx) else ToStopping(tx) }

  lemma {:induction false} PutParts(w: World, id: nat, s: Stop, lock: Option<Holder>, file: Dict)
    ensures var v := Put(w, id, s, lock, file); v.lock == lock && v.file == file && StopOf(v, id) == s
  {
  }

  lemma {:induction false} CallWaits(w: World, id: nat, c: Choice, stopped: bool, op: Transition, file: Dict)
    ensures StopNext(Put(w, id, Calling(stopped, Wait(op)), None, file), id, c) ==
            Put(w, id, Calling(stopped, Held(op)), Some(ByStop(id)), file)
  {
    hide Transitioned, StateOf, Permitted, WriteStatus, Normalize, StoppingOp, StoppedOp, StopExtra, Put;
    PutAgain(w, id, Calling(stopped, Wait(op)), Calling(stopped, Held(op)), None, Some(ByStop(id)), file, file);
    PutParts(w, id, Calling(stopped, Wait(op)), None, file);
  }

  lemma {:induction false} CallDecides(w: World, id: nat, c: Choice, stopped: bool, op: Transition, file: Dict)
    ensures var p := Transitioned(file, op.(now := c.now)); var mine := Some(ByStop(id));
            StopNext(Put(w, id, Calling(stopped, Held(op)), mine, file), id, c) ==
            if Permitted(StateOf(file), op.target) then Put(w, id, Calling(stopped, Ready(p)), mine, file)
            else Put(w, id, Gone, None, file)
  {
    hide Transitioned, StateOf, Permitted, WriteStatus, Normalize, StoppingOp, StoppedOp, StopExtra, Put;
    var p := Transitioned(file, op.(now := c.now));
    var mine := Some(ByStop(id));
    PutAgain(w, id, Calling(stopped, Held(op)), Calling(stopped, Ready(p)), mine, mine, file, file);
    PutAgain(w, id, Calling(stopped, Held(op)), Gone, mine, None, file, file);
    PutParts(w, id, Calling(stopped, Held(op)), mine, file);
  }

  lemma {:induction false} CallRenames(w: World, id: nat, c: Choice, stopped: bool, payload: Dict, file: Dict)
    ensures StopNext(Put(w, id, Calling(stopped, Ready(payload)), Some(ByStop(id)), file), id, c) ==
            Put(w, id, Calling(stopped, Committed), Some(ByStop(id)), payload)
  {
    hide Transitioned, StateOf, Permitted, WriteStatus, Normalize, StoppingOp, StoppedOp, StopExtra, Put;
    var mine := Some(ByStop(id));
    PutAgain(w, id, Calling(stopped, Ready(payload)), Calling(stopped, Committed), mine, mine, file, payload);
    PutParts(w, id, Calling(stopped, Ready(payload)), mine, file);
  }

  lemma {:induction false} CallReleases(w: World, id: nat, c: Choice, stopped: bool, file: Dict)
    ensures StopNext(Put(w, id, Calling(stopped, Committed), Some(ByStop(id)), file), id, c) ==
            Put(w, id, if stopped then Gone else Kill, None, file)
  {
    hide Transitioned, StateOf, Permitted, WriteStatus, Normalize, StoppingOp, StoppedOp, StopExtra, Put;
    PutAgain(w, id, Calling(stopped, Committed), if stopped then Gone else Kill, Some(ByStop(id)), None, file, file);
    PutParts(w, id, Calling(stopped, Committed), Some(ByStop(id)), file);
  }

  /** A call that the table permits. */
  lemma {:induction false} CallSteps(
    w: World, id: nat, cs: seq<Choice>, k: nat, stopped: bool, op: Transition, file: Dict)
    requires k + 4 <= |cs| && StopAt(w, id, cs, k) == Put(w, id, Calling(stopped, Wait(op)), None, file)
    requires Permitted(StateOf(file), op.target)
    ensures var p := Transitioned(file, op.(now := cs[k + 1].now)); var mine := Some(ByStop(id));
            && StopAt(w, id, cs, k + 1) == Put(w, id, Calling(stopped, Held(op)), mine, file)
            && StopAt(w, id, cs, k + 2) == Put(w, id, Calling(stopped, Ready(p)), mine, file)
            && StopAt(w, id, cs, k + 3) == Put(w, id, Calling(stopped, Committed), mine, p)
            && StopAt(w, id, cs, k + 4) == Put(w, id, if stopped then Gone else Kill, None, p)
  {
    hide Transitioned, StateOf, Permitted, StopNext, Put, Calling;
    var p := Transitioned(file, op.(now := cs[k + 1].now));
    CallWaits(w, id, cs[k], stopped, op, file);
    CallDecides(w, id, cs[k + 1], stopped, op, file);
    CallRenames(w, id, cs[k + 2], stopped, p, file);
    CallReleases(w, id, cs[k + 3], stopped, p);
  }

  // ----- what the writes of a stop command say

  /** A stop has been asked for. */
  ghost predicate AskedToStop(before: Dict, after: Dict, changed: set<Field>) {
    Get(after, ManualStop) == Bool(true) && Get(after, DesiredState) == Name(Exited) &&
    RestKept(before, after, changed + {ManualStop, DesiredState})
  }

  ghost predicate MarkedStopping(before: Dict, after: Dict) {
    StateOf(after) == Name(Stopping) && AskedToStop(before, after, {})
  }

  ghost predicate MarkedStopped(before: Dict, after: Dict) {
    StateOf(after) == Name(Exited) && Get(after, ExitReason) == Text("stopped") && Truthy(Get(after, FinishedAt)) &&
    AskedToStop(before, after, {ExitReason, FinishedAt})
  }

  /** The write for a container that does not run: its exit reason and its times stay. */
  ghost predicate MarkedExited(before: Dict, after: Dict) {
    StateOf(after) == Name(Exited) && AskedToStop(before, after, {})
  }

  lemma {:induction false} StoppingSays(d: Dict, asked: nat, now: nat)
    ensures MarkedStopping(d, Transitioned(d, StoppingOp(asked).(now := now)))
  {
    hide Transitioned, Normalize, StateOf;
    TransitionedFields(d, StoppingOp(asked).(now := now));
  }

  lemma {:induction false} StoppedSays(d: Dict, asked: nat, now: nat)
    ensures MarkedStopped(d, Transitioned(d, StoppedOp(asked).(now := now)))
  {
    hide Transitioned, Normalize, StateOf;
    TransitionedFields(d, StoppedOp(asked).(now := now));
    assert Truthy(Time(now));
  }

  lemma {:induction false} QuickSays(d: Dict, now: nat)
    ensures MarkedExited(d, WriteStatus(d, Exited, StopExtra(), now))
  {
    hide Stamped, Normalize, StateOf;
    StampedFields(d, Exited, StopExtra(), now);
  }

  /** Both writes together. */
  lemma {:induction false} StoppedSince(before: Dict, stopping: Dict, stopped: Dict)
    requires MarkedStopping(before, stopping) && MarkedStopped(stopping, stopped) && Normalize(stopping) == stopping
    ensures MarkedStopped(before, stopped)
  {
    hide Normalize, StateOf, Truthy;
  }

  // ----- the other steps of a stop command

  /** The container counts as ended, so that a stop command only writes the status. */
  predicate CountsAsEnded(state: Json, alive: bool) {
    state == Name(Exited) || state == Name(Failed) || state == Name(Deleted) || !alive
  }

  lemma {:induction false} LookStep(w: World, id: nat, c: Choice)
    requires StopOf(w, id).Look?
    ensures StopNext(w, id, c) ==
            Put(
              w, id, if CountsAsEnded(StateOf(w.file), c.alive) then QuickRead else ToStopping(Wait(StoppingOp(c.now))),
              w.lock, w.file)
  {
    hide Transitioned, StateOf, Permitted, WriteStatus, Normalize, StoppingOp, StoppedOp, StopExtra;
  }

  lemma {:induction false} QuickReadStep(w: World, id: nat, c: Choice)
    ensures StopNext(Put(w, id, QuickRead, w.lock, w.file), id, c) ==
            Put(w, id, QuickWrite(WriteStatus(w.file, Exited, StopExtra(), c.now)), w.lock, w.file)
  {
    hide Transitioned, StateOf, Permitted, WriteStatus, Normalize, StoppingOp, StoppedOp, StopExtra, Put;
    var payload := WriteStatus(w.file, Exited, StopExtra(), c.now);
    PutAgain(w, id, QuickRead, QuickWrite(payload), w.lock, w.lock, w.file, w.file);
    PutParts(w, id, QuickRead, w.lock, w.file);
  }

  lemma {:induction false} QuickWriteStep(w: World, id: nat, c: Choice, payload: Dict)
    ensures StopNext(Put(w, id, QuickWrite(payload), w.lock, w.file), id, c) == Put(w, id, Gone, w.lock, payload)
  {
    hide Transitioned, StateOf, Permitted, WriteStatus, Normalize, StoppingOp, StoppedOp, StopExtra, Put;
    PutAgain(w, id, QuickWrite(payload), Gone, w.lock, w.lock, w.file, payload);
    PutParts(w, id, QuickWrite(payload), w.lock, w.file);
  }

  lemma {:induction false} KillStep(w: World, id: nat, c: Choice, file: Dict)
    ensures StopNext(Put(w, id, Kill, None, file), id, c) ==
            Put(w, id, ToStopped(Wait(StoppedOp(c.now))), None, file)
  {
    hide Transitioned, StateOf, Permitted, WriteStatus, Normalize, StoppingOp, StoppedOp, StopExtra, Put;
    PutAgain(w, id, Kill, ToStopped(Wait(StoppedOp(c.now))), None, None, file, file);
    PutParts(w, id, Kill, None, file);
  }

  // ----- a stop command from its start to its end

  /** This stop command is there, with this file, and the lock is free or not. */
  ghost predicate StopIs(w: World, v: World, id: nat, s: Stop, lock: Option<Holder>, file: Dict) {
    StopOf(v, id) == s && v.lock == lock && v.file == file && OnlyStop(w, v, id)
  }

  lemma {:induction false} PutIs(w: World, id: nat, s: Stop, lock: Option<Holder>, file: Dict)
    ensures StopIs(w, Put(w, id, s, lock, file), id, s, lock, file)
  {
    hide Put, OnlyStop;
    PutParts(w, id, s, lock, file);
    PutFrame(w, id, s, lock, file);
  }

  /** The file and the lock along the way, for a stop whose two transitions are permitted. */
  lemma {:induction false} LiveTrace(w: World, id: nat, cs: seq<Choice>, p: Dict, q: Dict)
    requires StopOf(w, id).Look? && w.lock.None? && |cs| == 10 && !CountsAsEnded(StateOf(w.file), cs[0].alive)
    requires Permitted(StateOf(w.file), Stopping) && Permitted(StateOf(p), Exited)
    requires p == Transitioned(w.file, StoppingOp(cs[0].now).(now := cs[2].now))
    requires q == Transitioned(p, StoppedOp(cs[5].now).(now := cs[7].now))
    ensures var mine := Some(ByStop(id)); var first := StoppingOp(cs[0].now); var last := StoppedOp(cs[5].now);
            && StopAt(w, id, cs, 1) == Put(w, id, ToStopping(Wait(first)), None, w.file)
            && StopAt(w, id, cs, 2) == Put(w, id, ToStopping(Held(first)), mine, w.file)
            && StopAt(w, id, cs, 3) == Put(w, id, ToStopping(Ready(p)), mine, w.file)
            && StopAt(w, id, cs, 4) == Put(w, id, ToStopping(Committed), mine, p)
            && StopAt(w, id, cs, 5) == Put(w, id, Kill, None, p)
            && StopAt(w, id, cs, 6) == Put(w, id, ToStopped(Wait(last)), None, p)
            && StopAt(w, id, cs, 7) == Put(w, id, ToStopped(Held(last)), mine, p)
            && StopAt(w, id, cs, 8) == Put(w, id, ToStopped(Ready(q)), mine, p)
            && StopAt(w, id, cs, 9) == Put(w, id, ToStopped(Committed), mine, q)
            && StopAt(w, id, cs, 10) == Put(w, id, Gone, None, q)
  {
    hide StopNext, Put, StateOf, Transitioned, StoppingOp, StoppedOp, CountsAsEnded, Permitted;
    StopTargets(cs[0].now, cs[5].now);
    assert StopAt(w, id, cs, 0) == w;
    LookStep(w, id, cs[0]);
    CallSteps(w, id, cs, 1, false, StoppingOp(cs[0].now), w.file);
    KillStep(w, id, cs[5], p);
    CallSteps(w, id, cs, 6, true, StoppedOp(cs[5].now), p);
  }

  lemma {:induction false} LiveFiles(w: World, id: nat, cs: seq<Choice>, p: Dict, q: Dict)
    requires StopOf(w, id).Look? && w.lock.None? && |cs| == 10 && !CountsAsEnded(StateOf(w.file), cs[0].alive)
    requires Permitted(StateOf(w.file), Stopping) && Permitted(StateOf(p), Exited)
    requires p == Transitioned(w.file, StoppingOp(cs[0].now).(now := cs[2].now))
    requires q == Transitioned(p, StoppedOp(cs[5].now).(now := cs[7].now))
    ensures forall k :: 0 <= k < 4 ==> StopAt(w, id, cs, k).file == w.file
    ensures forall k :: 4 <= k < 9 ==> StopAt(w, id, cs, k).file == p
    ensures StopIs(w, StopAt(w, id, cs, 5), id, Kill, None, p) && StopAt(w, id, cs, 9).file == q
    ensures StopIs(w, StopAt(w, id, cs, 10), id, Gone, None, q)
  {
    hide StopNext, Put, Transitioned, StoppingOp, StoppedOp, OnlyStop, StopAt, StopOf, StateOf, StopIs, Permitted,
      CountsAsEnded;
    LiveTrace(w, id, cs, p, q);
    AtStart(w, id, cs);
    var mine := Some(ByStop(id));
    PutParts(w, id, ToStopping(Wait(StoppingOp(cs[0].now))), None, w.file);
    PutParts(w, id, ToStopping(Held(StoppingOp(cs[0].now))), mine, w.file);
    PutParts(w, id, ToStopping(Ready(p)), mine, w.file);
    PutParts(w, id, ToStopping(Committed), mine, p);
    PutIs(w, id, Kill, None, p);
    PutParts(w, id, Kill, None, p);
    PutParts(w, id, ToStopped(Wait(StoppedOp(cs[5].now))), None, p);
    PutParts(w, id, ToStopped(Held(StoppedOp(cs[5].now))), mine, p);
    PutParts(w, id, ToStopped(Ready(q)), mine, p);
    PutParts(w, id, ToStopped(Committed), mine, q);
    PutIs(w, id, Gone, None, q);
  }

  /**
    A running container, or one already stopping, whose process is alive: the stop first marks it
    stopping under the lock, then kills, and only then marks it exited, and releases the lock.
   */
  lemma {:induction false} StopOfLive(w: World, id: nat, cs: seq<Choice>)
    requires StopOf(w, id).Look? && w.lock.None? && |cs| == 10 && cs[0].alive
    requires StateOf(w.file) == Name(Running) || StateOf(w.file) == Name(Stopping)
    ensures var stopping := StopAt(w, id, cs, 4).file; var stopped := StopAt(w, id, cs, 9).file;
            && MarkedStopping(w.file, stopping) && MarkedStopped(w.file, stopped)
            && (forall k :: 0 <= k < 4 ==> StopAt(w, id, cs, k).file == w.file)
            && (forall k :: 4 <= k < 9 ==> StopAt(w, id, cs, k).file == stopping)
            && StopIs(w, StopAt(w, id, cs, 5), id, Kill, None, stopping)
            && StopIs(w, StopAt(w, id, cs, 10), id, Gone, None, stopped)
  {
    hide StopNext, Put, Transitioned, StoppingOp, StoppedOp, OnlyStop, StopAt, StateOf, MarkedStopping, MarkedStopped,
      StopIs, Permitted, CountsAsEnded;
    var p := Transitioned(w.file, StoppingOp(cs[0].now).(now := cs[2].now));
    var q := Transitioned(p, StoppedOp(cs[5].now).(now := cs[7].now));
    StopSays(w.file, cs[0].now, cs[2].now, cs[5].now, cs[7].now);
    LiveFiles(w, id, cs, p, q);
  }

  lemma {:induction false} AtStart(w: World, id: nat, cs: seq<Choice>)
    ensures StopAt(w, id, cs, 0) == w
  {
  }

  lemma StopTargets(a: nat, b: nat)
    ensures StoppingOp(a).target == Stopping && StoppedOp(b).target == Exited
  {
  }

  /** The two writes of a stop, and that they are permitted. */
  lemma {:induction false} StopSays(d: Dict, a: nat, at: nat, b: nat, bt: nat)
    requires StateOf(d) == Name(Running) || StateOf(d) == Name(Stopping)
    ensures var p := Transitioned(d, StoppingOp(a).(now := at)); var q := Transitioned(p, StoppedOp(b).(now := bt));
            MarkedStopping(d, p) && MarkedStopped(d, q) && Permitted(StateOf(d), Stopping) &&
            Permitted(StateOf(p), Exited) && !CountsAsEnded(StateOf(d), true)
  {
    hide Transitioned, StoppingOp, StoppedOp, StateOf, Normalize, AskedToStop;
    var p := Transitioned(d, StoppingOp(a).(now := at));
    StoppingSays(d, a, at);
    StoppedSays(p, b, bt);
    TransitionedFields(d, StoppingOp(a).(now := at));
    StoppedSince(d, p, Transitioned(p, StoppedOp(b).(now := bt)));
  }

  /**
    A container that has ended, by its state or because its process is dead: whoever holds the lock,
    the stop makes one write, of exited, and never kills.
   */
  lemma {:induction false} StopOfEnded(w: World, id: nat, cs: seq<Choice>)
    requires StopOf(w, id).Look? && |cs| == 3 && CountsAsEnded(StateOf(w.file), cs[0].alive)
    ensures var v := StopAt(w, id, cs, 3);
            && StopIs(w, StopAt(w, id, cs, 1), id, QuickRead, w.lock, w.file)
            && StopAt(w, id, cs, 2).file == w.file && StopAt(w, id, cs, 2).lock == w.lock
            && StopOf(StopAt(w, id, cs, 2), id).QuickWrite?
            && StopIs(w, v, id, Gone, w.lock, v.file) && MarkedExited(w.file, v.file)
  {
    hide StopNext, Put, StateOf, CountsAsEnded, WriteStatus, OnlyStop, StopOf, StopIs, MarkedExited;
    var payload := WriteStatus(w.file, Exited, StopExtra(), cs[1].now);
    AtStart(w, id, cs);
    LookStep(w, id, cs[0]);
    QuickReadStep(w, id, cs[1]);
    QuickWriteStep(w, id, cs[2], payload);
    QuickSays(w.file, cs[1].now);
    PutIs(w, id, QuickRead, w.lock, w.file);
    PutParts(w, id, QuickWrite(payload), w.lock, w.file);
    PutIs(w, id, Gone, w.lock, payload);
    PutParts(w, id, Gone, w.lock, payload);
  }

  /**
    Any other container, such as one that is starting: the stop is refused under the lock, the file
    stays as it is, and nothing is killed.
   */
  lemma {:induction false} StopRefused(w: World, id: nat, cs: seq<Choice>)
    requires StopOf(w, id).Look? && w.lock.None? && |cs| == 3 && !CountsAsEnded(StateOf(w.file), cs[0].alive)
    requires StateOf(w.file) != Name(Running) && StateOf(w.file) != Name(Stopping)
    ensures StopOf(StopAt(w, id, cs, 1), id).ToStopping? && StopOf(StopAt(w, id, cs, 2), id).ToStopping?
    ensures StopAt(w, id, cs, 1).file == StopAt(w, id, cs, 2).file == w.file
    ensures StopIs(w, StopAt(w, id, cs, 3), id, Gone, None, w.file)
  {
    hide StopNext, Put, StateOf, CountsAsEnded, OnlyStop, StopOf, StopIs, StoppingOp, Transitioned;
    var op := StoppingOp(cs[0].now);
    StopTargets(cs[0].now, 0);
    PermittedExactly(StateOf(w.file), Stopping);
    hide Permitted;
    AtStart(w, id, cs);
    LookStep(w, id, cs[0]);
    CallWaits(w, id, cs[1], false, op, w.file);
    CallDecides(w, id, cs[2], false, op, w.file);
    PutParts(w, id, ToStopping(Wait(op)), None, w.file);
    PutParts(w, id, ToStopping(Held(op)), Some(ByStop(id)), w.file);
    PutIs(w, id, Gone, None, w.file);
  }

  // ----- a pass of the supervisor

  /** The world after the first k steps of the supervisor, one choice a step. */
  function SupAt(w: World, cs: seq<Choice>, k: nat): World
    requires k <= |cs|
  {
    if k == 0 then w else SupNext(SupAt(w, cs, k - 1), cs[k - 1])
  }

  function SupSteps(cs: seq<Choice>, k: nat): seq<Action>
    requires k <= |cs|
  {
    if k == 0 then [] else SupSteps(cs, k - 1) + [SupStep(cs[k - 1])]
  }

  lemma {:induction false} SupAtRuns(w: World, cs: seq<Choice>, k: nat)
    requires k <= |cs|
    ensures SupAt(w, cs, k) == RunFrom(w, SupSteps(cs, k)) && NoCrash(SupSteps(cs, k))
  {
    hide SupNext;
    if k > 0 {
      SupAtRuns(w, cs, k - 1);
      var last := [SupStep(cs[k - 1])];
      RunJoin(w, SupSteps(cs, k - 1), last);
      assert last[1..] == [];
    }
  }

  lemma {:induction false} SupAtStart(w: World, cs: seq<Choice>)
    ensures SupAt(w, cs, 0) == w
  {
  }

  /** The world w with the supervisor here, and this lock, file and number of passes. */
  function PutSup(w: World, s: Sup, lock: Option<Holder>, file: Dict, passes: nat): World {
    w.(sup := s, lock := lock, file := file, passes := passes)
  }

  /** Inside the transition to this state. */
  function Entering(target: LifeState, tx: Tx): Sup {
    match target
    case Starting => ToStarting(tx)
    case Running => ToRunning(tx)
    case _ => ToExited(tx)
  }

  /** Where the supervisor is after it. */
  function Entered(target: LifeState): Sup {
    match target
    case Starting => Launch
    case Running => Up
    case _ => ReadEnd
  }

  lemma {:induction false} SupWaits(w: World, c: Choice, t: LifeState, op: Transition, file: Dict, n: nat)
    ensures SupNext(PutSup(w, Entering(t, Wait(op)), None, file, n), c) ==
            PutSup(w, Entering(t, Held(op)), Some(BySup), file, n)
  {
    hide Transitioned, StateOf, Permitted, WriteStatus, Normalize, StartOp, RunOp, ExitOp, Count, ManualIn, Truthy;
  }

  lemma {:induction false} SupDecides(w: World, c: Choice, t: LifeState, op: Transition, file: Dict, n: nat)
    requires Permitted(StateOf(file), op.target)
    ensures SupNext(PutSup(w, Entering(t, Held(op)), Some(BySup), file, n), c) ==
            PutSup(w, Entering(t, Ready(Transitioned(file, op.(now := c.now)))), Some(BySup), file, n)
  {
    hide Transitioned, StateOf, Permitted, WriteStatus, Normalize, StartOp, RunOp, ExitOp, Count, ManualIn, Truthy;
  }

  lemma {:induction false} SupRenames(w: World, c: Choice, t: LifeState, payload: Dict, file: Dict, n: nat)
    ensures SupNext(PutSup(w, Entering(t, Ready(payload)), Some(BySup), file, n), c) ==
            PutSup(w, Entering(t, Committed), Some(BySup), payload, if t == Starting then n + 1 else n)
  {
    hide Transitioned, StateOf, Permitted, WriteStatus, Normalize, StartOp, RunOp, ExitOp, Count, ManualIn, Truthy;
  }

  lemma {:induction false} SupReleases(w: World, c: Choice, t: LifeState, file: Dict, n: nat)
    ensures SupNext(PutSup(w, Entering(t, Committed), Some(BySup), file, n), c) ==
            PutSup(w, Entered(t), None, file, n)
  {
    hide Transitioned, StateOf, Permitted, WriteStatus, Normalize, StartOp, RunOp, ExitOp, Count, ManualIn, Truthy;
  }

  /** The phase, the file, the lock and the number of passes. */
  predicate SupIs(v: World, s: Sup, lock: Option<Holder>, file: Dict, passes: nat) {
    v.sup == s && v.lock == lock && v.file == file && v.passes == passes
  }

  /** The four steps of a transition that the table permits, from step k on. */
  lemma {:induction false} SupCallSteps(
    w: World, cs: seq<Choice>, k: nat, t: LifeState, op: Transition, file: Dict, n: nat, p: Dict)
    requires k + 4 <= |cs| && SupAt(w, cs, k) == PutSup(w, Entering(t, Wait(op)), None, file, n)
    requires Permitted(StateOf(file), op.target) && p == Transitioned(file, op.(now := cs[k + 1].now))
    ensures SupAt(w, cs, k + 1).file == SupAt(w, cs, k + 2).file == file
    ensures SupAt(w, cs, k + 3).file == p
    ensures SupAt(w, cs, k + 4) == PutSup(w, Entered(t), None, p, if t == Starting then n + 1 else n)
  {
    hide Transitioned, StateOf, Permitted, SupNext, Entering, Entered;
    SupWaits(w, cs[k], t, op, file, n);
    SupDecides(w, cs[k + 1], t, op, file, n);
    SupRenames(w, cs[k + 2], t, p, file, n);
    SupReleases(w, cs[k + 3], t, p, if t == Starting then n + 1 else n);
  }

  // ----- what the writes of the supervisor say

  ghost predicate MarkedEnded(before: Dict, after: Dict, details: Dict) {
    StateOf(after) == Name(Exited) && Get(after, Pid) == Null && Truthy(Get(after, FinishedAt)) &&
    (forall f :: f in details && f != Pid && f != ManualStop && !Managed(f) ==> Get(after, f) == details[f]) &&
    RestKept(before, after, details.Keys + {Pid, FinishedAt} - {ManualStop})
  }

  ghost predicate MarkedAgain(before: Dict, after: Dict) {
    StateOf(after) == Name(Exited) && Get(after, RestartCount) == Int(Count(Normalize(before)) + 1) &&
    RestKept(before, after, {RestartCount})
  }

  lemma {:induction false} ExitSays(d: Dict, details: Dict, asked: nat, now: nat)
    requires FinishedAt !in details && StartedAt !in details
    ensures MarkedEnded(d, Transitioned(d, ExitOp(Normalize(d), details, asked).(now := now)), details)
  {
    hide Transitioned, Normalize, StateOf, ExitOp;
    HasDefaults(d);
    ExitOpSays(Normalize(d), details, asked);
    TransitionedFields(d, ExitOp(Normalize(d), details, asked).(now := now));
    assert Truthy(Time(now));
  }

  lemma {:induction false} ExitOpSays(status: Dict, details: Dict, asked: nat)
    ensures var op := ExitOp(status, details, asked);
            && op.target == Exited && op.extra.Keys == details.Keys + {Pid, ManualStop}
            && op.extra[Pid] == Null && op.extra[ManualStop] == ManualIn(status)
            && forall f :: f in details && f != Pid && f != ManualStop ==> op.extra[f] == details[f]
  {
  }

  lemma {:induction false} AgainSays(d: Dict, now: nat)
    ensures var extra: Dict := map[RestartCount := Int(Count(Normalize(d)) + 1)];
            MarkedAgain(d, WriteStatus(d, Exited, extra, now))
  {
    hide Stamped, Normalize, StateOf, Count;
    var extra: Dict := map[RestartCount := Int(Count(Normalize(d)) + 1)];
    StampedFields(d, Exited, extra, now);
  }

  // ----- a pass from the head of the loop to its end

  /** A step of the supervisor between two calls. */
  lemma {:induction false} PlainStep(w: World, c: Choice, s: Sup, file: Dict, n: nat)
    ensures var v := SupNext(PutSup(w, s, None, file, n), c);
            match s
            case ReadHead => v == PutSup(w, ToStarting(Wait(StartOp(Normalize(file), c.now))), None, file, n)
            case Launch => c.ok ==> v == PutSup(w, ToRunning(Wait(RunOp(c.now))), None, file, n)
            case Up => c.ok ==> v == PutSup(w, ReadExit, None, file, n)
            case ReadExit =>
              c.ok ==> v == PutSup(w, ToExited(Wait(ExitOp(Normalize(file), c.details, c.now))), None, file, n)
            case AgainRead(count) =>
              v == PutSup(w, AgainWrite(WriteStatus(file, Exited, map[RestartCount := Int(count + 1)], c.now)), None,
                     file, n)
            case AgainWrite(payload) => v == PutSup(w, Sleep, None, payload, n)
            case Sleep => v == PutSup(w, ReadHead, None, file, n)
            case _ => true
  {
    hide Transitioned, StateOf, Permitted, WriteStatus, Normalize, StartOp, RunOp, ExitOp, Count, ManualIn, Truthy,
      TxStep;
  }

  lemma {:induction false} EndStep(w: World, c: Choice, file: Dict, n: nat)
    ensures SupNext(PutSup(w, ReadEnd, None, file, n), c) ==
            PutSup(
              w, if c.ok && w.always && !Manual(file) then AgainRead(Count(Normalize(file))) else Done, None, file, n)
  {
    hide Transitioned, StateOf, Permitted, WriteStatus, Normalize, Count;
  }

  /** Nothing goes wrong in the steps of the pass, and what it records about the exit is ordinary. */
  predicate GoodPass(cs: seq<Choice>) {
    |cs| == 20 && (forall k :: 0 <= k < |cs| ==> cs[k].ok) &&
    FinishedAt !in cs[11].details && StartedAt !in cs[11].details
  }

  /** The supervisor from the head of the loop until it has started the container. */
  lemma {:induction false} PassStarts(w: World, cs: seq<Choice>, a: Dict)
    requires w.sup.ReadHead? && w.lock.None? && GoodPass(cs) && Permitted(StateOf(w.file), Starting)
    requires a == Transitioned(w.file, StartOp(Normalize(w.file), cs[0].now).(now := cs[2].now))
    ensures forall k :: 0 <= k < 4 ==> SupAt(w, cs, k).file == w.file
    ensures SupAt(w, cs, 4).file == a && SupAt(w, cs, 5) == PutSup(w, Launch, None, a, w.passes + 1)
  {
    hide SupNext, StateOf, Transitioned, Permitted, Normalize, StartOp, SupAt, GoodPass;
    GoodMeans(cs);
    SupAtStart(w, cs);
    assert w == PutSup(w, ReadHead, None, w.file, w.passes);
    var op := StartOp(Normalize(w.file), cs[0].now);
    PlainStep(w, cs[0], ReadHead, w.file, w.passes);
    SupOneStep(w, cs, 0);
    OpTargets(w.file, cs[0].details, cs[0].now);
    SupCallSteps(w, cs, 1, Starting, op, w.file, w.passes, a);
  }

  /** From there until the container runs. */
  lemma {:induction false} PassRuns(w: World, cs: seq<Choice>, a: Dict, b: Dict)
    requires GoodPass(cs) && SupAt(w, cs, 5) == PutSup(w, Launch, None, a, w.passes + 1)
    requires Permitted(StateOf(a), Running) && b == Transitioned(a, RunOp(cs[5].now).(now := cs[7].now))
    ensures forall k :: 5 <= k < 9 ==> SupAt(w, cs, k).file == a
    ensures SupAt(w, cs, 9).file == b && SupAt(w, cs, 10) == PutSup(w, Up, None, b, w.passes + 1)
  {
    hide SupNext, StateOf, Transitioned, Permitted, Normalize, RunOp, SupAt, GoodPass;
    GoodMeans(cs);
    PlainStep(w, cs[5], Launch, a, w.passes + 1);
    SupOneStep(w, cs, 5);
    OpTargets(a, cs[5].details, cs[5].now);
    SupCallSteps(w, cs, 6, Running, RunOp(cs[5].now), a, w.passes + 1, b);
  }

  /** From there until its end is recorded. */
  lemma {:induction false} PassEnds(w: World, cs: seq<Choice>, b: Dict, c: Dict)
    requires GoodPass(cs) && SupAt(w, cs, 10) == PutSup(w, Up, None, b, w.passes + 1)
    requires Permitted(StateOf(b), Exited)
    requires c == Transitioned(b, ExitOp(Normalize(b), cs[11].details, cs[11].now).(now := cs[13].now))
    ensures forall k :: 10 <= k < 15 ==> SupAt(w, cs, k).file == b
    ensures SupAt(w, cs, 15).file == c && SupAt(w, cs, 16) == PutSup(w, ReadEnd, None, c, w.passes + 1)
  {
    hide SupNext, StateOf, Transitioned, Permitted, Normalize, ExitOp, SupAt, GoodPass;
    GoodMeans(cs);
    PlainStep(w, cs[10], Up, b, w.passes + 1);
    SupOneStep(w, cs, 10);
    PlainStep(w, cs[11], ReadExit, b, w.passes + 1);
    SupOneStep(w, cs, 11);
    OpTargets(b, cs[11].details, cs[11].now);
    SupCallSteps(w, cs, 12, Exited, ExitOp(Normalize(b), cs[11].details, cs[11].now), b, w.passes + 1, c);
  }

  /** From there to the head of the loop again, or out of it. */
  lemma {:induction false} PassRepeats(w: World, cs: seq<Choice>, c: Dict, d: Dict)
    requires GoodPass(cs) && SupAt(w, cs, 16) == PutSup(w, ReadEnd, None, c, w.passes + 1)
    requires d == WriteStatus(c, Exited, map[RestartCount := Int(Count(Normalize(c)) + 1)], cs[17].now)
    ensures SupAt(w, cs, 17).file == c
    ensures !w.always || Manual(c) ==> SupAt(w, cs, 17) == PutSup(w, Done, None, c, w.passes + 1)
    ensures w.always && !Manual(c) ==>
              SupAt(w, cs, 18).file == c && SupAt(w, cs, 19) == PutSup(w, Sleep, None, d, w.passes + 1) &&
              SupAt(w, cs, 20) == PutSup(w, ReadHead, None, d, w.passes + 1)
  {
    hide SupNext, Normalize, WriteStatus, Manual, Count, SupAt, GoodPass;
    GoodMeans(cs);
    EndStep(w, cs[16], c, w.passes + 1);
    SupOneStep(w, cs, 16);
    var count := Count(Normalize(c));
    PlainStep(w, cs[17], AgainRead(count), c, w.passes + 1);
    SupOneStep(w, cs, 17);
    PlainStep(w, cs[18], AgainWrite(d), c, w.passes + 1);
    SupOneStep(w, cs, 18);
    PlainStep(w, cs[19], Sleep, d, w.passes + 1);
    SupOneStep(w, cs, 19);
  }

  lemma {:induction false} SupOneStep(w: World, cs: seq<Choice>, k: nat)
    requires k < |cs|
    ensures SupAt(w, cs, k + 1) == SupNext(SupAt(w, cs, k), cs[k])
  {
    hide SupNext;
  }

  lemma GoodMeans(cs: seq<Choice>)
    requires GoodPass(cs)
    ensures |cs| == 20 && cs[0].ok && cs[5].ok && cs[10].ok && cs[11].ok && cs[16].ok
    ensures FinishedAt !in cs[11].details && StartedAt !in cs[11].details
  {
  }

  lemma OpTargets(d: Dict, details: Dict, now: nat)
    ensures StartOp(Normalize(d), now).target == Starting && RunOp(now).target == Running
    ensures ExitOp(Normalize(d), details, now).target == Exited
  {
  }

  /** The three writes of a pass, and that the table permits them. */
  lemma {:induction false} PassSays(d: Dict, cs: seq<Choice>, a: Dict, b: Dict, c: Dict)
    requires GoodPass(cs) && Permitted(StateOf(d), Starting)
    requires a == Transitioned(d, StartOp(Normalize(d), cs[0].now).(now := cs[2].now))
    requires b == Transitioned(a, RunOp(cs[5].now).(now := cs[7].now))
    requires c == Transitioned(b, ExitOp(Normalize(b), cs[11].details, cs[11].now).(now := cs[13].now))
    ensures MarkedStarting(d, a) && MarkedRunning(a, b, cs[5].now) && MarkedEnded(b, c, cs[11].details)
    ensures Permitted(StateOf(a), Running) && Permitted(StateOf(b), Exited) && !Manual(b) && !Manual(c)
  {
    hide Transitioned, Normalize, StateOf, StartOp, RunOp, ExitOp, Permitted, Manual, MarkedStarting, MarkedRunning,
      MarkedEnded, GoodPass;
    GoodMeans(cs);
    StartSays(d, cs[0].now, cs[2].now);
    RunSays(a, cs[5].now, cs[7].now);
    ExitSays(b, cs[11].details, cs[11].now, cs[13].now);
    NextPermitted(d, a, b, c, cs[5].now, cs[11].details);
  }

  lemma {:induction false} NextPermitted(d: Dict, a: Dict, b: Dict, c: Dict, pid: int, details: Dict)
    requires MarkedStarting(d, a) && MarkedRunning(a, b, pid) && MarkedEnded(b, c, details)
    ensures Permitted(StateOf(a), Running) && Permitted(StateOf(b), Exited) && !Manual(b) && !Manual(c)
  {
    hide Normalize, StateOf;
    assert Get(c, ManualStop) == Get(Normalize(b), ManualStop) == Bool(false);
  }

  lemma {:induction false} RunSays(d: Dict, pid: nat, now: nat)
    ensures MarkedRunning(d, Transitioned(d, RunOp(pid).(now := now)), pid)
  {
    hide Transitioned, Normalize, MarkedRunning;
    RunningMarks(d, pid, now);
  }

  lemma {:induction false} StartSays(d: Dict, asked: nat, now: nat)
    ensures MarkedStarting(d, Transitioned(d, StartOp(Normalize(d), asked).(now := now)))
  {
    hide Transitioned, Normalize, MarkedStarting;
    StartingMarks(d, now);
  }

  /**
    A pass of a supervisor that nothing disturbs: it writes starting, running and exited in turn, each
    as the status before it says, and is done after one pass; with RESTART always it counts a restart,
    sleeps, and is at the head of the loop again.
   */
  lemma {:induction false} PassAlone(w: World, cs: seq<Choice>)
    requires w.sup.ReadHead? && w.lock.None? && GoodPass(cs)
    requires StateOf(w.file) == Name(Created) || StateOf(w.file) == Name(Exited) || StateOf(w.file) == Name(Failed)
    ensures var a := SupAt(w, cs, 4).file; var b := SupAt(w, cs, 9).file; var c := SupAt(w, cs, 15).file;
            var v := SupAt(w, cs, 20);
            && MarkedStarting(w.file, a) && MarkedRunning(a, b, cs[5].now) && MarkedEnded(b, c, cs[11].details)
            && (forall k :: 0 <= k < 4 ==> SupAt(w, cs, k).file == w.file)
            && (forall k :: 4 <= k < 9 ==> SupAt(w, cs, k).file == a)
            && (forall k :: 9 <= k < 15 ==> SupAt(w, cs, k).file == b)
            && SupAt(w, cs, 5).sup.Launch? && SupAt(w, cs, 10).sup.Up?
            && (!w.always ==> SupIs(SupAt(w, cs, 17), Done, None, c, w.passes + 1))
            && (w.always ==> SupIs(v, ReadHead, None, v.file, w.passes + 1) && MarkedAgain(c, v.file))
  {
    var a := Transitioned(w.file, StartOp(Normalize(w.file), cs[0].now).(now := cs[2].now));
    var b := Transitioned(a, RunOp(cs[5].now).(now := cs[7].now));
    var c := Transitioned(b, ExitOp(Normalize(b), cs[11].details, cs[11].now).(now := cs[13].now));
    var d := WriteStatus(c, Exited, map[RestartCount := Int(Count(Normalize(c)) + 1)], cs[17].now);
    PermittedExactly(StateOf(w.file), Starting);
    hide *;
    GoodMeans(cs);
    PassSays(w.file, cs, a, b, c);
    PassFiles(w, cs, a, b, c, d);
    AgainSays(c, cs[17].now);
  }

  lemma {:induction false} PassFiles(w: World, cs: seq<Choice>, a: Dict, b: Dict, c: Dict, d: Dict)
    requires w.sup.ReadHead? && w.lock.None? && GoodPass(cs) && Permitted(StateOf(w.file), Starting)
    requires Permitted(StateOf(a), Running) && Permitted(StateOf(b), Exited) && !Manual(c)
    requires a == Transitioned(w.file, StartOp(Normalize(w.file), cs[0].now).(now := cs[2].now))
    requires b == Transitioned(a, RunOp(cs[5].now).(now := cs[7].now))
    requires c == Transitioned(b, ExitOp(Normalize(b), cs[11].details, cs[11].now).(now := cs[13].now))
    requires d == WriteStatus(c, Exited, map[RestartCount := Int(Count(Normalize(c)) + 1)], cs[17].now)
    ensures forall k :: 0 <= k < 4 ==> SupAt(w, cs, k).file == w.file
    ensures forall k :: 4 <= k < 9 ==> SupAt(w, cs, k).file == a
    ensures forall k :: 9 <= k < 15 ==> SupAt(w, cs, k).file == b
    ensures SupAt(w, cs, 15).file == c && SupAt(w, cs, 5).sup.Launch? && SupAt(w, cs, 10).sup.Up?
    ensures !w.always ==> SupIs(SupAt(w, cs, 17), Done, None, c, w.passes + 1)
    ensures w.always ==> SupIs(SupAt(w, cs, 20), ReadHead, None, d, w.passes + 1)
  {
    hide *;
    GoodMeans(cs);
    PassStarts(w, cs, a);
    PassRuns(w, cs, a, b);
    PassEnds(w, cs, b, c);
    PassRepeats(w, cs, c, d);
    PassParts(w, a, b, c, d);
  }

  lemma {:induction false} PassParts(w: World, a: Dict, b: Dict, c: Dict, d: Dict)
    ensures PutSup(w, Launch, None, a, w.passes + 1).sup.Launch? && PutSup(w, Launch, None, a, w.passes + 1).file == a
    ensures PutSup(w, Up, None, b, w.passes + 1).sup.Up? && PutSup(w, Up, None, b, w.passes + 1).file == b
    ensures SupIs(PutSup(w, Done, None, c, w.passes + 1), Done, None, c, w.passes + 1)
    ensures SupIs(PutSup(w, ReadHead, None, d, w.passes + 1), ReadHead, None, d, w.passes + 1)
  {
  }

  // ----- a pass that goes wrong

  /**
    When the pass goes wrong, or its running transition is refused because a stop has marked the
    container exited, the container is marked failed and the supervisor is done.
   */
  lemma {:induction false} PassFails(w: World, cs: seq<Choice>)
    requires |cs| == 3
    requires (!cs[0].ok && (w.sup.Launch? || w.sup.Up? || w.sup.ReadExit?)) ||
             (w.sup.ToRunning? && w.sup.tx.Held? && w.sup.tx.op.target == Running && StateOf(w.file) == Name(Exited))
    ensures var v := SupAt(w, cs, 3); var lock := if w.sup.ToRunning? then None else w.lock;
            && SupIs(SupAt(w, cs, 1), FailRead, lock, w.file, w.passes)
            && SupIs(v, Done, lock, v.file, w.passes) && MarkedFailed(w.file, v.file)
  {
    hide Normalize, StateOf, WriteStatus, MarkedFailed, SupAt, SupNext;
    SupAtStart(w, cs);
    SupOneStep(w, cs, 0);
    SupOneStep(w, cs, 1);
    SupOneStep(w, cs, 2);
    FailFirst(w, cs[0]);
    FailRest(SupAt(w, cs, 1), cs[1], cs[2]);
    FailedMarks(w.file, cs[1].now);
  }

  lemma {:induction false} FailFirst(w: World, c: Choice)
    requires (!c.ok && (w.sup.Launch? || w.sup.Up? || w.sup.ReadExit?)) ||
             (w.sup.ToRunning? && w.sup.tx.Held? && w.sup.tx.op.target == Running && StateOf(w.file) == Name(Exited))
    ensures SupNext(w, c) == w.(sup := FailRead, lock := if w.sup.ToRunning? then None else w.lock)
  {
    hide Normalize, StateOf, WriteStatus, Transitioned, StartOp, RunOp, ExitOp, Count, ManualIn, Truthy;
  }

  lemma {:induction false} FailRest(w: World, c: Choice, d: Choice)
    requires w.sup.FailRead?
    ensures var extra: Dict := map[ExitReason := Text("runtime_error"), DesiredState := Name(Exited)];
            SupNext(SupNext(w, c), d) == w.(sup := Done, file := WriteStatus(w.file, Failed, extra, c.now))
  {
    hide Normalize, StateOf, WriteStatus, Transitioned, StartOp, RunOp, ExitOp, Count, ManualIn, Truthy, TxStep;
  }

  // ----- without RESTART always

  /** No pass has begun and none will begin again once one has. */
  predicate OneAtMost(w: World) {
    !w.always &&
    if w.sup.ReadHead? || (w.sup.ToStarting? && Before(w.sup.tx)) then w.passes == 0
    else w.passes <= 1 && !w.sup.AgainRead? && !w.sup.AgainWrite? && !w.sup.Sleep?
  }

  lemma {:induction false} OnePassTx(w: World, c: Choice)
    requires OneAtMost(w) && (w.sup.ToStarting? || w.sup.ToRunning? || w.sup.ToExited?)
    ensures OneAtMost(SupNext(w, c))
  {
    hide Normalize, StateOf, WriteStatus, Transitioned, Permitted, StartOp, RunOp, ExitOp, Count, ManualIn, Truthy;
  }

  lemma {:induction false} OnePassPlain(w: World, c: Choice)
    requires OneAtMost(w) && !w.sup.ToStarting? && !w.sup.ToRunning? && !w.sup.ToExited?
    ensures OneAtMost(SupNext(w, c))
  {
    hide Normalize, StateOf, WriteStatus, Transitioned, Permitted, StartOp, RunOp, ExitOp, Count, ManualIn, Truthy,
      TxStep;
  }

  lemma {:induction false} OnePassSup(w: World, c: Choice)
    requires OneAtMost(w)
    ensures OneAtMost(SupNext(w, c))
  {
    hide SupNext, OneAtMost;
    if w.sup.ToStarting? || w.sup.ToRunning? || w.sup.ToExited? {
      OnePassTx(w, c);
    } else {
      OnePassPlain(w, c);
    }
  }

  lemma {:induction false} StopKeepsPasses(w: World, id: nat, c: Choice)
    ensures var v := StopNext(w, id, c); v.sup == w.sup && v.passes == w.passes && v.always == w.always
  {
    hide Normalize, StateOf, WriteStatus, Transitioned, Permitted, StoppingOp, StoppedOp, StopExtra;
  }

  lemma {:induction false} OnePassStep(w: World, a: Action)
    requires OneAtMost(w)
    ensures OneAtMost(Step(w, a))
  {
    hide SupNext, StopNext;
    match a {
      case SupStep(c) => OnePassSup(w, c);
      case StopStep(id, c) => StopKeepsPasses(w, id, c);
      case _ =>
    }
  }

  lemma {:induction false} OnePassRun(w: World, actions: seq<Action>)
    requires OneAtMost(w)
    ensures RunFrom(w, actions).passes <= 1
    decreases |actions|
  {
    hide Step;
    if actions != [] {
      OnePassStep(w, actions[0]);
      OnePassRun(Step(w, actions[0]), actions[1..]);
    }
  }

  /** Whatever the stop commands and the crashes do, a container without RESTART always runs once. */
  lemma {:induction false} OnePass(start: World, actions: seq<Action>)
    requires Initial(start) && !start.always
    ensures RunFrom(start, actions).passes <= 1
  {
    hide StateOf;
    OnePassRun(start, actions);
  }
}
