/**
  `axis run` supervising a container while any number of `axis stop` commands write the same status
  file. Reads and renames of the file are separate steps, transition_state holds the lock between
  its read and its rename, write_status takes no lock, and any process may die at any step.
 */
module StopProtocol {
  import opened Wrappers
  import opened Status

  /** A transition_state call: waiting for the lock, holding it, payload decided, payload in place. */
  datatype Tx = Wait(op: Transition) | Held(op: Transition) | Ready(payload: Dict) | Committed

  /** Where run_container_loop and run_container_once are. */
  datatype Sup =
    | ReadHead                        // about to read the status at the head of the loop
    | ToStarting(tx: Tx)
    | Launch                          // starting the runtime
    | ToRunning(tx: Tx)
    | Up                              // network set up, output relayed until the container exits
    | ReadExit                        // about to read the status after the exit
    | ToExited(tx: Tx)
    | ReadEnd                         // about to read the status after the pass
    | AgainRead(count: int)           // write_status before the restart: about to read
    | AgainWrite(payload: Dict)       //   and about to rename
    | Sleep
    | FailRead                        // write_status in the exception handler
    | FailWrite(payload: Dict)
    | Done

  /** Where a stop command is. */
  datatype Stop =
    | Look
    | QuickRead                       // write_status for a container that is not running
    | QuickWrite(payload: Dict)
    | ToStopping(stx: Tx)
    | Kill
    | ToStopped(stx: Tx)
    | Gone

  datatype Holder = BySup | ByStop(id: nat)

  datatype World = World(
    always: bool, file: Dict, lock: Option<Holder>, sup: Sup, stops: map<nat, Stop>, passes: nat)

  /** What the outside world decides at a step. */
  datatype Choice = Choice(now: nat, ok: bool, alive: bool, details: Dict)

  datatype Action =
    | SupStep(c: Choice)
    | StopStep(id: nat, c: Choice)
    | NewStop(id: nat)
    | SupCrash
    | StopCrash(id: nat)

  function StopOf(w: World, id: nat): Stop { if id in w.stops then w.stops[id] else Gone }

  function ManualIn(status: Dict): Json { Get(status, ManualStop, Bool(false)) }

  function Count(status: Dict): int {
    var n := Get(status, RestartCount, Int(0));
    if n.Int? then n.n else 0
  }

  // ----- the calls

  function StartOp(status: Dict, now: nat): Transition {
    Transition(Starting, map[
      DesiredState := Name(Running), ManualStop := ManualIn(status),
      RestartCount := Get(status, RestartCount, Int(0))], now)
  }

  function RunOp(now: nat): Transition {
    Transition(Running, map[Pid := Int(now), ManualStop := Bool(false), DesiredState := Name(Running)], now)
  }

  /** `details` holds the exit code and what exit_details_from_code gives. */
  function ExitOp(status: Dict, details: Dict, now: nat): Transition {
    Transition(Exited, details[Pid := Null][ManualStop := ManualIn(status)], now)
  }

  function StopExtra(): Dict { map[ManualStop := Bool(true), DesiredState := Name(Exited)] }

  function StoppingOp(now: nat): Transition { Transition(Stopping, StopExtra(), now) }

  function StoppedOp(now: nat): Transition {
    Transition(Exited, StopExtra()[ExitReason := Text("stopped")], now)
  }

  datatype TxResult = Blocked | Going(w: World, tx: Tx) | Refused(w: World) | Finished(w: World)

  function TxStep(w: World, who: Holder, tx: Tx, now: nat): TxResult {
    match tx
    case Wait(op) => if w.lock.None? then Going(w.(lock := Some(who)), Held(op)) else Blocked
    case Held(op) =>
      if Permitted(StateOf(w.file), op.target) then Going(w, Ready(Transitioned(w.file, op.(now := now))))
      else Refused(w.(lock := None))
    case Ready(payload) => Going(w.(file := payload), Committed)
    case Committed => Finished(w.(lock := None))
  }

  // ----- the steps

  function SupNext(w: World, c: Choice): World {
    match w.sup
    case ReadHead => w.(sup := ToStarting(Wait(StartOp(Normalize(w.file), c.now))))
    case ToStarting(tx) =>
      (match TxStep(w, BySup, tx, c.now)
       case Blocked => w
       case Going(v, tx') => v.(sup := ToStarting(tx'), passes := if tx.Ready? then w.passes + 1 else w.passes)
       case Refused(v) => v.(sup := Done)
       case Finished(v) => v.(sup := Launch))
    case Launch => w.(sup := if c.ok then ToRunning(Wait(RunOp(c.now))) else FailRead)
    case ToRunning(tx) =>
      (match TxStep(w, BySup, tx, c.now)
       case Blocked => w
       case Going(v, tx') => v.(sup := ToRunning(tx'))
       case Refused(v) => v.(sup := FailRead)
       case Finished(v) => v.(sup := Up))
    case Up => w.(sup := if c.ok then ReadExit else FailRead)
    case ReadExit =>
      w.(sup := if c.ok then ToExited(Wait(ExitOp(Normalize(w.file), c.details, c.now))) else FailRead)
    case ToExited(tx) =>
      (match TxStep(w, BySup, tx, c.now)
       case Blocked => w
       case Going(v, tx') => v.(sup := ToExited(tx'))
       case Refused(v) => v.(sup := FailRead)
       case Finished(v) => v.(sup := ReadEnd))
    case ReadEnd =>
      var status := Normalize(w.file);
      w.(sup := if c.ok && w.always && !Truthy(ManualIn(status)) then AgainRead(Count(status)) else Done)
    case AgainRead(count) =>
      w.(sup := AgainWrite(WriteStatus(w.file, Exited, map[RestartCount := Int(count + 1)], c.now)))
    case AgainWrite(payload) => w.(file := payload, sup := Sleep)
    case Sleep => w.(sup := ReadHead)
    case FailRead =>
      w.(sup := FailWrite(WriteStatus(
        w.file, Failed, map[ExitReason := Text("runtime_error"), DesiredState := Name(Exited)], c.now)))
    case FailWrite(payload) => w.(file := payload, sup := Done)
    case Done => w
  }

  function StopPut(w: World, id: nat, s: Stop): World { w.(stops := w.stops[id := s]) }

  function StopNext(w: World, id: nat, c: Choice): World {
    match StopOf(w, id)
    case Look =>
      var state := StateOf(w.file);
      if (state.Name? && Ending(state.s)) || !c.alive then StopPut(w, id, QuickRead)
      else StopPut(w, id, ToStopping(Wait(StoppingOp(c.now))))
    case QuickRead => StopPut(w, id, QuickWrite(WriteStatus(w.file, Exited, StopExtra(), c.now)))
    case QuickWrite(payload) => StopPut(w, id, Gone).(file := payload)
    case ToStopping(tx) =>
      (match TxStep(w, ByStop(id), tx, c.now)
       case Blocked => w
       case Going(v, tx') => StopPut(v, id, ToStopping(tx'))
       case Refused(v) => StopPut(v, id, Gone)
       case Finished(v) => StopPut(v, id, Kill))
    case Kill => StopPut(w, id, ToStopped(Wait(StoppedOp(c.now))))
    case ToStopped(tx) =>
      (match TxStep(w, ByStop(id), tx, c.now)
       case Blocked => w
       case Going(v, tx') => StopPut(v, id, ToStopped(tx'))
       case Refused(v) => StopPut(v, id, Gone)
       case Finished(v) => StopPut(v, id, Gone))
    case Gone => w
  }

  function Step(w: World, a: Action): World {
    match a
    case SupStep(c) => SupNext(w, c)
    case StopStep(id, c) => StopNext(w, id, c)
    case NewStop(id) => if StopOf(w, id).Gone? then StopPut(w, id, Look) else w
    case SupCrash => w.(sup := Done, lock := if w.lock == Some(BySup) then None else w.lock)
    case StopCrash(id) => StopPut(w, id, Gone).(lock := if w.lock == Some(ByStop(id)) then None else w.lock)
  }

  function RunFrom(w: World, actions: seq<Action>): World
    decreases |actions|
  {
    if actions == [] then w else RunFrom(Step(w, actions[0]), actions[1..])
  }

  /** The supervisor enters its loop: the container is created, no stop command is under way. */
  predicate Initial(w: World) {
    StateOf(w.file) == Name(Created) && w.lock == None && w.sup == ReadHead && w.stops == map[] && w.passes == 0
  }

  // ----- what the payloads say

  predicate Manual(d: Dict) { Truthy(ManualOf(d)) }

  lemma {:induction false} TransitionedSays(d: Dict, op: Transition)
    requires ManualStop in op.extra
    ensures StateOf(Transitioned(d, op)) == Name(op.target)
    ensures Manual(Transitioned(d, op)) <==> Truthy(op.extra[ManualStop])
  {
    hide Transitioned, Normalize;
    TransitionedFields(d, op);
    assert Get(Transitioned(d, op), ManualStop) == op.extra[ManualStop];
    assert ManualOf(Transitioned(d, op)) == Get(Normalize(Transitioned(d, op)), ManualStop, Bool(false));
    assert !Truthy(Null) && !Truthy(Bool(false));
  }

  lemma {:induction false} WriteStatusSays(d: Dict, target: LifeState, extra: Dict, now: nat)
    ensures StateOf(WriteStatus(d, target, extra, now)) == Name(target)
    ensures ManualStop in extra ==> (Manual(WriteStatus(d, target, extra, now)) <==> Truthy(extra[ManualStop]))
  {
    hide Stamped, Normalize;
    StampedFields(d, target, extra, now);
    var p := WriteStatus(d, target, extra, now);
    assert ManualStop in extra ==> Get(p, ManualStop) == extra[ManualStop];
    assert !Truthy(Null) && !Truthy(Bool(false));
  }

  // ----- the invariant

  predicate Holds(tx: Tx) { tx.Held? || tx.Ready? || tx.Committed? }

  predicate SupHolds(s: Sup) { (s.ToStarting? || s.ToRunning? || s.ToExited?) && Holds(s.tx) }

  predicate StopHolds(s: Stop) { (s.ToStopping? || s.ToStopped?) && Holds(s.stx) }

  predicate Before(tx: Tx) { !tx.Committed? }

  /** The states the file can be in, by where the supervisor is. */
  predicate StateFits(s: Sup, state: Json) {
    match s
    case ReadHead => state == Name(Created) || state == Name(Exited)
    case ToStarting(tx) =>
      if Before(tx) then state == Name(Created) || state == Name(Exited)
      else state == Name(Starting) || state == Name(Exited)
    case Launch => state == Name(Starting) || state == Name(Exited)
    case ToRunning(tx) =>
      if Before(tx) then state == Name(Starting) || state == Name(Exited)
      else state == Name(Running) || state == Name(Stopping) || state == Name(Exited)
    case Up => state == Name(Running) || state == Name(Stopping) || state == Name(Exited)
    case ReadExit => state == Name(Running) || state == Name(Stopping) || state == Name(Exited)
    case ToExited(tx) =>
      if Before(tx) then state == Name(Running) || state == Name(Stopping) || state == Name(Exited)
      else state == Name(Exited)
    case ReadEnd => state == Name(Exited)
    case AgainRead(_) => state == Name(Exited)
    case AgainWrite(_) => state == Name(Exited)
    case Sleep => state == Name(Exited)
    case _ => true
  }

  /** A call under way is for this target, and its payload says so. */
  predicate TxFits(tx: Tx, target: LifeState) {
    match tx
    case Wait(op) => op.target == target && ManualStop in op.extra
    case Held(op) => op.target == target && ManualStop in op.extra
    case Ready(payload) => StateOf(payload) == Name(target)
    case Committed => true
  }

  /** Whether the call writes manual_stop; after the rename the file says. */
  predicate TxManual(tx: Tx)
    requires !tx.Committed?
  {
    match tx
    case Wait(op) => ManualStop in op.extra && Truthy(op.extra[ManualStop])
    case Held(op) => ManualStop in op.extra && Truthy(op.extra[ManualStop])
    case Ready(payload) => Manual(payload)
  }

  predicate SupFits(s: Sup) {
    match s
    case ToStarting(tx) => TxFits(tx, Starting)
    case ToRunning(tx) => TxFits(tx, Running) && (Before(tx) ==> !TxManual(tx))
    case ToExited(tx) => TxFits(tx, Exited)
    case AgainWrite(payload) => StateOf(payload) == Name(Exited)
    case _ => true
  }

  /** The supervisor is between its running and its exited writes, or has failed. */
  predicate PastRunning(s: Sup) {
    s.Up? || s.ReadExit? || (s.ToExited? && s.tx.Wait?) || s.FailRead? || s.FailWrite? || s.Done?
  }

  predicate StopFits(s: Stop, sup: Sup) {
    match s
    case QuickWrite(payload) => StateOf(payload) == Name(Exited) && Manual(payload)
    case ToStopping(tx) =>
      TxFits(tx, Stopping) && (Before(tx) ==> TxManual(tx)) && (tx.Ready? ==> PastRunning(sup))
    case ToStopped(tx) => TxFits(tx, Exited) && (Before(tx) ==> TxManual(tx))
    case _ => true
  }

  ghost predicate StopOk(w: World, id: nat) {
    StopFits(StopOf(w, id), w.sup) && (StopHolds(StopOf(w, id)) <==> w.lock == Some(ByStop(id)))
  }

  predicate SupOk(w: World) {
    SupFits(w.sup) && StateFits(w.sup, StateOf(w.file)) && (SupHolds(w.sup) <==> w.lock == Some(BySup))
  }

  ghost predicate Inv(w: World) { SupOk(w) && forall id: nat :: StopOk(w, id) }

  /** A call of this target after one step: it waits, goes on, is refused, or is over. */
  lemma {:induction false} TxSays(w: World, who: Holder, tx: Tx, target: LifeState, now: nat)
    requires TxFits(tx, target)
    ensures match TxStep(w, who, tx, now)
            case Blocked => tx.Wait? && w.lock.Some?
            case Going(v, next) =>
              && v.sup == w.sup && v.stops == w.stops && v.passes == w.passes && v.always == w.always
              && TxFits(next, target) && TxRank(next) < TxRank(tx)
              && (tx.Wait? ==> next.Held? && w.lock.None? && v == w.(lock := Some(who)))
              && (tx.Held? ==> next.Ready? && v == w && Permitted(StateOf(w.file), target))
              && (tx.Ready? ==> next.Committed? && v == w.(file := tx.payload) && StateOf(v.file) == Name(target) &&
                                (Manual(v.file) <==> TxManual(tx)))
              && (!next.Committed? ==> (TxManual(next) <==> TxManual(tx)))
            case Refused(v) => tx.Held? && v == w.(lock := None) && !Permitted(StateOf(w.file), target)
            case Finished(v) => tx.Committed? && v == w.(lock := None)
  {
    hide Normalize, Transitioned, StateOf, ManualOf, Stamped, Permitted, Truthy, Manual;
    if tx.Held? {
      TransitionedSays(w.file, tx.op.(now := now));
    }
  }

  function SupTarget(s: Sup): LifeState {
    match s
    case ToStarting(_) => Starting
    case ToRunning(_) => Running
    case _ => Exited
  }

  /** A step inside a transition_state call. */
  lemma {:induction false} SupStepTx(w: World, c: Choice)
    requires SupOk(w) && (w.sup.ToStarting? || w.sup.ToRunning? || w.sup.ToExited?)
    ensures SupOk(SupNext(w, c))
  {
    hide Normalize, Transitioned, StateOf, ManualOf, Stamped, Manual, WriteStatus, StartOp, RunOp, ExitOp, ManualIn,
      Count, TxStep, TxManual, Truthy;
    TxSays(w, BySup, w.sup.tx, SupTarget(w.sup), c.now);
  }

  /** A step between two calls, up to the exit. */
  lemma {:induction false} SupStepFirst(w: World, c: Choice)
    requires SupOk(w) && (w.sup.ReadHead? || w.sup.Launch? || w.sup.Up? || w.sup.ReadExit?)
    ensures SupOk(SupNext(w, c))
  {
    hide Normalize, Transitioned, StateOf, ManualOf, Stamped, Manual, WriteStatus, TxStep, Count, ManualIn;
  }

  /** A step between the exit and the next pass, or of the exception handler. */
  lemma {:induction false} SupStepLast(w: World, c: Choice)
    requires SupOk(w) && !w.sup.ToStarting? && !w.sup.ToRunning? && !w.sup.ToExited?
    requires !w.sup.ReadHead? && !w.sup.Launch? && !w.sup.Up? && !w.sup.ReadExit?
    ensures SupOk(SupNext(w, c))
  {
    hide Normalize, Transitioned, StateOf, ManualOf, Stamped, Manual, WriteStatus, TxStep, Count, ManualIn, TxFits,
      TxManual, StartOp, RunOp, ExitOp;
    if w.sup.AgainRead? {
      WriteStatusSays(w.file, Exited, map[RestartCount := Int(w.sup.count + 1)], c.now);
    }
  }

  lemma {:induction false} SupStepOk(w: World, c: Choice)
    requires SupOk(w)
    ensures SupOk(SupNext(w, c))
  {
    hide SupNext, SupOk;
    if w.sup.ToStarting? || w.sup.ToRunning? || w.sup.ToExited? {
      SupStepTx(w, c);
    } else if w.sup.ReadHead? || w.sup.Launch? || w.sup.Up? || w.sup.ReadExit? {
      SupStepFirst(w, c);
    } else {
      SupStepLast(w, c);
    }
  }

  lemma {:induction false} SupTxStops(w: World, c: Choice)
    requires SupOk(w) && (w.sup.ToStarting? || w.sup.ToRunning? || w.sup.ToExited?)
    ensures SupNext(w, c).stops == w.stops
    ensures forall id: nat :: SupNext(w, c).lock == Some(ByStop(id)) <==> w.lock == Some(ByStop(id))
  {
    hide Normalize, Transitioned, StateOf, ManualOf, Stamped, StateFits, SupFits, Permitted, StartOp, RunOp, ExitOp,
      Manual, WriteStatus, PastRunning, Truthy, ManualIn, Count;
  }

  lemma {:induction false} SupPlainStops(w: World, c: Choice)
    requires !w.sup.ToStarting? && !w.sup.ToRunning? && !w.sup.ToExited?
    ensures SupNext(w, c).stops == w.stops
    ensures forall id: nat :: SupNext(w, c).lock == Some(ByStop(id)) <==> w.lock == Some(ByStop(id))
  {
    hide Normalize, Transitioned, StateOf, ManualOf, Stamped, StateFits, SupFits, Permitted, StartOp, RunOp, ExitOp,
      Manual, WriteStatus, PastRunning, Truthy, ManualIn, Count, TxStep;
  }

  lemma {:induction false} SupStepStops(w: World, c: Choice)
    requires SupOk(w)
    ensures SupNext(w, c).stops == w.stops
    ensures forall id: nat :: SupNext(w, c).lock == Some(ByStop(id)) <==> w.lock == Some(ByStop(id))
  {
    hide SupNext, SupOk;
    if w.sup.ToStarting? || w.sup.ToRunning? || w.sup.ToExited? {
      SupTxStops(w, c);
    } else {
      SupPlainStops(w, c);
    }
  }

  lemma {:induction false} SupStepPast(w: World, c: Choice)
    requires SupOk(w) && PastRunning(w.sup)
    ensures (forall id: nat :: w.lock != Some(ByStop(id))) || PastRunning(SupNext(w, c).sup)
  {
    hide Normalize, Transitioned, StateOf, ManualOf, Stamped, StateFits, SupFits, Permitted, StartOp, RunOp, ExitOp,
      Manual, WriteStatus;
  }

  lemma {:induction false} SupStepInv(w: World, c: Choice)
    requires Inv(w)
    ensures Inv(SupNext(w, c))
  {
    hide SupNext, SupOk;
    SupStepOk(w, c);
    SupStepStops(w, c);
    if PastRunning(w.sup) {
      SupStepPast(w, c);
    }
    forall id: nat ensures StopOk(SupNext(w, c), id) {
      assert StopOk(w, id);
    }
  }

  lemma {:induction false} StopStepTx(w: World, id: nat, c: Choice)
    requires SupOk(w) && StopOk(w, id) && (StopOf(w, id).ToStopping? || StopOf(w, id).ToStopped?)
    ensures StopOk(StopNext(w, id, c), id)
  {
    hide Normalize, Transitioned, StateOf, ManualOf, Stamped, Manual, WriteStatus, StopExtra, SupFits, TxStep, TxManual,
      Truthy;
    var s := StopOf(w, id);
    TxSays(w, ByStop(id), s.stx, if s.ToStopping? then Stopping else Exited, c.now);
  }

  lemma {:induction false} StopStepPlain(w: World, id: nat, c: Choice)
    requires SupOk(w) && StopOk(w, id) && !StopOf(w, id).ToStopping? && !StopOf(w, id).ToStopped?
    ensures StopOk(StopNext(w, id, c), id)
  {
    hide Normalize, Transitioned, StateOf, ManualOf, Stamped, Manual, WriteStatus, TxStep, SupFits, StateFits;
    if StopOf(w, id).QuickRead? {
      WriteStatusSays(w.file, Exited, StopExtra(), c.now);
    }
  }

  lemma {:induction false} StopStepOwn(w: World, id: nat, c: Choice)
    requires SupOk(w) && StopOk(w, id)
    ensures StopOk(StopNext(w, id, c), id)
  {
    hide StopNext, SupOk, StopOk;
    if StopOf(w, id).ToStopping? || StopOf(w, id).ToStopped? {
      StopStepTx(w, id, c);
    } else {
      StopStepPlain(w, id, c);
    }
  }

  lemma {:induction false} StopTxFrame(w: World, id: nat, c: Choice)
    requires StopOk(w, id) && (StopOf(w, id).ToStopping? || StopOf(w, id).ToStopped?)
    ensures var w' := StopNext(w, id, c);
            && w'.sup == w.sup && w'.passes == w.passes && w'.always == w.always
            && (forall j: nat :: j != id ==> StopOf(w', j) == StopOf(w, j))
            && (w'.lock == w.lock || w'.lock == Some(ByStop(id)) || w.lock == Some(ByStop(id)))
            && (w.lock.Some? && w.lock != Some(ByStop(id)) ==> w'.lock == w.lock)
            && (w'.lock != w.lock ==> w'.lock == None || w.lock == None)
  {
    hide Normalize, Transitioned, StateOf, ManualOf, Stamped, Permitted, StoppingOp, StoppedOp, Manual, WriteStatus,
      Truthy, StopExtra, PastRunning, TxFits, TxManual;
  }

  lemma {:induction false} StopPlainFrame(w: World, id: nat, c: Choice)
    requires !StopOf(w, id).ToStopping? && !StopOf(w, id).ToStopped?
    ensures var w' := StopNext(w, id, c);
            && w'.sup == w.sup && w'.passes == w.passes && w'.always == w.always
            && (forall j: nat :: j != id ==> StopOf(w', j) == StopOf(w, j))
            && (w'.lock == w.lock || w'.lock == Some(ByStop(id)) || w.lock == Some(ByStop(id)))
            && (w.lock.Some? && w.lock != Some(ByStop(id)) ==> w'.lock == w.lock)
            && (w'.lock != w.lock ==> w'.lock == None || w.lock == None)
  {
    hide Normalize, Transitioned, StateOf, ManualOf, Stamped, Permitted, StoppingOp, StoppedOp, Manual, WriteStatus,
      Truthy, StopExtra, PastRunning, TxFits, TxManual, TxStep;
  }

  /** What a step of a stop command leaves alone. */
  lemma {:induction false} StopStepFrame(w: World, id: nat, c: Choice)
    requires StopOk(w, id)
    ensures var w' := StopNext(w, id, c);
            && w'.sup == w.sup && w'.passes == w.passes && w'.always == w.always
            && (forall j: nat :: j != id ==> StopOf(w', j) == StopOf(w, j))
            && (w'.lock == w.lock || w'.lock == Some(ByStop(id)) || w.lock == Some(ByStop(id)))
            && (w.lock.Some? && w.lock != Some(ByStop(id)) ==> w'.lock == w.lock)
            && (w'.lock != w.lock ==> w'.lock == None || w.lock == None)
  {
    if StopOf(w, id).ToStopping? || StopOf(w, id).ToStopped? {
      StopTxFrame(w, id, c);
    } else {
      StopPlainFrame(w, id, c);
    }
    hide StopNext, StopOk, StopOf;
  }

  /** What a stop command may write. */
  lemma {:induction false} StopStepFile(w: World, id: nat, c: Choice)
    requires StopOk(w, id)
    ensures var w' := StopNext(w, id, c);
            if StopCommits(w, id) then
              Manual(w'.file) &&
              (StateOf(w'.file) == Name(Exited) || (StateOf(w'.file) == Name(Stopping) && PastRunning(w.sup)))
            else w'.file == w.file
  {
    hide Normalize, Transitioned, StateOf, ManualOf, Stamped, Permitted, StoppingOp, StoppedOp, WriteStatus,
      StopExtra, PastRunning, Manual;
  }

  /** The next step of this stop command renames its payload over the status file. */
  predicate StopCommits(w: World, id: nat) {
    var s := StopOf(w, id);
    s.QuickWrite? || ((s.ToStopping? || s.ToStopped?) && s.stx.Ready?)
  }

  lemma {:induction false} StopKeepsSup(w: World, id: nat, c: Choice)
    requires Inv(w)
    ensures SupOk(StopNext(w, id, c))
  {
    assert StopOk(w, id);
    hide StopNext, StateOf, StopFits, SupFits, Manual;
    StopStepFrame(w, id, c);
    StopStepFile(w, id, c);
  }

  lemma {:induction false} StopKeepsOther(w: World, id: nat, c: Choice, j: nat)
    requires StopOk(w, id) && StopOk(w, j) && j != id
    ensures StopOk(StopNext(w, id, c), j)
  {
    StopStepFrame(w, id, c);
    hide StopNext, StateOf, StopFits, Manual, StopOf;
  }

  lemma {:induction false} StopStepInv(w: World, id: nat, c: Choice)
    requires Inv(w)
    ensures Inv(StopNext(w, id, c))
  {
    hide StopNext, StopOk, SupOk;
    assert StopOk(w, id);
    StopKeepsSup(w, id, c);
    StopStepOwn(w, id, c);
    forall j: nat ensures StopOk(StopNext(w, id, c), j) {
      assert StopOk(w, j);
      if j != id {
        StopKeepsOther(w, id, c, j);
      }
    }
  }

  lemma {:induction false} StepInv(w: World, a: Action)
    requires Inv(w)
    ensures Inv(Step(w, a))
  {
    match a {
      case SupStep(c) => SupStepInv(w, c);
      case StopStep(id, c) => StopStepInv(w, id, c);
      case NewStop(id) => OutsideInv(w, a);
      case SupCrash => OutsideInv(w, a);
      case StopCrash(id) => OutsideInv(w, a);
    }
  }

  /** A new stop command, or a crash. */
  lemma {:induction false} OutsideInv(w: World, a: Action)
    requires Inv(w) && !a.SupStep? && !a.StopStep?
    ensures Inv(Step(w, a))
  {
    forall j: nat ensures StopOk(Step(w, a), j) {
      assert StopOk(w, j);
    }
    if a.StopCrash? {
      assert StopOk(w, a.id);
    }
  }

  lemma {:induction false} RunInv(w: World, actions: seq<Action>)
    requires Inv(w)
    ensures Inv(RunFrom(w, actions))
    decreases |actions|
  {
    if actions != [] {
      StepInv(w, actions[0]);
      RunInv(Step(w, actions[0]), actions[1..]);
    }
  }

  lemma InitialInv(w: World)
    requires Initial(w)
    ensures Inv(w)
  {
  }

  // ----- transitions the supervisor makes are accepted

  /** The transition the supervisor is about to have decided would be refused. */
  predicate WouldRefuse(w: World) {
    (w.sup.ToStarting? || w.sup.ToRunning? || w.sup.ToExited?) && w.sup.tx.Held? &&
    !Permitted(StateOf(w.file), w.sup.tx.op.target)
  }

  /**
    In every reachable state the supervisor's `starting` and `exited` transitions are accepted, and
    its `running` transition is refused exactly when the file says exited.
   */
  lemma {:induction false} Refusals(w: World, actions: seq<Action>)
    requires Initial(w)
    ensures var v := RunFrom(w, actions);
            WouldRefuse(v) <==> v.sup.ToRunning? && v.sup.tx.Held? && StateOf(v.file) == Name(Exited)
  {
    InitialInv(w);
    RunInv(w, actions);
  }

  // ----- no further pass

  /** From here no further pass starts, whatever happens. */
  predicate Doomed(w: World) {
    match w.sup
    case ReadHead => false
    case ToStarting(tx) => tx.Committed? && StateOf(w.file) == Name(Exited)
    case Launch => StateOf(w.file) == Name(Exited)
    case ToRunning(tx) =>
      (match tx
       case Ready(_) => false
       case Committed => Manual(w.file)
       case _ => StateOf(w.file) == Name(Exited))
    case Up => Manual(w.file)
    case ReadExit => Manual(w.file)
    case ToExited(tx) => if tx.Committed? then Manual(w.file) else TxManual(tx)
    case ReadEnd => Manual(w.file)
    case AgainRead(_) => false
    case AgainWrite(_) => false
    case Sleep => false
    case _ => true
  }

  lemma {:induction false} DoomedTx(w: World, c: Choice)
    requires SupOk(w) && Doomed(w) && (w.sup.ToStarting? || w.sup.ToRunning? || w.sup.ToExited?)
    ensures Doomed(SupNext(w, c)) && SupNext(w, c).passes == w.passes
  {
    hide Normalize, Transitioned, StateOf, ManualOf, Stamped, Manual, WriteStatus, StartOp, RunOp, ExitOp, ManualIn,
      Count, TxStep, TxManual, Truthy;
    TxSays(w, BySup, w.sup.tx, SupTarget(w.sup), c.now);
  }

  lemma {:induction false} DoomedPlain(w: World, c: Choice)
    requires Doomed(w) && !w.sup.ToStarting? && !w.sup.ToRunning? && !w.sup.ToExited?
    ensures Doomed(SupNext(w, c)) && SupNext(w, c).passes == w.passes
  {
    hide Normalize, Transitioned, StateOf, Stamped, WriteStatus, TxStep, Count;
  }

  lemma {:induction false} DoomedSup(w: World, c: Choice)
    requires SupOk(w) && Doomed(w)
    ensures Doomed(SupNext(w, c)) && SupNext(w, c).passes == w.passes
  {
    if w.sup.ToStarting? || w.sup.ToRunning? || w.sup.ToExited? {
      DoomedTx(w, c);
    } else {
      DoomedPlain(w, c);
    }
  }

  lemma {:induction false} DoomedStop(w: World, id: nat, c: Choice)
    requires StopOk(w, id) && Doomed(w)
    ensures Doomed(StopNext(w, id, c)) && StopNext(w, id, c).passes == w.passes
  {
    hide StopNext, StateOf, StopOk, ManualOf, Truthy, TxFits, Normalize;
    StopStepFrame(w, id, c);
    StopStepFile(w, id, c);
  }

  /** A new stop command and a crash leave the supervisor's prospects as they are, or end them. */
  lemma {:induction false} DoomedOutside(w: World, a: Action)
    requires Doomed(w) && !a.SupStep? && !a.StopStep?
    ensures Doomed(Step(w, a)) && Step(w, a).passes == w.passes
  {
    hide SupNext, StopNext, StateOf, Manual, TxManual;
  }

  lemma {:induction false} DoomedStep(w: World, a: Action)
    requires Inv(w) && Doomed(w)
    ensures Doomed(Step(w, a)) && Step(w, a).passes == w.passes
  {
    match a {
      case SupStep(c) => DoomedSup(w, c);
      case StopStep(id, c) =>
        assert StopOk(w, id);
        DoomedStop(w, id, c);
      case _ => DoomedOutside(w, a);
    }
    hide SupNext, StopNext, Doomed, StopOk, SupOk;
  }

  lemma {:induction false} DoomedRun(w: World, actions: seq<Action>)
    requires Inv(w) && Doomed(w)
    ensures RunFrom(w, actions).passes == w.passes
    decreases |actions|
  {
    if actions != [] {
      StepInv(w, actions[0]);
      DoomedStep(w, actions[0]);
      DoomedRun(Step(w, actions[0]), actions[1..]);
    }
  }

  /**
    The windows in which the supervisor has read the status and not yet written what it decided:
    from the end of a pass to its `starting` write, between deciding and writing `running`, and from
    the read after the exit to the `exited` write (unless that read saw an earlier stop).
   */
  predicate Undoes(s: Sup) {
    match s
    case ReadHead => true
    case ToStarting(tx) => Before(tx)
    case ToRunning(tx) => tx.Ready?
    case ToExited(tx) => Before(tx) && !TxManual(tx)
    case AgainRead(_) => true
    case AgainWrite(_) => true
    case Sleep => true
    case _ => false
  }

  lemma {:induction false} CommitDooms(w: World, id: nat, c: Choice)
    requires Inv(w) && StopCommits(w, id) && !Undoes(w.sup)
    ensures Doomed(StopNext(w, id, c))
  {
    assert StopOk(w, id);
    StopStepFrame(w, id, c);
    StopStepFile(w, id, c);
    hide StopNext, StateOf, ManualOf, StopOk;
  }

  /** Left alone, the supervisor is on its way to another pass. */
  predicate Hopeful(w: World) {
    Undoes(w.sup) ||
    (((w.sup.ToRunning? && w.sup.tx.Committed?) || w.sup.Up? || w.sup.ReadExit? ||
      (w.sup.ToExited? && w.sup.tx.Committed?) || w.sup.ReadEnd?) && !Manual(w.file))
  }

  function Rank(s: Sup): nat {
    match s
    case ToStarting(tx) => TxRank(tx)
    case ReadHead => 4
    case Sleep => 5
    case AgainWrite(_) => 6
    case AgainRead(_) => 7
    case ReadEnd => 8
    case ToExited(tx) => 9 + TxRank(tx)
    case ReadExit => 13
    case Up => 14
    case ToRunning(tx) => 15 + TxRank(tx)
    case _ => 0
  }

  function TxRank(tx: Tx): nat {
    match tx case Committed => 0 case Ready(_) => 1 case Held(_) => 2 case Wait(_) => 3
  }

  const FAIR := Choice(0, true, true, map[])

  /** No process dies. */
  predicate NoCrash(actions: seq<Action>) {
    forall i :: 0 <= i < |actions| ==> !actions[i].SupCrash? && !actions[i].StopCrash?
  }

  lemma {:induction false} HopeStepTx(w: World)
    requires SupOk(w) && w.always && Hopeful(w) && (w.lock == None || w.lock == Some(BySup))
    requires w.sup.ToStarting? || w.sup.ToRunning? || w.sup.ToExited?
    ensures var v := SupNext(w, FAIR);
            v.passes > w.passes ||
            (v.passes == w.passes && Hopeful(v) && Rank(v.sup) < Rank(w.sup) && v.always &&
             (v.lock == None || v.lock == Some(BySup)))
  {
    hide Normalize, Transitioned, StateOf, ManualOf, Stamped, Manual, WriteStatus, StartOp, RunOp, ExitOp, ManualIn,
      Count, TxStep, TxManual, Truthy;
    TxSays(w, BySup, w.sup.tx, SupTarget(w.sup), FAIR.now);
  }

  lemma {:induction false} HopeStepPlain(w: World)
    requires SupOk(w) && w.always && Hopeful(w) && (w.lock == None || w.lock == Some(BySup))
    requires !w.sup.ToStarting? && !w.sup.ToRunning? && !w.sup.ToExited?
    ensures var v := SupNext(w, FAIR);
            v.passes > w.passes ||
            (v.passes == w.passes && Hopeful(v) && Rank(v.sup) < Rank(w.sup) && v.always &&
             (v.lock == None || v.lock == Some(BySup)))
  {
    hide Normalize, Transitioned, StateOf, Stamped, WriteStatus, Count, TxStep;
  }

  lemma {:induction false} HopeStep(w: World)
    requires SupOk(w) && w.always && Hopeful(w) && (w.lock == None || w.lock == Some(BySup))
    ensures var v := SupNext(w, FAIR);
            v.passes > w.passes ||
            (v.passes == w.passes && Hopeful(v) && Rank(v.sup) < Rank(w.sup) && v.always &&
             (v.lock == None || v.lock == Some(BySup)))
  {
    if w.sup.ToStarting? || w.sup.ToRunning? || w.sup.ToExited? {
      HopeStepTx(w);
    } else {
      HopeStepPlain(w);
    }
  }

  lemma {:induction false} HopeRun(w: World) returns (actions: seq<Action>)
    requires SupOk(w) && w.always && Hopeful(w) && (w.lock == None || w.lock == Some(BySup))
    ensures RunFrom(w, actions).passes > w.passes && NoCrash(actions)
    decreases Rank(w.sup)
  {
    hide SupNext, Hopeful, SupOk, Rank;
    HopeStep(w);
    SupStepOk(w, FAIR);
    var v := SupNext(w, FAIR);
    if v.passes > w.passes {
      actions := [SupStep(FAIR)];
      assert actions[1..] == [];
      assert RunFrom(v, []) == v;
    } else {
      var rest := HopeRun(v);
      actions := [SupStep(FAIR)] + rest;
      assert actions[1..] == rest;
    }
  }

  /** The steps of a stop command until it releases the lock. */
  function StepsLeft(s: Stop): nat {
    match s
    case ToStopping(tx) => TxRank(tx) + 1
    case ToStopped(tx) => TxRank(tx) + 1
    case _ => 0
  }

  lemma {:induction false} HolderTx(w: World, id: nat, tx: Tx)
    requires w.lock == Some(ByStop(id)) && Holds(tx)
    ensures match TxStep(w, ByStop(id), tx, FAIR.now)
            case Blocked => false
            case Going(v, tx') =>
              v.lock == w.lock && v.sup == w.sup && v.passes == w.passes && v.always == w.always &&
              v.stops == w.stops && TxRank(tx') < TxRank(tx)
            case Refused(v) => v == w.(lock := None)
            case Finished(v) => v == w.(lock := None)
  {
    hide Transitioned, StateOf, Permitted;
  }

  /** One step of the stop command that holds the lock: it lets go, or is one step nearer to it. */
  lemma {:induction false} HolderStep(w: World, id: nat)
    requires Inv(w) && w.lock == Some(ByStop(id))
    ensures var v := StopNext(w, id, FAIR);
            v.sup == w.sup && v.passes == w.passes && v.always == w.always &&
            (v.lock == None ||
             (v.lock == w.lock && StepsLeft(StopOf(v, id)) < StepsLeft(StopOf(w, id))))
  {
    hide Normalize, Transitioned, StateOf, Stamped, Permitted, SupOk, StopFits, TxStep, TxRank, WriteStatus;
    assert StopOk(w, id);
    var s := StopOf(w, id);
    HolderTx(w, id, s.stx);
  }

  /** The holder of the lock runs until it releases it; the supervisor stands still. */
  lemma {:induction false} HolderRun(w: World, id: nat) returns (actions: seq<Action>)
    requires Inv(w) && w.lock == Some(ByStop(id))
    ensures var v := RunFrom(w, actions);
            Inv(v) && v.lock == None && v.sup == w.sup && v.passes == w.passes && v.always == w.always
    ensures NoCrash(actions)
    decreases StepsLeft(StopOf(w, id))
  {
    HolderStep(w, id);
    StopStepInv(w, id, FAIR);
    hide StopNext, Inv;
    var v := StopNext(w, id, FAIR);
    var rest: seq<Action> := [];
    if v.lock != None {
      rest := HolderRun(v, id);
    }
    actions := [StopStep(id, FAIR)] + rest;
    assert actions[1..] == rest;
  }

  lemma {:induction false} RunJoin(w: World, a: seq<Action>, b: seq<Action>)
    ensures RunFrom(w, a + b) == RunFrom(RunFrom(w, a), b)
    decreases |a|
  {
    hide Step;
    if a == [] {
      assert a + b == b;
    } else {
      assert (a + b)[1..] == a[1..] + b;
      RunJoin(Step(w, a[0]), a[1..], b);
    }
  }

  /** A stop written in such a window can be undone: without any crash, another pass starts. */
  lemma {:induction false} CommitUndone(w: World, id: nat, c: Choice) returns (actions: seq<Action>)
    requires Inv(w) && w.always && StopCommits(w, id) && Undoes(w.sup)
    ensures RunFrom(StopNext(w, id, c), actions).passes > w.passes && NoCrash(actions)
  {
    assert StopOk(w, id);
    StopStepFrame(w, id, c);
    StopStepInv(w, id, c);
    var v := StopNext(w, id, c);
    hide StopNext, StopOk, SupOk, Undoes, StateOf, RunFrom;
    if v.lock.Some? && v.lock.value.ByStop? {
      var freeing := HolderRun(v, v.lock.value.id);
      var rest := HopeRun(RunFrom(v, freeing));
      actions := freeing + rest;
      RunJoin(v, freeing, rest);
    } else {
      actions := HopeRun(v);
    }
  }

  /**
    A stop sticks, exactly: when a stop command's write reaches the status file, no continuation
    starts another pass if and only if the supervisor is outside its read-to-write windows.
   */
  lemma {:induction false} StopSticks(start: World, actions: seq<Action>, id: nat, c: Choice)
    requires Initial(start) && start.always && StopCommits(RunFrom(start, actions), id)
    ensures var w := RunFrom(start, actions);
            (forall more :: RunFrom(StopNext(w, id, c), more).passes == w.passes) <==> !Undoes(w.sup)
  {
    InitialInv(start);
    RunInv(start, actions);
    AlwaysStays(start, actions);
    var w := RunFrom(start, actions);
    assert StopOk(w, id);
    StopStepFrame(w, id, c);
    StopStepInv(w, id, c);
    hide StopNext, StopOk, SupOk, Undoes, StopCommits, StateOf, Initial;
    if Undoes(w.sup) {
      var more := CommitUndone(w, id, c);
    } else {
      CommitDooms(w, id, c);
      forall more ensures RunFrom(StopNext(w, id, c), more).passes == w.passes {
        DoomedRun(StopNext(w, id, c), more);
      }
    }
  }

  lemma {:induction false} SupAlways(w: World, c: Choice)
    ensures SupNext(w, c).always == w.always
  {
    hide Normalize, Transitioned, StateOf, Permitted, StartOp, RunOp, ExitOp, WriteStatus, Truthy, ManualIn, Count;
  }

  lemma {:induction false} StopAlways(w: World, id: nat, c: Choice)
    ensures StopNext(w, id, c).always == w.always
  {
    hide Normalize, Transitioned, StateOf, Permitted, StoppingOp, StoppedOp, StopExtra, WriteStatus;
  }

  lemma {:induction false} AlwaysStays(w: World, actions: seq<Action>)
    ensures RunFrom(w, actions).always == w.always
    decreases |actions|
  {
    hide SupNext, StopNext;
    if actions != [] {
      match actions[0] {
        case SupStep(c) => SupAlways(w, c);
        case StopStep(id, c) => StopAlways(w, id, c);
        case _ =>
      }
      AlwaysStays(Step(w, actions[0]), actions[1..]);
    }
  }

  // ----- a stop during the sleep

  /** Where the file is while no stop command interferes. */
  predicate Calm(w: World) {
    var state := StateOf(w.file);
    w.always && (w.lock == None || w.lock == Some(BySup)) &&
    match w.sup
    case ReadHead => true
    case ToStarting(tx) => !Before(tx) ==> state == Name(Starting)
    case Launch => state == Name(Starting)
    case ToRunning(tx) => if Before(tx) then state == Name(Starting) else state == Name(Running) && !Manual(w.file)
    case Up => state == Name(Running) && !Manual(w.file)
    case ReadExit => state == Name(Running) && !Manual(w.file)
    case ToExited(tx) => if Before(tx) then state == Name(Running) && !TxManual(tx) else !Manual(w.file)
    case ReadEnd => !Manual(w.file)
    case AgainRead(_) => true
    case AgainWrite(_) => true
    case Sleep => true
    case _ => false
  }

  /** The supervisor's steps until it sleeps. */
  function ToSleep(s: Sup): nat {
    match s
    case ReadHead => 19
    case ToStarting(tx) => 15 + TxRank(tx)
    case Launch => 14
    case ToRunning(tx) => 10 + TxRank(tx)
    case Up => 9
    case ReadExit => 8
    case ToExited(tx) => 4 + TxRank(tx)
    case ReadEnd => 3
    case AgainRead(_) => 2
    case AgainWrite(_) => 1
    case _ => 0
  }

  lemma {:induction false} CalmStepTx(w: World)
    requires SupOk(w) && Calm(w) && !w.sup.Sleep?
    requires w.sup.ToStarting? || w.sup.ToRunning? || w.sup.ToExited?
    ensures var v := SupNext(w, FAIR);
            Calm(v) && ToSleep(v.sup) < ToSleep(w.sup) && v.stops == w.stops
  {
    hide Normalize, Transitioned, StateOf, ManualOf, Stamped, Manual, WriteStatus, StartOp, RunOp, ExitOp, ManualIn,
      Count, TxStep, TxManual, Truthy;
    TxSays(w, BySup, w.sup.tx, SupTarget(w.sup), FAIR.now);
  }

  lemma {:induction false} ExitOpManual(d: Dict, details: Dict, now: nat)
    ensures TxManual(Wait(ExitOp(Normalize(d), details, now))) <==> Manual(d)
  {
    hide Normalize;
  }

  lemma {:induction false} CalmStepFirst(w: World)
    requires Calm(w) && (w.sup.ReadHead? || w.sup.Launch? || w.sup.Up? || w.sup.ReadExit?)
    ensures var v := SupNext(w, FAIR);
            Calm(v) && ToSleep(v.sup) < ToSleep(w.sup) && v.stops == w.stops
  {
    ExitOpManual(w.file, FAIR.details, FAIR.now);
    hide Normalize, Transitioned, StateOf, Stamped, WriteStatus, Count, TxStep, StartOp, RunOp, ExitOp, TxManual,
      Manual, ManualIn;
  }

  lemma {:induction false} CalmStepLast(w: World)
    requires Calm(w) && !w.sup.Sleep? && !w.sup.ToStarting? && !w.sup.ToRunning? && !w.sup.ToExited?
    requires !w.sup.ReadHead? && !w.sup.Launch? && !w.sup.Up? && !w.sup.ReadExit?
    ensures var v := SupNext(w, FAIR);
            Calm(v) && ToSleep(v.sup) < ToSleep(w.sup) && v.stops == w.stops
  {
    WantsMore(w.file);
    hide Normalize, Transitioned, StateOf, Stamped, WriteStatus, Count, TxStep, StartOp, RunOp, ExitOp, TxManual,
      Manual, ManualIn;
  }

  lemma {:induction false} WantsMore(d: Dict)
    ensures Truthy(ManualIn(Normalize(d))) <==> Manual(d)
  {
    hide Normalize;
  }

  lemma {:induction false} CalmStep(w: World)
    requires SupOk(w) && Calm(w) && !w.sup.Sleep?
    ensures var v := SupNext(w, FAIR);
            Calm(v) && ToSleep(v.sup) < ToSleep(w.sup) && v.stops == w.stops
  {
    if w.sup.ToStarting? || w.sup.ToRunning? || w.sup.ToExited? {
      CalmStepTx(w);
    } else if w.sup.ReadHead? || w.sup.Launch? || w.sup.Up? || w.sup.ReadExit? {
      CalmStepFirst(w);
    } else {
      CalmStepLast(w);
    }
  }

  lemma {:induction false} SleepRun(w: World) returns (actions: seq<Action>)
    requires SupOk(w) && Calm(w)
    ensures var v := RunFrom(w, actions);
            SupOk(v) && v.sup.Sleep? && v.always && (v.lock == None || v.lock == Some(BySup)) && v.stops == w.stops
    ensures NoCrash(actions)
    decreases ToSleep(w.sup)
  {
    hide SupNext, SupOk, Calm, NoCrash;
    CalmFacts(w);
    if w.sup.Sleep? {
      actions := [];
      NoSteps();
    } else {
      CalmStep(w);
      SupStepOk(w, FAIR);
      var rest := SleepRun(SupNext(w, FAIR));
      actions := [SupStep(FAIR)] + rest;
      assert actions[1..] == rest;
      OneMoreStep(FAIR, rest);
    }
  }

  lemma {:induction false} CalmFacts(w: World)
    requires Calm(w)
    ensures w.always && (w.lock == None || w.lock == Some(BySup))
  {
    hide StateOf, Manual, TxManual;
  }

  lemma {:induction false} NoSteps()
    ensures NoCrash([])
  {
  }

  lemma {:induction false} OneMoreStep(c: Choice, rest: seq<Action>)
    requires NoCrash(rest)
    ensures NoCrash([SupStep(c)] + rest)
  {
  }

  /** The steps of a stop command up to its rename, for a container that sleeps between two passes. */
  lemma {:induction false} QuickStop(w: World)
    requires SupOk(w) && w.sup.Sleep? && w.stops == map[]
    ensures var v := RunFrom(w, [NewStop(0), StopStep(0, FAIR), StopStep(0, FAIR)]);
            v.sup.Sleep? && v.passes == w.passes && StopCommits(v, 0)
  {
    var a := [NewStop(0), StopStep(0, FAIR), StopStep(0, FAIR)];
    assert a[1..] == [StopStep(0, FAIR), StopStep(0, FAIR)] && a[1..][1..] == [StopStep(0, FAIR)];
    assert a[1..][1..][1..] == [];
    hide WriteStatus, StateOf, Normalize;
    var v := Step(w, NewStop(0));
    assert StopOf(v, 0) == Look;
    var u := StopNext(v, 0, FAIR);
    assert StopOf(u, 0) == QuickRead;
    assert RunFrom(w, a) == RunFrom(v, a[1..]) == RunFrom(u, a[1..][1..]) == RunFrom(StopNext(u, 0, FAIR), []);
  }

  lemma {:induction false} InitialCalm(start: World)
    requires Initial(start) && start.always
    ensures SupOk(start) && Calm(start) && start.stops == map[]
  {
    hide StateOf;
  }

  lemma SleepUndoes(w: World)
    ensures w.sup.Sleep? ==> Undoes(w.sup)
  {
  }

  /**
    The documented promise fails: from every start of a container with RESTART always there is a run,
    without any crash, in which a stop command writes its stop while the supervisor sleeps, and the
    supervisor then starts another pass.
   */
  lemma {:induction false} StopUndone(start: World) returns (actions: seq<Action>, more: seq<Action>)
    requires Initial(start) && start.always
    ensures NoCrash(actions) && NoCrash(more)
    ensures var w := RunFrom(start, actions);
            w.sup.Sleep? && StopCommits(w, 0) && RunFrom(StopNext(w, 0, FAIR), more).passes > w.passes
  {
    hide RunFrom, Inv, StopNext, StopCommits, SupOk, Initial, Calm, Undoes;
    InitialInv(start);
    InitialCalm(start);
    var sleeping := SleepRun(start);
    var stopping := [NewStop(0), StopStep(0, FAIR), StopStep(0, FAIR)];
    actions := sleeping + stopping;
    QuickStop(RunFrom(start, sleeping));
    RunJoin(start, sleeping, stopping);
    RunInv(start, actions);
    AlwaysStays(start, actions);
    SleepUndoes(RunFrom(start, actions));
    more := CommitUndone(RunFrom(start, actions), 0, FAIR);
  }

  /** A container just created is such a start. */
  lemma {:induction false} FreshStart()
    ensures Initial(World(true, DefaultStatus(0), None, ReadHead, map[], 0))
  {
    DefaultState();
  }
}
