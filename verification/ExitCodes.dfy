/**
  From the end of the application to the recorded reason: the wait status words of wait(2) as Linux
  lays them out, the reaping loop of PID 1, and the exit details in status.json.
 */
module ExitCodes {
  import opened Wrappers
  import opened Status

  /** How a process ends; `dumped` says that it left a core file. */
  datatype Ended = Finished(code: int) | Killed(signal: nat, dumped: bool)

  predicate Real(e: Ended) { e.Killed? ==> 1 <= e.signal <= 64 }

  /** The status word that wait gives for it: seven bits of signal, one for the core, eight of code. */
  function Word(e: Ended): nat
    requires Real(e)
  {
    match e
    case Finished(code) => code % 256 * 256
    case Killed(signal, dumped) => signal + (if dumped then 128 else 0)
  }

  // The macros of sys/wait.h.
  predicate WIfExited(status: nat) { status % 128 == 0 }
  predicate WIfSignaled(status: nat) { 1 <= status % 128 <= 126 }

  function StatusToExitCode(status: nat): int {
    if WIfExited(status) then status / 256 % 256
    else if WIfSignaled(status) then 128 + status % 128
    else 1
  }

  /** What shells report: the code modulo 256, or 128 plus the signal. */
  function Conventional(e: Ended): int {
    match e
    case Finished(code) => code % 256
    case Killed(signal, _) => 128 + signal
  }

  lemma {:induction false} WordDecodes(e: Ended)
    requires Real(e)
    ensures StatusToExitCode(Word(e)) == Conventional(e)
  {
    match e
    case Finished(code) => HighByte(code % 256);
    case Killed(signal, dumped) => LowBits(signal, dumped);
  }

  lemma HighByte(b: nat)
    requires b < 256
    ensures b * 256 % 128 == 0 && b * 256 / 256 % 256 == b
  {
  }

  lemma LowBits(signal: nat, dumped: bool)
    requires 1 <= signal <= 64
    ensures (signal + (if dumped then 128 else 0)) % 128 == signal
  {
  }

  /** Any other status, such as that of a stopped process, gives 1. */
  lemma {:induction false} OtherStatus(status: nat)
    ensures StatusToExitCode(status) == 1 ||
            (status % 128 == 0 && StatusToExitCode(status) == status / 256 % 256) ||
            (1 <= status % 128 <= 126 && StatusToExitCode(status) == 128 + status % 128)
    ensures status % 128 == 127 ==> StatusToExitCode(status) == 1
  {
  }

  // ----- PID 1

  /** One return of waitpid(-1). */
  datatype Outcome = Reaped(pid: int, status: nat) | Interrupted | NoChildren | Broken

  predicate Continues(o: Outcome) { o.Reaped? || o.Interrupted? }

  /** The loop leaves at outcome k. */
  ghost predicate LeavesAt(outcomes: seq<Outcome>, k: nat) {
    k < |outcomes| && !Continues(outcomes[k]) && forall j :: 0 <= j < k ==> Continues(outcomes[j])
  }

  predicate Ours(o: Outcome, app: int) { o.Reaped? && o.pid == app }

  /** The latest status of the application among what was reaped. */
  function LastStatus(outcomes: seq<Outcome>, app: int): (r: Option<nat>)
    ensures r.None? <==> forall k :: 0 <= k < |outcomes| ==> !Ours(outcomes[k], app)
    ensures r.Some? ==> exists k :: 0 <= k < |outcomes| && outcomes[k] == Reaped(app, r.value)
  {
    if outcomes == [] then None
    else
      var o := outcomes[|outcomes| - 1];
      if Ours(o, app) then Some(o.status) else LastStatus(outcomes[..|outcomes| - 1], app)
  }

  /** What PID 1 returns once nothing is left to reap. */
  function AtEnd(reaped: seq<Outcome>, app: int): int {
    match LastStatus(reaped, app)
    case Some(status) => StatusToExitCode(status)
    case None => 1
  }

  /** ECHILD gives the application's code; any other failure of waitpid gives 1. */
  function Leaving(outcomes: seq<Outcome>, k: nat, app: int): int
    requires k < |outcomes|
  {
    if outcomes[k].NoChildren? then AtEnd(outcomes[..k], app) else 1
  }

  /** The loop leaves at one place. */
  lemma LeavesFirst(outcomes: seq<Outcome>, j: nat)
    requires LeavesAt(outcomes, j)
    ensures forall k: nat :: LeavesAt(outcomes, k) ==> k == j
  {
    forall k: nat | LeavesAt(outcomes, k) ensures k == j {
      assert !Continues(outcomes[j]) && !Continues(outcomes[k]);
    }
  }

  /** The loop of runInit over the returns of waitpid; no result while it still waits. */
  method RunInit(app: int, outcomes: seq<Outcome>) returns (code: Option<int>)
    ensures code.None? <==> forall k :: 0 <= k < |outcomes| ==> Continues(outcomes[k])
    ensures forall k: nat :: LeavesAt(outcomes, k) ==> code == Some(Leaving(outcomes, k, app))
  {
    var appStatus: nat := 0;
    var appExited := false;
    var i := 0;
    while i < |outcomes|
      invariant 0 <= i <= |outcomes| && forall j :: 0 <= j < i ==> Continues(outcomes[j])
      invariant LastStatus(outcomes[..i], app) == if appExited then Some(appStatus) else None
    {
      var o := outcomes[i];
      if o.NoChildren? {
        assert LeavesAt(outcomes, i);
        LeavesFirst(outcomes, i);
        return Some(if appExited then StatusToExitCode(appStatus) else 1);
      }
      if o.Broken? {
        assert LeavesAt(outcomes, i);
        LeavesFirst(outcomes, i);
        return Some(1);
      }
      assert outcomes[..i + 1][..i] == outcomes[..i];
      if o.Reaped? && o.pid == app {
        appStatus, appExited := o.status, true;
      }
      i := i + 1;
    }
    assert outcomes[..i] == outcomes;
    return None;
  }

  /** The application is reaped at most once: its pid is not given to another process. */
  predicate NoReuse(outcomes: seq<Outcome>, app: int) {
    forall j, k :: 0 <= j < k < |outcomes| ==> !(Ours(outcomes[j], app) && Ours(outcomes[k], app))
  }

  lemma {:induction false} TheStatus(outcomes: seq<Outcome>, app: int, k: nat)
    requires NoReuse(outcomes, app) && k < |outcomes| && Ours(outcomes[k], app)
    ensures LastStatus(outcomes, app) == Some(outcomes[k].status)
  {
    var r := LastStatus(outcomes, app);
    assert r.Some?;
    var j :| 0 <= j < |outcomes| && outcomes[j] == Reaped(app, r.value);
    assert Ours(outcomes[j], app);
    assert j < k || j == k || k < j;
  }

  /** Whatever else PID 1 reaps and in whatever order, it returns the application's own code. */
  lemma {:induction false} AppCode(reaped: seq<Outcome>, app: int, e: Ended)
    requires NoReuse(reaped, app) && Real(e) && Reaped(app, Word(e)) in reaped
    ensures AtEnd(reaped, app) == Conventional(e)
  {
    var k :| 0 <= k < |reaped| && reaped[k] == Reaped(app, Word(e));
    TheStatus(reaped, app, k);
    WordDecodes(e);
  }

  /** Two runs that reap the same things in different orders return the same code. */
  lemma {:induction false} OrderOfReaping(a: seq<Outcome>, b: seq<Outcome>, app: int)
    requires multiset(a) == multiset(b) && NoReuse(a, app) && NoReuse(b, app)
    ensures AtEnd(a, app) == AtEnd(b, app)
  {
    assert forall o :: o in a <==> o in multiset(a);
    assert forall o :: o in b <==> o in multiset(b);
    if j :| 0 <= j < |a| && Ours(a[j], app) {
      assert a[j] in b;
      var k :| 0 <= k < |b| && b[k] == a[j];
      TheStatus(a, app, j);
      TheStatus(b, app, k);
    } else {
      assert forall k :: 0 <= k < |b| ==> b[k] in a;
    }
  }

  // ----- through the runtime to status.json

  /** subprocess.Popen.wait: a signal comes back negative. */
  function ReturnCode(runtime: Ended): int {
    if runtime.Finished? then runtime.code % 256 else -(runtime.signal as int)
  }

  /** The exit code `axis run` sees when nothing but the application is killed. */
  function Seen(app: Ended): int
    requires Real(app)
  {
    var init := Finished(StatusToExitCode(Word(app)));
    var runtime := Finished(StatusToExitCode(Word(init)));
    ReturnCode(runtime)
  }

  function ExitDetails(exitCode: int, oomKills: int): Dict {
    if oomKills > 0 then map[ExitReason := Text("oom_killed"), OomKilled := Bool(true)]
    else if exitCode >= 128 then map[ExitSignal := Int(exitCode - 128), ExitReason := Text("signal")]
    else if exitCode == 0 then map[ExitReason := Text("completed"), OomKilled := Bool(false)]
    else map[ExitReason := Text("error"), OomKilled := Bool(false)]
  }

  /** The code crosses two more waits unchanged. */
  lemma {:induction false} SeenIsConventional(app: Ended)
    requires Real(app)
    ensures Seen(app) == Conventional(app) && 0 <= Seen(app) < 256
  {
    hide Word, StatusToExitCode;
    WordDecodes(app);
    WordDecodes(Finished(Conventional(app)));
  }

  /**
    The recorded reason is a signal exactly when a signal killed the application or it exited with a
    code of 128 or more; a killing signal is recorded by its number.
   */
  lemma {:induction false} Reported(app: Ended, oomKills: int)
    requires Real(app)
    ensures var d := ExitDetails(Seen(app), oomKills);
            && (Get(d, ExitReason) == Text("oom_killed") <==> oomKills > 0)
            && (Get(d, ExitReason) == Text("signal") <==>
                oomKills <= 0 && (app.Killed? || app.code % 256 >= 128))
            && (Get(d, ExitReason) == Text("completed") <==>
                oomKills <= 0 && app.Finished? && app.code % 256 == 0)
            && (Get(d, ExitReason) == Text("error") <==>
                oomKills <= 0 && app.Finished? && 0 < app.code % 256 < 128)
            && (Get(d, OomKilled) == Bool(true) <==> oomKills > 0)
            && (Get(d, OomKilled) == Bool(false) <==> oomKills <= 0 && app.Finished? && app.code % 256 < 128)
            && (ExitSignal in d <==> oomKills <= 0 && (app.Killed? || app.code % 256 >= 128))
            && (ExitSignal in d && app.Killed? ==> d[ExitSignal] == Int(app.signal))
            && (ExitSignal in d && app.Finished? ==> d[ExitSignal] == Int(app.code % 256 - 128))
  {
    hide Seen, ExitDetails;
    SeenIsConventional(app);
    DetailsExactly(Seen(app), oomKills);
  }

  /** What is recorded about an exit, field by field. */
  lemma {:induction false} DetailsExactly(exitCode: int, oomKills: int)
    ensures var d := ExitDetails(exitCode, oomKills);
            && (Get(d, ExitReason) == Text("oom_killed") <==> oomKills > 0)
            && (Get(d, ExitReason) == Text("signal") <==> oomKills <= 0 && exitCode >= 128)
            && (Get(d, ExitReason) == Text("completed") <==> oomKills <= 0 && exitCode == 0)
            && (Get(d, ExitReason) == Text("error") <==> oomKills <= 0 && exitCode != 0 && exitCode < 128)
            && (Get(d, OomKilled) == Bool(true) <==> oomKills > 0)
            && (Get(d, OomKilled) == Bool(false) <==> oomKills <= 0 && exitCode < 128)
            && (ExitSignal in d <==> oomKills <= 0 && exitCode >= 128)
            && (ExitSignal in d ==> d[ExitSignal] == Int(exitCode - 128))
            && forall f :: f in d ==> f == ExitReason || f == OomKilled || f == ExitSignal
  {
    ReasonsDiffer();
  }

  lemma {:induction false} ReasonsDiffer()
    ensures Text("oom_killed") != Text("signal") && Text("oom_killed") != Text("completed")
    ensures Text("oom_killed") != Text("error") && Text("signal") != Text("completed")
    ensures Text("signal") != Text("error") && Text("completed") != Text("error")
  {
    assert |"oom_killed"| == 10 && |"signal"| == 6 && |"completed"| == 9 && |"error"| == 5;
  }

  /** A signal that kills the runtime itself is not recorded as one. */
  lemma RuntimeKilled(runtime: Ended, oomKills: int)
    requires Real(runtime) && runtime.Killed? && oomKills <= 0
    ensures Get(ExitDetails(ReturnCode(runtime), oomKills), ExitReason) == Text("error")
  {
  }
}
