/** resources.json: the journal of what a container owns, appended to under the container lock. */
module Journal {
  import opened Wrappers
  import LockedFile

  datatype Resource =
    | Rootfs(path: string)
    | Cgroup(path: string)
    | BindMount(source: string, destination: string)
    | Veth(host: string, container: string)
    | Ip(network: string, address: string)
    | Proxy(pid: int, hostPort: int)

  function Add(resources: seq<Resource>, r: Resource): LockedFile.Outcome<seq<Resource>, ()> {
    if r in resources then LockedFile.Keep(()) else LockedFile.Write(resources + [r], ())
  }

  class ResourceFile {
    var resources: seq<Resource>

    constructor ()
      ensures resources == []
    {
      resources := [];
    }

    method AddResource(r: Resource)
      modifies this
      ensures r in resources && old(resources) <= resources
      ensures forall x :: x in resources ==> x in old(resources) || x == r
      ensures r in old(resources) ==> resources == old(resources)
      ensures r !in old(resources) ==> resources == old(resources) + [r]
    {
      if r !in resources {
        resources := resources + [r];
      }
    }
  }

  const JOURNAL_MACHINE: LockedFile.Machine<seq<Resource>, Resource, ()> :=
    LockedFile.Machine([], (s, r) => Add(s, r))

  type JournalEvent = LockedFile.Event<Resource, ()>

  /** The position of the first logged call for a resource. */
  function FirstCall(log: seq<JournalEvent>, r: Resource): (i: nat)
    ensures i <= |log| && (i < |log| ==> log[i].op == r) && forall j :: 0 <= j < i ==> log[j].op != r
  {
    if log == [] then 0 else if log[0].op == r then 0 else 1 + FirstCall(log[1..], r)
  }

  /** Each resource of the log once, in the order of its first call. */
  ghost predicate FirstOccurrences(journal: seq<Resource>, log: seq<JournalEvent>) {
    && (forall i :: 0 <= i < |log| ==> log[i].op in journal)
    && (forall k :: 0 <= k < |journal| ==> FirstCall(log, journal[k]) < |log|)
    && (forall k, l :: 0 <= k < l < |journal| ==> FirstCall(log, journal[k]) < FirstCall(log, journal[l]))
  }

  lemma {:induction false} FirstCallStays(log: seq<JournalEvent>, e: JournalEvent, r: Resource)
    ensures FirstCall(log, r) < |log| ==> FirstCall(log + [e], r) == FirstCall(log, r)
    ensures FirstCall(log, r) == |log| && e.op == r ==> FirstCall(log + [e], r) == |log|
  {
    var i, j := FirstCall(log, r), FirstCall(log + [e], r);
    assert i < |log| ==> (log + [e])[i].op == r;
    assert (log + [e])[|log|] == e;
    assert forall k :: 0 <= k < |log| ==> (log + [e])[k] == log[k];
  }

  lemma {:induction false} JournalStep(journal: seq<Resource>, log: seq<JournalEvent>, e: JournalEvent)
    requires FirstOccurrences(journal, log)
    ensures FirstOccurrences(JOURNAL_MACHINE.After(journal, e.op), log + [e])
  {
    hide FirstCall;
    forall r: Resource ensures FirstCall(log, r) < |log| ==> FirstCall(log + [e], r) == FirstCall(log, r) {
      FirstCallStays(log, e, r);
    }
    FirstCallStays(log, e, e.op);
    if FirstCall(log, e.op) < |log| {
      assert log[FirstCall(log, e.op)].op in journal;
    }
  }

  lemma {:induction false} JournalOf(log: seq<JournalEvent>)
    ensures FirstOccurrences(LockedFile.Replay(JOURNAL_MACHINE, log), log)
  {
    if log != [] {
      var n := |log| - 1;
      assert log == log[..n] + [log[n]];
      JournalOf(log[..n]);
      JournalStep(LockedFile.Replay(JOURNAL_MACHINE, log[..n]), log[..n], log[n]);
    }
  }

  /**
    Any interleaving of add_resource calls, with crashes: the journal lists every resource whose call
    took effect exactly once, in the order of first calls, and later calls never drop or move one.
   */
  lemma {:induction false} JournalKept(
    actions: seq<LockedFile.Action<Resource>>, more: seq<LockedFile.Action<Resource>>)
    ensures var w := LockedFile.Run(JOURNAL_MACHINE, actions);
            FirstOccurrences(LockedFile.Contents(JOURNAL_MACHINE, w), w.log)
    ensures LockedFile.Contents(JOURNAL_MACHINE, LockedFile.Run(JOURNAL_MACHINE, actions)) <=
            LockedFile.Contents(JOURNAL_MACHINE, LockedFile.Run(JOURNAL_MACHINE, actions + more))
  {
    LockedFile.Linearizable(JOURNAL_MACHINE, actions);
    LockedFile.Linearizable(JOURNAL_MACHINE, actions + more);
    LockedFile.LogGrows(JOURNAL_MACHINE, actions, more);
    JournalOf(LockedFile.Run(JOURNAL_MACHINE, actions).log);
    JournalGrows(LockedFile.Run(JOURNAL_MACHINE, actions).log, LockedFile.Run(JOURNAL_MACHINE, actions + more).log);
  }

  lemma {:induction false} JournalGrows(log: seq<JournalEvent>, longer: seq<JournalEvent>)
    requires log <= longer
    ensures LockedFile.Replay(JOURNAL_MACHINE, log) <= LockedFile.Replay(JOURNAL_MACHINE, longer)
    decreases |longer|
  {
    if |log| < |longer| {
      JournalGrows(log, longer[..|longer| - 1]);
    } else {
      assert log == longer;
    }
  }

  /**
    In any run, a call of add_resource made while nobody holds the lock can return, and its resource
    is then in the journal: last if it is new, and where it was if it is not.
   */
  lemma {:induction false} AddReturns(actions: seq<LockedFile.Action<Resource>>, pid: nat, r: Resource)
    requires LockedFile.MayCall(LockedFile.Run(JOURNAL_MACHINE, actions), pid)
    ensures var w := LockedFile.Run(JOURNAL_MACHINE, actions);
            var v := LockedFile.Run(JOURNAL_MACHINE, actions + LockedFile.CallSteps(pid, r));
            var journal := LockedFile.Contents(JOURNAL_MACHINE, w);
            && v.lock == None && LockedFile.PhaseOf(v, pid).Returned? && |v.log| == |w.log| + 1
            && v.file == if r in journal then w.file else Some(LockedFile.Whole(journal + [r]))
  {
    hide LockedFile.Run, LockedFile.CallSteps, LockedFile.PhaseOf, LockedFile.Contents;
    LockedFile.CallReturns(JOURNAL_MACHINE, actions, pid, r);
  }
}
