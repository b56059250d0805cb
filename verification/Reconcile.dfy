/** `axis reconcile`: repairing the files of containers whose processes are gone. */
module Reconcile {
  import opened Wrappers
  import opened Status

  /** network.json: its proxy_pids, if the key is there, and everything else. */
  datatype NetworkFile = NetworkFile(proxies: Option<seq<int>>, rest: Dict)

  /** The files of one container directory, and which of them may be written. */
  datatype Files = Files(
    hasRuntime: bool,
    status: Option<Dict>,
    pid: Option<int>,
    network: Option<NetworkFile>,
    statusWritable: bool,
    networkWritable: bool)

  datatype Report =
    | MarkedFailed(id: string) | StalePid(id: string) | PrunedProxies(id: string) | StaleProxies(id: string)

  type Liveness = int -> bool

  function ReadStatus(f: Files): (d: Dict)
    ensures Complete(d)
  {
    if f.status.Some? then
      NormalizeComplete(f.status.value);
      Normalize(f.status.value)
    else DefaultStatus(0)
  }

  predicate Active(state: Json) { state == Name(Running) || state == Name(Starting) || state == Name(Stopping) }

  predicate Alive(pid: Option<int>, live: Liveness) { pid.Some? && live(pid.value) }

  /** Marked as active, with no live process behind the recorded pid. */
  predicate Stale(f: Files, live: Liveness) {
    f.hasRuntime && Active(ReadStatus(f)[State]) && !Alive(f.pid, live)
  }

  function Proxies(n: NetworkFile): seq<int> { if n.proxies.Some? then n.proxies.value else [] }

  /** The live pids, in order. */
  function LiveOnes(pids: seq<int>, live: Liveness): (r: seq<int>)
    ensures |r| <= |pids| && (|r| == |pids| <==> forall p :: p in pids ==> live(p))
    ensures forall p :: p in r <==> p in pids && live(p)
  {
    if pids == [] then []
    else
      var before, last := LiveOnes(pids[..|pids| - 1], live), pids[|pids| - 1];
      assert pids == pids[..|pids| - 1] + [last];
      if live(last) then before + [last] else before
  }

  lemma NoneLive(pids: seq<int>, live: Liveness)
    ensures LiveOnes(pids[..0], live) == []
  {
  }

  lemma {:induction false} OneMorePid(pids: seq<int>, i: nat, live: Liveness)
    requires i < |pids|
    ensures LiveOnes(pids[..i + 1], live) ==
            if live(pids[i]) then LiveOnes(pids[..i], live) + [pids[i]] else LiveOnes(pids[..i], live)
  {
    assert pids[..i + 1][..i] == pids[..i];
  }

  predicate StaleProxy(f: Files, live: Liveness) {
    f.hasRuntime && f.network.Some? && exists p :: p in Proxies(f.network.value) && !live(p)
  }

  lemma StaleMeans(f: Files, live: Liveness)
    requires f.hasRuntime
    ensures StaleProxy(f, live) <==>
            f.network.Some? && |LiveOnes(Proxies(f.network.value), live)| != |Proxies(f.network.value)|
  {
  }

  const REPAIR: Dict := map[Pid := Null, ExitReason := Text("stale_pid"), DesiredState := Name(Exited)]

  /** A stale container is marked failed, if its status may be written. */
  function StatusRepaired(f: Files, live: Liveness, now: nat): Files {
    if Stale(f, live) && f.statusWritable then f.(status := Some(WriteStatus(ReadStatus(f), Failed, REPAIR, now)))
    else f
  }

  /** Dead proxies are dropped, if network.json may be written. */
  function ProxiesPruned(f: Files, live: Liveness): Files {
    if StaleProxy(f, live) && f.networkWritable then
      f.(network := Some(f.network.value.(proxies := Some(LiveOnes(Proxies(f.network.value), live)))))
    else f
  }

  /** What one pass makes of the files of a container. */
  function Repaired(f: Files, live: Liveness, now: nat): Files { ProxiesPruned(StatusRepaired(f, live, now), live) }

  predicate WritesStatus(f: Files, live: Liveness) { Stale(f, live) && f.statusWritable }

  predicate WritesNetwork(f: Files, live: Liveness) { StaleProxy(f, live) && f.networkWritable }

  function StatusReport(id: string, f: Files, live: Liveness): seq<Report> {
    if !Stale(f, live) then [] else if f.statusWritable then [MarkedFailed(id)] else [StalePid(id)]
  }

  function ProxyReport(id: string, f: Files, live: Liveness): seq<Report> {
    if !StaleProxy(f, live) then [] else if f.networkWritable then [PrunedProxies(id)] else [StaleProxies(id)]
  }

  /** The lines printed about the containers, in order. */
  function Reports(order: seq<string>, containers: map<string, Files>, live: Liveness): seq<Report>
    requires forall id :: id in order ==> id in containers
  {
    if order == [] then []
    else
      var id := order[|order| - 1];
      Reports(order[..|order| - 1], containers, live) +
      StatusReport(id, containers[id], live) + ProxyReport(id, containers[id], live)
  }

  class StateDirectory {
    var containers: map<string, Files>

    constructor (containers: map<string, Files>)
      ensures this.containers == containers
    {
      this.containers := containers;
    }

    /** The status of one container; true when it is written. */
    method RepairStatus(id: string, live: Liveness, now: nat) returns (report: seq<Report>, written: bool)
      requires id in containers && containers[id].hasRuntime
      modifies this
      ensures containers == old(containers)[id := StatusRepaired(old(containers[id]), live, now)]
      ensures report == StatusReport(id, old(containers[id]), live)
      ensures written <==> WritesStatus(old(containers[id]), live)
    {
      hide WriteStatus, Normalize;
      var f := containers[id];
      var status := ReadStatus(f);
      report, written := [], false;
      if Active(status[State]) && !Alive(f.pid, live) {
        if f.statusWritable {
          containers := containers[id := f.(status := Some(WriteStatus(status, Failed, REPAIR, now)))];
          report, written := [MarkedFailed(id)], true;
        } else {
          report := [StalePid(id)];
        }
      }
    }

    /** The proxies of one container; true when network.json is written. */
    method PruneProxies(id: string, live: Liveness) returns (report: seq<Report>, written: bool)
      requires id in containers && containers[id].hasRuntime
      modifies this
      ensures containers == old(containers)[id := ProxiesPruned(old(containers[id]), live)]
      ensures report == ProxyReport(id, old(containers[id]), live)
      ensures written <==> WritesNetwork(old(containers[id]), live)
    {
      hide LiveOnes, Stale, StaleProxy, Proxies;
      var f := containers[id];
      report, written := [], false;
      StaleMeans(f, live);
      assert containers == containers[id := f];
      if f.network.Some? {
        var pids := Proxies(f.network.value);
        var liveProxies: seq<int> := [];
        NoneLive(pids, live);
        for i := 0 to |pids|
          invariant containers == old(containers) && liveProxies == LiveOnes(pids[..i], live)
        {
          OneMorePid(pids, i, live);
          if live(pids[i]) {
            liveProxies := liveProxies + [pids[i]];
          }
        }
        assert pids[..|pids|] == pids;
        if |liveProxies| != |pids| {
          if f.networkWritable {
            containers := containers[id := f.(network := Some(f.network.value.(proxies := Some(liveProxies))))];
            report, written := [PrunedProxies(id)], true;
          } else {
            report := [StaleProxies(id)];
          }
        }
      }
    }

    /** One container; `writes` counts the files written. */
    method ReconcileOne(id: string, live: Liveness, now: nat) returns (report: seq<Report>, ghost writes: nat)
      requires id in containers
      modifies this
      ensures containers == old(containers)[id := Repaired(old(containers[id]), live, now)]
      ensures report == StatusReport(id, old(containers[id]), live) + ProxyReport(id, old(containers[id]), live)
      ensures writes == 0 <==> Untouched(old(containers[id]), live)
    {
      hide StatusRepaired, ProxiesPruned, Stale, StaleProxy, WritesStatus, WritesNetwork;
      report, writes := [], 0;
      NothingWithoutRuntime(containers[id], live, now);
      if containers[id].hasRuntime {
        SameProxies(containers[id], live, now);
        var status, written := RepairStatus(id, live, now);
        var proxies, pruned := PruneProxies(id, live);
        report, writes := status + proxies, (if written then 1 else 0) + (if pruned then 1 else 0);
      }
    }

    /** One pass over the directories, in the order of their names: every container is repaired. */
    method ReconcileAll(order: seq<string>, live: Liveness, now: nat) returns (repaired: seq<Report>, ghost writes: nat)
      requires forall id :: id in order <==> id in containers
      requires forall i, j :: 0 <= i < j < |order| ==> order[i] != order[j]
      modifies this
      ensures containers == map id | id in old(containers) :: Repaired(old(containers)[id], live, now)
      ensures repaired == Reports(order, old(containers), live)
      ensures writes == 0 <==> forall id :: id in old(containers) ==> Untouched(old(containers)[id], live)
    {
      hide Repaired, StatusReport, ProxyReport, Untouched, Reports;
      repaired, writes := [], 0;
      NoReports(order, containers, live);
      ghost var was := containers;
      for i := 0 to |order|
        invariant Halfway(was, containers, order, i, live, now)
        invariant repaired == Reports(order[..i], was, live)
        invariant writes == 0 <==> forall k :: 0 <= k < i ==> Untouched(was[order[k]], live)
      {
        ReportsOne(order, i, was, live);
        HalfwayStep(was, containers, order, i, live, now);
        var report, written := ReconcileOne(order[i], live, now);
        repaired, writes := repaired + report, writes + written;
      }
      assert order[..|order|] == order;
      assert forall id :: id in was ==> exists k :: 0 <= k < |order| && order[k] == id;
    }
  }

  /** The first `i` containers are repaired, the others as they were. */
  ghost predicate Halfway(
    was: map<string, Files>, containers: map<string, Files>, order: seq<string>, i: nat, live: Liveness, now: nat)
  {
    && i <= |order| && containers.Keys == was.Keys && (forall k :: 0 <= k < |order| ==> order[k] in was)
    && (forall k :: 0 <= k < i ==> containers[order[k]] == Repaired(was[order[k]], live, now))
    && forall k :: i <= k < |order| ==> containers[order[k]] == was[order[k]]
  }

  lemma {:induction false} HalfwayStep(
    was: map<string, Files>, containers: map<string, Files>, order: seq<string>, i: nat, live: Liveness, now: nat)
    requires i < |order| && Halfway(was, containers, order, i, live, now)
    requires forall i, j :: 0 <= i < j < |order| ==> order[i] != order[j]
    ensures Halfway(
              was, containers[order[i] := Repaired(containers[order[i]], live, now)], order, i + 1, live, now)
    ensures containers[order[i]] == was[order[i]]
  {
    hide Repaired;
  }

  lemma {:induction false} ReportsOne(order: seq<string>, i: nat, containers: map<string, Files>, live: Liveness)
    requires i < |order| && forall id :: id in order ==> id in containers
    ensures Reports(order[..i + 1], containers, live) ==
            Reports(order[..i], containers, live) +
            (StatusReport(order[i], containers[order[i]], live) + ProxyReport(order[i], containers[order[i]], live))
  {
    assert order[..i + 1][..i] == order[..i];
  }

  lemma NoReports(order: seq<string>, containers: map<string, Files>, live: Liveness)
    requires forall id :: id in order ==> id in containers
    ensures Reports(order[..0], containers, live) == []
  {
  }

  /** Nothing is wrong with the container. */
  ghost predicate Sound(f: Files, live: Liveness) { !Stale(f, live) && !StaleProxy(f, live) }

  /** A pass writes none of the container's files. */
  ghost predicate Untouched(f: Files, live: Liveness) { !WritesStatus(f, live) && !WritesNetwork(f, live) }

  lemma NothingWithoutRuntime(f: Files, live: Liveness, now: nat)
    ensures !f.hasRuntime ==> Repaired(f, live, now) == f && Sound(f, live) && Untouched(f, live)
  {
  }

  /** Repairing the status leaves the network file alone. */
  lemma {:induction false} SameProxies(f: Files, live: Liveness, now: nat)
    ensures var g := StatusRepaired(f, live, now);
            g.hasRuntime == f.hasRuntime && g.networkWritable == f.networkWritable &&
            StaleProxy(g, live) == StaleProxy(f, live) &&
            WritesNetwork(g, live) == WritesNetwork(f, live) && g.network == f.network && g.pid == f.pid
  {
    hide WriteStatus, Proxies, Stale, ReadStatus;
  }

  /** "State is already reconciled" is printed exactly when nothing is wrong with any container. */
  lemma {:induction false} NothingReported(order: seq<string>, containers: map<string, Files>, live: Liveness)
    requires forall id :: id in order ==> id in containers
    ensures Reports(order, containers, live) == [] <==> forall id :: id in order ==> Sound(containers[id], live)
  {
    hide Stale, StaleProxy;
    if order != [] {
      var n := |order| - 1;
      assert order == order[..n] + [order[n]];
      NothingReported(order[..n], containers, live);
    }
  }

  // ----- what a pass achieves

  /** The repaired status is failed, and the fields the repair does not name are kept. */
  lemma {:induction false} RepairedStatus(f: Files, live: Liveness, now: nat, field: Field)
    requires WritesStatus(f, live)
    ensures var d := ReadStatus(Repaired(f, live, now));
            d[State] == Name(Failed) && Get(d, Pid) == Null && Get(d, ExitReason) == Text("stale_pid") &&
            Get(d, DesiredState) == Name(Exited) &&
            (field in REPAIR || Stamps(field) || Get(d, field) == Get(ReadStatus(f), field))
  {
    hide Normalize, Stamped, Stale, Proxies;
    var was := ReadStatus(f);
    CompleteNormal(was);
    StampedFields(was, Failed, REPAIR, now);
    SameProxies(f, live, now);
    assert Repaired(f, live, now).status == Some(WriteStatus(was, Failed, REPAIR, now));
  }

  /** What is left of the proxies is the live ones in their order. */
  predicate Sublist(a: seq<int>, b: seq<int>) {
    if b == [] then a == []
    else
      Sublist(a, b[..|b| - 1]) || (a != [] && a[|a| - 1] == b[|b| - 1] && Sublist(a[..|a| - 1], b[..|b| - 1]))
  }

  lemma {:induction false} LiveSublist(pids: seq<int>, live: Liveness)
    ensures Sublist(LiveOnes(pids, live), pids)
    ensures forall p :: multiset(LiveOnes(pids, live))[p] == if live(p) then multiset(pids)[p] else 0
  {
    if pids != [] {
      var n := |pids| - 1;
      assert pids == pids[..n] + [pids[n]];
      LiveSublist(pids[..n], live);
      if live(pids[n]) {
        assert LiveOnes(pids, live)[..|LiveOnes(pids, live)| - 1] == LiveOnes(pids[..n], live);
      }
    }
  }

  /**
    After a pass a container is marked as active with a dead pid only if its status could not be
    written, and lists a dead proxy only if its network file could not be.
   */
  lemma {:induction false} StillStale(f: Files, live: Liveness, now: nat)
    ensures Stale(Repaired(f, live, now), live) <==> Stale(f, live) && !f.statusWritable
    ensures StaleProxy(Repaired(f, live, now), live) <==> StaleProxy(f, live) && !f.networkWritable
  {
    hide WriteStatus, Normalize, LiveOnes;
    SameProxies(f, live, now);
    if WritesStatus(f, live) {
      RepairedStatus(f, live, now, State);
    }
  }

  /** A second pass, at any later time, writes nothing and changes nothing. */
  lemma {:induction false} Fixpoint(f: Files, live: Liveness, now: nat, later: nat)
    ensures Untouched(Repaired(f, live, now), live)
    ensures Repaired(Repaired(f, live, now), live, later) == Repaired(f, live, now)
  {
    hide Stale, StaleProxy, ReadStatus, WriteStatus;
    StillStale(f, live, now);
  }

  /** Marked running, starting or stopping, in a directory with a runtime.json, and no such process. */
  predicate Abandoned(f: Files, live: Liveness) {
    f.hasRuntime && f.status.Some? && (f.pid == None || !live(f.pid.value)) &&
    (StateOf(f.status.value) == Name(Running) || StateOf(f.status.value) == Name(Starting) ||
     StateOf(f.status.value) == Name(Stopping))
  }

  lemma {:induction false} StaleExactly(f: Files, live: Liveness)
    ensures Stale(f, live) <==> Abandoned(f, live)
  {
    CompleteNormal(DefaultStatus(0));
    hide Normalize;
  }

  /** The status of an abandoned container after a pass. */
  predicate GivenUp(d: Dict) {
    StateOf(d) == Name(Failed) && Get(d, Pid) == Null && Get(d, ExitReason) == Text("stale_pid") &&
    Get(d, DesiredState) == Name(Exited)
  }

  /** The live pids of these, and nothing else. */
  ghost predicate OnlyLive(left: seq<int>, pids: seq<int>, live: Liveness) {
    Sublist(left, pids) && forall p :: multiset(left)[p] == if live(p) then multiset(pids)[p] else 0
  }

  /**
    What a pass does to a container: an abandoned one is marked failed, dead proxies are dropped, each
    if the file may be written, and every other file is left as it is.
   */
  lemma {:induction false} PassRepairs(f: Files, live: Liveness, now: nat)
    ensures var g := Repaired(f, live, now);
            && g == f.(status := g.status, network := g.network)
            && (if Abandoned(f, live) && f.statusWritable then g.status.Some? && GivenUp(g.status.value)
                else g.status == f.status)
            && (if f.hasRuntime && f.network.Some? && f.networkWritable && AnyDead(Proxies(f.network.value), live) then
                  g.network.Some? && g.network.value.rest == f.network.value.rest && g.network.value.proxies.Some? &&
                  OnlyLive(g.network.value.proxies.value, Proxies(f.network.value), live)
                else g.network == f.network)
  {
    StaleExactly(f, live);
    SameProxies(f, live, now);
    AbandonedRepaired(f, now);
    if f.network.Some? {
      LiveSublist(Proxies(f.network.value), live);
    }
    hide Normalize, WriteStatus, Stale, Proxies, ReadStatus, Abandoned, StateOf, Sublist, LiveOnes, GivenUp;
  }

  ghost predicate AnyDead(pids: seq<int>, live: Liveness) { exists p :: p in pids && !live(p) }

  lemma {:induction false} AbandonedRepaired(f: Files, now: nat)
    ensures GivenUp(WriteStatus(ReadStatus(f), Failed, REPAIR, now))
  {
    hide Normalize, Stamped, ReadStatus, StateOf;
    StampedFields(ReadStatus(f), Failed, REPAIR, now);
  }
}
