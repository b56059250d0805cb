/**
  The address allocator of the bridge network 10.88.0.0/24: hosts are numbered 1 to 254 and the
  gateway is host 1. The state file maps container identifiers to hosts.
 */
module Network {
  import opened Wrappers
  import LockedFile

  const GATEWAY := 1
  const LAST_HOST := 254
  const CAPACITY := 253

  type Allocations = map<string, int>

  predicate Assignable(host: int) { 1 <= host <= LAST_HOST && host != GATEWAY }

  /** Distinct containers hold distinct hosts, none of them the gateway. */
  predicate Good(a: Allocations) {
    (forall id :: id in a ==> Assignable(a[id])) &&
    forall x, y :: x in a && y in a && x != y ==> a[x] != a[y]
  }

  predicate Free(a: Allocations, host: int) { Assignable(host) && forall id :: id in a ==> a[id] != host }

  ghost predicate LeastFree(a: Allocations, host: int) {
    Free(a, host) && forall h :: h < host ==> !Free(a, h)
  }

  /** The first free host from `from` on, in the order of SUBNET.hosts(). */
  function FirstFree(a: Allocations, from: int): (r: Option<int>)
    ensures r.Some? ==> from <= r.value && Free(a, r.value) && forall h :: from <= h < r.value ==> !Free(a, h)
    ensures r.None? ==> forall h :: from <= h ==> !Free(a, h)
    decreases LAST_HOST + 1 - from
  {
    if from > LAST_HOST then None
    else if Free(a, from) then Some(from)
    else FirstFree(a, from + 1)
  }

  datatype NetOp = Allocate(id: string) | Release(id: string)

  /** allocate_ip and release_ip under the network lock; no host is the RuntimeError of allocate_ip. */
  function Apply(a: Allocations, op: NetOp): LockedFile.Outcome<Allocations, Option<int>> {
    match op
    case Allocate(id) =>
      if id in a then LockedFile.Keep(Some(a[id]))
      else
        (match FirstFree(a, 1)
         case None => LockedFile.Keep(None)
         case Some(host) => LockedFile.Write(a[id := host], Some(host)))
    case Release(id) => if id in a then LockedFile.Write(a - {id}, None) else LockedFile.Keep(None)
  }

  function After(a: Allocations, op: NetOp): Allocations {
    match Apply(a, op) case Write(next, _) => next case Keep(_) => a
  }

  lemma ApplyGood(a: Allocations, op: NetOp)
    requires Good(a)
    ensures Good(After(a, op))
  {
  }

  // ----- the store

  class NetworkStore {
    var allocations: Allocations

    constructor ()
      ensures allocations == map[]
    {
      allocations := map[];
    }

    /** The address of a container: the one it has, else the least free one, else none. */
    method AllocateIp(id: string) returns (host: Option<int>)
      modifies this
      ensures host == Apply(old(allocations), Allocate(id)).reply
      ensures allocations == After(old(allocations), Allocate(id))
      ensures id in old(allocations) ==> host == Some(old(allocations)[id]) && allocations == old(allocations)
      ensures id !in old(allocations) && host.Some? ==>
                LeastFree(old(allocations), host.value) && allocations == old(allocations)[id := host.value]
      ensures host.None? <==> id !in old(allocations) && forall h :: !Free(old(allocations), h)
    {
      if id in allocations {
        return Some(allocations[id]);
      }
      var used := allocations.Values;
      var candidate := 1;
      while candidate <= LAST_HOST
        invariant 1 <= candidate <= LAST_HOST + 1 && allocations == old(allocations)
        invariant forall h :: h < candidate ==> !Free(allocations, h)
        invariant FirstFree(allocations, candidate) == FirstFree(allocations, 1)
      {
        if candidate == GATEWAY || candidate in used {
          assert !Free(allocations, candidate);
          candidate := candidate + 1;
          continue;
        }
        assert Free(allocations, candidate) by {
          assert forall i :: i in allocations ==> allocations[i] in used;
        }
        allocations := allocations[id := candidate];
        return Some(candidate);
      }
      return None;
    }

    method ReleaseIp(id: string)
      modifies this
      ensures allocations == After(old(allocations), Release(id)) == old(allocations) - {id}
    {
      if id in allocations {
        allocations := allocations - {id};
      }
    }
  }

  // ----- capacity

  function HostSet(n: int): (s: set<int>)
    requires n >= 1
    ensures forall h :: h in s <==> 2 <= h <= n
    ensures |s| == n - 1
  {
    if n == 1 then {} else HostSet(n - 1) + {n}
  }

  /** Containers with distinct hosts are as many as their hosts. */
  lemma {:induction false} CountHosts(a: Allocations)
    requires forall x, y :: x in a && y in a && x != y ==> a[x] != a[y]
    ensures |a.Values| == |a|
  {
    if a != map[] {
      var id :| id in a;
      var b := a - {id};
      CountHosts(b);
      assert a.Keys == b.Keys + {id};
      assert a.Values == b.Values + {a[id]} by {
        forall v | v in a.Values ensures v in b.Values + {a[id]} {
          var x :| x in a && a[x] == v;
          assert x != id ==> x in b && b[x] == v;
        }
      }
      assert a[id] !in b.Values;
    }
  }

  lemma {:induction false} SubsetCount(a: set<int>, b: set<int>)
    requires a <= b
    ensures |a| <= |b| && (|a| == |b| ==> a == b)
  {
    assert b == a + (b - a);
  }

  lemma {:induction false} HostsUpTo(a: Allocations, n: int)
    requires n >= 1 && forall x, y :: x in a && y in a && x != y ==> a[x] != a[y]
    requires forall h :: h in a.Values ==> 2 <= h <= n
    ensures |a| <= n - 1
    ensures |a| == n - 1 <==> forall h :: 2 <= h <= n ==> h in a.Values
  {
    hide HostSet;
    var hosts := HostSet(n);
    CountHosts(a);
    SubsetCount(a.Values, hosts);
    if forall h :: 2 <= h <= n ==> h in a.Values {
      assert a.Values == hosts;
    }
  }

  lemma {:induction false} HostsHeld(a: Allocations, last: int)
    requires Good(a) && last == LAST_HOST
    ensures |a| <= CAPACITY
    ensures |a| == CAPACITY <==> forall h :: !Free(a, h)
  {
    FreeOutside(a);
    HostsUpTo(a, last);
    hide Good, Free;
    if h :| 2 <= h <= last && h !in a.Values {
      assert Free(a, h);
    }
  }

  lemma FreeOutside(a: Allocations)
    ensures forall h :: Free(a, h) <==> Assignable(h) && h !in a.Values
  {
  }

  /** allocate_ip gives the least free host, and fails exactly for a new container when 253 are held. */
  lemma {:induction false} Capacity(a: Allocations, id: string)
    requires Good(a)
    ensures |a| <= 253 && forall id :: id in a ==> 2 <= a[id] <= 254
    ensures Apply(a, Allocate(id)).reply == None <==> id !in a && |a| == 253
    ensures id !in a && |a| < 253 ==> LeastFree(a, Apply(a, Allocate(id)).reply.value)
  {
    HostsHeld(a, LAST_HOST);
    assert forall id :: id in a ==> Assignable(a[id]);
    hide Good;
    assert forall h :: h < 1 ==> !Free(a, h);
  }

  // ----- any number of processes

  const NET_MACHINE: LockedFile.Machine<Allocations, NetOp, Option<int>> :=
    LockedFile.Machine(map[], (a, op) => Apply(a, op))

  type NetEvent = LockedFile.Event<NetOp, Option<int>>

  function Held(log: seq<NetEvent>): Allocations { LockedFile.Replay(NET_MACHINE, log) }

  lemma {:induction false} HeldStep(log: seq<NetEvent>, e: NetEvent)
    ensures Held(log + [e]) == After(Held(log), e.op)
  {
    assert (log + [e])[..|log|] == log;
  }

  lemma {:induction false} HeldGood(log: seq<NetEvent>)
    ensures Good(Held(log))
  {
    if log != [] {
      var n := |log| - 1;
      assert log == log[..n] + [log[n]];
      HeldGood(log[..n]);
      HeldStep(log[..n], log[n]);
      ApplyGood(Held(log[..n]), log[n].op);
    }
  }

  /** Until it is released, a container keeps the address it holds. */
  lemma {:induction false} KeepsAddress(log: seq<NetEvent>, i: nat, j: nat, id: string)
    requires i <= j <= |log| && id in Held(log[..i])
    requires forall k :: i <= k < j ==> log[k].op != Release(id)
    ensures id in Held(log[..j]) && Held(log[..j])[id] == Held(log[..i])[id]
    decreases j - i
  {
    if i < j {
      KeepsAddress(log, i, j - 1, id);
      assert log[..j] == log[..j - 1] + [log[j - 1]];
      HeldStep(log[..j - 1], log[j - 1]);
    }
  }

  lemma {:induction false} SameAddress(log: seq<NetEvent>, i: nat, j: nat, id: string)
    requires LockedFile.Faithful(NET_MACHINE, log)
    requires i < j < |log| && log[i].op == Allocate(id) && log[j].op == Allocate(id) && log[i].reply.Some?
    requires forall k :: i <= k < j ==> log[k].op != Release(id)
    ensures log[j].reply == log[i].reply
  {
    hide FirstFree, Free;
    assert log[..i + 1] == log[..i] + [log[i]];
    HeldStep(log[..i], log[i]);
    assert log[i].reply == Apply(Held(log[..i]), log[i].op).reply;
    assert Held(log[..i + 1])[id] == log[i].reply.value;
    KeepsAddress(log, i + 1, j, id);
    assert log[j].reply == Apply(Held(log[..j]), log[j].op).reply;
  }

  /**
    Any interleaving of allocate_ip and release_ip calls, with crashes: the persisted map is sound,
    replies are those of the calls applied in lock order, and two calls that gave a container an
    address with no release of it between them gave the same one.
   */
  lemma {:induction false} AllocatorSafe(actions: seq<LockedFile.Action<NetOp>>)
    ensures var w := LockedFile.Run(NET_MACHINE, actions);
            LockedFile.Contents(NET_MACHINE, w) == Held(w.log) && Good(Held(w.log)) &&
            LockedFile.Faithful(NET_MACHINE, w.log)
    ensures var log := LockedFile.Run(NET_MACHINE, actions).log;
            forall i, j, id :: AllocatedTwice(log, i, j, id) ==> log[j].reply == log[i].reply
  {
    hide LockedFile.Run, Good, Held, LockedFile.Faithful;
    LockedFile.Linearizable(NET_MACHINE, actions);
    var log := LockedFile.Run(NET_MACHINE, actions).log;
    HeldGood(log);
    HeldIs(log);
    forall i, j, id | AllocatedTwice(log, i, j, id) ensures log[j].reply == log[i].reply {
      SameAddress(log, i, j, id);
    }
  }

  lemma HeldIs(log: seq<NetEvent>)
    ensures Held(log) == LockedFile.Replay(NET_MACHINE, log)
  {
  }

  /** Two successful allocate calls for one container, with no release of it from the one to the other. */
  predicate AllocatedTwice(log: seq<NetEvent>, i: int, j: int, id: string) {
    0 <= i < j < |log| && log[i].op == Allocate(id) && log[j].op == Allocate(id) && log[i].reply.Some? &&
    forall k :: i <= k < j ==> log[k].op != Release(id)
  }

  /**
    In any run of the allocator, a call of allocate_ip made while nobody holds the lock can return: a
    container keeps the address it holds, a new one is given the least free host and the file records
    it, and nothing is written when 253 are held.
   */
  lemma {:induction false} AllocateReturns(actions: seq<LockedFile.Action<NetOp>>, pid: nat, id: string)
    requires LockedFile.MayCall(LockedFile.Run(NET_MACHINE, actions), pid)
    ensures var w := LockedFile.Run(NET_MACHINE, actions);
            var v := LockedFile.Run(NET_MACHINE, actions + LockedFile.CallSteps(pid, Allocate(id)));
            var a := LockedFile.Contents(NET_MACHINE, w);
            var phase := LockedFile.PhaseOf(v, pid);
            && v.lock == None && phase.Returned? && phase.op == Allocate(id) && |v.log| == |w.log| + 1
            && if id in a then v.file == w.file && phase.reply == Some(a[id])
               else if |a| == 253 then v.file == w.file && phase.reply == None
               else
                 phase.reply.Some? && LeastFree(a, phase.reply.value) &&
                 v.file == Some(LockedFile.Whole(a[id := phase.reply.value]))
  {
    var a := LockedFile.Contents(NET_MACHINE, LockedFile.Run(NET_MACHINE, actions));
    hide LockedFile.Run, LockedFile.CallSteps, LockedFile.PhaseOf, LockedFile.Contents, FirstFree, Free, Good, Held;
    LockedFile.CallReturns(NET_MACHINE, actions, pid, Allocate(id));
    AllocatorSafe(actions);
    Capacity(a, id);
  }

  /** The same for release_ip: the file no longer names the container. */
  lemma {:induction false} ReleaseReturns(actions: seq<LockedFile.Action<NetOp>>, pid: nat, id: string)
    requires LockedFile.MayCall(LockedFile.Run(NET_MACHINE, actions), pid)
    ensures var w := LockedFile.Run(NET_MACHINE, actions);
            var v := LockedFile.Run(NET_MACHINE, actions + LockedFile.CallSteps(pid, Release(id)));
            var a := LockedFile.Contents(NET_MACHINE, w);
            && v.lock == None && LockedFile.PhaseOf(v, pid).Returned? && |v.log| == |w.log| + 1
            && v.file == if id in a then Some(LockedFile.Whole(a - {id})) else w.file
  {
    hide LockedFile.Run, LockedFile.CallSteps, LockedFile.PhaseOf, LockedFile.Contents;
    LockedFile.CallReturns(NET_MACHINE, actions, pid, Release(id));
  }
}
