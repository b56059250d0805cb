/**
  Mounts as the kernel keeps them: every mount is attached at a place of an earlier one, and a path
  walk crosses into the mount on top of each place it comes to. A walk ends in the mount whose
  target was mounted last among the targets that enclose the path.
 */
module MountTable {
  import opened Wrappers
  import opened Paths

  type Place = seq<string>

  /** A place inside a mount; mount 0 is the root, mount k the k-th entry of the table. */
  datatype Location = At(mount: nat, place: Place)

  type Table = seq<Location>

  /** The entry attached at a location; later mounts are attached to earlier ones only. */
  function MountedOn(table: Table, loc: Location, from: nat): (r: Option<nat>)
    ensures r.Some? ==> from <= r.value < |table| && table[r.value] == loc
    ensures r.Some? ==> forall k :: from <= k < r.value ==> table[k] != loc
    ensures r.None? ==> forall k :: from <= k < |table| ==> table[k] != loc
    decreases |table| - from
  {
    if from >= |table| then None else if table[from] == loc then Some(from) else MountedOn(table, loc, from + 1)
  }

  /** The location on top of a location. */
  function Settle(table: Table, loc: Location): (r: Location)
    requires loc.mount <= |table|
    ensures r.mount <= |table| && MountedOn(table, r, r.mount).None?
    decreases |table| - loc.mount
  {
    match MountedOn(table, loc, loc.mount)
    case None => loc
    case Some(k) => Settle(table, At(k + 1, []))
  }

  /** Down from the root along a resolved path. */
  function Look(table: Table, path: Place): (r: Location)
    ensures r.mount <= |table| && MountedOn(table, r, r.mount).None?
  {
    if path == [] then Settle(table, At(0, []))
    else
      var at := Look(table, path[..|path| - 1]);
      Settle(table, At(at.mount, at.place + [path[|path| - 1]]))
  }

  // ----- walks that climb

  /** Out of the mounts whose root this is. */
  function Base(table: Table, loc: Location): (r: Location)
    ensures loc.mount <= |table| ==> r.mount <= |table|
    decreases loc.mount
  {
    if loc.place == [] && 0 < loc.mount <= |table| && table[loc.mount - 1].mount < loc.mount then
      Base(table, table[loc.mount - 1])
    else loc
  }

  function Up(table: Table, loc: Location): (r: Location)
    requires loc.mount <= |table|
    ensures r.mount <= |table|
  {
    var b := Base(table, loc);
    if b.place == [] then loc else Settle(table, At(b.mount, b.place[..|b.place| - 1]))
  }

  /** The walk of the kernel along the components of a path. */
  function Trace(table: Table, cs: seq<string>): (r: Location)
    ensures r.mount <= |table|
  {
    if cs == [] then Settle(table, At(0, []))
    else
      var at, c := Trace(table, cs[..|cs| - 1]), cs[|cs| - 1];
      if Silent(c) then at
      else if c == ".." then Up(table, at)
      else Settle(table, At(at.mount, at.place + [c]))
  }

  predicate Grown(table: Table) { forall k :: 0 <= k < |table| ==> table[k].mount <= k }

  lemma {:induction false} BaseSettle(table: Table, loc: Location)
    requires Grown(table) && loc.mount <= |table|
    ensures Base(table, Settle(table, loc)) == Base(table, loc)
    decreases |table| - loc.mount
  {
    var on := MountedOn(table, loc, loc.mount);
    if on.Some? {
      BaseSettle(table, At(on.value + 1, []));
    }
  }

  lemma {:induction false} UpOne(table: Table, path: Place)
    requires Grown(table)
    ensures Up(table, Look(table, path)) == Look(table, if path == [] then [] else path[..|path| - 1])
  {
    if path == [] {
      BaseSettle(table, At(0, []));
    } else {
      var at := Look(table, path[..|path| - 1]);
      var here := At(at.mount, at.place + [path[|path| - 1]]);
      BaseSettle(table, here);
      assert here.place[..|here.place| - 1] == at.place;
      assert Settle(table, at) == at;
    }
  }

  /** A walk ends where the lexically resolved path leads. */
  lemma {:induction false} TraceResolves(table: Table, cs: seq<string>)
    requires Grown(table)
    ensures Trace(table, cs) == Look(table, Walk([], cs))
  {
    if cs != [] {
      var at, c := Walk([], cs[..|cs| - 1]), cs[|cs| - 1];
      TraceResolves(table, cs[..|cs| - 1]);
      UpOne(table, at);
      if !Silent(c) && c != ".." {
        assert (at + [c])[..|at|] == at;
      }
    }
  }

  // ----- mounting in sequence

  /** The table after mounting on the targets one after the other. */
  function TableOf(targets: seq<Place>): (t: Table)
    ensures |t| == |targets|
    ensures Grown(t)
  {
    if targets == [] then []
    else
      var before := TableOf(targets[..|targets| - 1]);
      before + [Look(before, targets[|targets| - 1])]
  }

  /** The number of the last target that encloses the path, 0 when none does. */
  function Owner(targets: seq<Place>, path: Place): (k: nat)
    ensures k <= |targets| && (k > 0 ==> targets[k - 1] <= path)
    ensures forall j :: k <= j < |targets| ==> !(targets[j] <= path)
  {
    if targets == [] then 0
    else if targets[|targets| - 1] <= path then |targets|
    else Owner(targets[..|targets| - 1], path)
  }

  /** Where the last enclosing target leads. */
  function Owned(targets: seq<Place>, path: Place): Location {
    var k := Owner(targets, path);
    At(k, if k == 0 then path else path[|targets[k - 1]|..])
  }

  lemma {:induction false} MountedMore(table: Table, a: Location, loc: Location, from: nat)
    requires from <= |table|
    ensures MountedOn(table + [a], loc, from) ==
            if MountedOn(table, loc, from).Some? then MountedOn(table, loc, from)
            else if loc == a then Some(|table|)
            else None
    decreases |table| - from
  {
    var more := table + [a];
    if from < |table| {
      assert more[from] == table[from];
      MountedMore(table, a, loc, from + 1);
    } else {
      assert more[|table|] == a && MountedOn(more, loc, |table| + 1) == None;
    }
  }

  lemma {:induction false} SettleMore(table: Table, a: Location, loc: Location)
    requires loc.mount <= |table| && a.mount <= |table|
    ensures Settle(table + [a], loc) == if Settle(table, loc) == a then At(|table| + 1, []) else Settle(table, loc)
    decreases |table| - loc.mount
  {
    hide MountedOn;
    var on := MountedOn(table, loc, loc.mount);
    MountedMore(table, a, loc, loc.mount);
    if on.Some? {
      SettleMore(table, a, At(on.value + 1, []));
    } else if loc == a {
      SettleInside(table, a, At(|table| + 1, []));
    }
  }

  /** Different paths lead to different locations. */
  lemma {:induction false} OwnedInjective(targets: seq<Place>, p: Place, q: Place)
    requires Owned(targets, p) == Owned(targets, q)
    ensures p == q
  {
    var k := Owner(targets, p);
    if k > 0 {
      var t := targets[k - 1];
      assert p == t + p[|t|..] && q == t + q[|t|..];
    }
  }

  /** The walk ends in the mount of the last enclosing target, at the rest of the path. */
  lemma {:induction false} LastEnclosingWins(targets: seq<Place>, path: Place)
    ensures Look(TableOf(targets), path) == Owned(targets, path)
    decreases |targets|, |path|
  {
    if targets == [] {
      Unmounted(path);
    } else {
      var n := |targets| - 1;
      var before, target := targets[..n], targets[n];
      var a := Look(TableOf(before), target);
      LastEnclosingWins(before, path);
      LastEnclosingWins(before, target);
      if Look(TableOf(before), path) == a {
        OwnedInjective(before, path, target);
      }
      OwnerOne(targets, path);
      if path == [] {
        SettleMore(TableOf(before), a, At(0, []));
      } else {
        LastEnclosingWins(targets, path[..|path| - 1]);
        if target <= path[..|path| - 1] {
          DownInside(targets, path);
        } else {
          LastEnclosingWins(before, path[..|path| - 1]);
          DownOutside(targets, path);
        }
      }
    }
  }

  lemma {:induction false} Unmounted(path: Place)
    ensures Look([], path) == At(0, path)
  {
    hide Settle;
    SettleBare(path);
    if path != [] {
      Unmounted(path[..|path| - 1]);
      assert path == path[..|path| - 1] + [path[|path| - 1]];
    }
  }

  lemma {:induction false} SettleBare(place: Place)
    ensures Settle([], At(0, place)) == At(0, place)
  {
  }

  lemma OwnerOne(targets: seq<Place>, path: Place)
    requires targets != []
    ensures var n := |targets| - 1;
            Owned(targets, path) ==
            if targets[n] <= path then At(n + 1, path[|targets[n]|..]) else Owned(targets[..n], path)
  {
  }

  lemma LookOne(table: Table, path: Place)
    requires path != []
    ensures var at := Look(table, path[..|path| - 1]);
            Look(table, path) == Settle(table, At(at.mount, at.place + [path[|path| - 1]]))
  {
  }

  /** One component further down, inside the last mount. */
  lemma {:induction false} DownInside(targets: seq<Place>, path: Place)
    requires targets != [] && path != [] && targets[|targets| - 1] <= path[..|path| - 1]
    requires Look(TableOf(targets), path[..|path| - 1]) == Owned(targets, path[..|path| - 1])
    ensures Look(TableOf(targets), path) == Owned(targets, path)
  {
    var n, up, x := |targets| - 1, path[..|path| - 1], path[|path| - 1];
    var target := targets[n];
    var table, a := TableOf(targets[..n]), Look(TableOf(targets[..n]), target);
    assert TableOf(targets) == table + [a];
    hide Settle, Owner, MountedOn, Look, TableOf, Owned;
    OwnerOne(targets, up);
    OwnerOne(targets, path);
    LookOne(table + [a], path);
    assert path[|target|..] == up[|target|..] + [x];
    SettleInside(table, a, At(n + 1, up[|target|..] + [x]));
  }

  /** One component further down, not inside the last mount. */
  lemma {:induction false} DownOutside(targets: seq<Place>, path: Place)
    requires targets != [] && path != [] && !(targets[|targets| - 1] <= path[..|path| - 1])
    requires Look(TableOf(targets), path[..|path| - 1]) == Owned(targets, path[..|path| - 1])
    requires var before := targets[..|targets| - 1]; var table := TableOf(before);
             && Look(table, path[..|path| - 1]) == Owned(before, path[..|path| - 1])
             && Look(table, path) == Owned(before, path)
             && (Look(table, path) == Look(table, targets[|targets| - 1]) ==> path == targets[|targets| - 1])
    ensures Look(TableOf(targets), path) == Owned(targets, path)
  {
    var n, up, x := |targets| - 1, path[..|path| - 1], path[|path| - 1];
    var before, target := targets[..n], targets[n];
    var table, a := TableOf(before), Look(TableOf(before), target);
    assert TableOf(targets) == table + [a];
    hide Settle, Owner, MountedOn, Look, TableOf, Owned;
    var at := Look(table, up);
    OwnerOne(targets, up);
    OwnerOne(targets, path);
    LookOne(table + [a], path);
    LookOne(table, path);
    SettleMore(table, a, At(at.mount, at.place + [x]));
    assert target <= path ==> target == path;
    assert target == path ==> path[|target|..] == [];
  }

  /** Nothing is attached inside the last mount. */
  lemma SettleInside(table: Table, a: Location, loc: Location)
    requires loc.mount == |table| + 1
    ensures Settle(table + [a], loc) == loc
  {
  }
}
