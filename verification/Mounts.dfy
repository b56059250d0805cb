/**
  The volumes of a container: mounted in the order of a std::map, which for normalised destinations
  makes the longest matching destination win.
 */
module Mounts {
  import opened Text
  import opened Paths
  import opened FileTree
  import opened MountTable

  // ----- the order of std::map

  /** Lexicographic order; the strings that reach the map are ASCII, so bytes and characters agree. */
  predicate Less(a: string, b: string) {
    b != "" && (a == "" || a[0] < b[0] || (a[0] == b[0] && Less(a[1..], b[1..])))
  }

  lemma {:induction false} LessTotal(a: string, b: string)
    ensures a == b || Less(a, b) || Less(b, a)
    ensures !(Less(a, b) && (a == b || Less(b, a)))
  {
    if a != "" && b != "" && a[0] == b[0] {
      LessTotal(a[1..], b[1..]);
      assert a == [a[0]] + a[1..] && b == [b[0]] + b[1..];
    }
  }

  lemma {:induction false} LessTransitive(a: string, b: string, c: string)
    requires Less(a, b) && Less(b, c)
    ensures Less(a, c)
  {
    if a != "" && a[0] == b[0] && b[0] == c[0] {
      LessTransitive(a[1..], b[1..], c[1..]);
    }
  }

  lemma {:induction false} PrefixLess(a: string, b: string)
    requires a <= b
    ensures a == b || Less(a, b)
  {
    if a != "" {
      assert a[0] == b[0] && a[1..] <= b[1..];
      PrefixLess(a[1..], b[1..]);
      assert a == [a[0]] + a[1..] && b == [b[0]] + b[1..];
    }
  }

  predicate Least(d: string, keys: set<string>) { d in keys && forall e :: e in keys ==> e == d || Less(d, e) }

  lemma {:induction false} HasLeast(keys: set<string>)
    requires keys != {}
    ensures exists d :: Least(d, keys)
  {
    var x :| x in keys;
    var rest := keys - {x};
    if rest == {} {
      assert forall e :: e in keys && e != x ==> e in rest;
      assert Least(x, keys);
    } else {
      HasLeast(rest);
      var d :| Least(d, rest);
      LessTotal(x, d);
      if Less(d, x) {
        assert Least(d, keys);
      } else {
        forall e | e in keys ensures e == x || Less(x, e) {
          if e != x && e != d {
            LessTransitive(x, d, e);
          }
        }
        assert Least(x, keys);
      }
    }
  }

  predicate Ascending(order: seq<string>) { forall i, j :: 0 <= i < j < |order| ==> Less(order[i], order[j]) }

  // ----- setupBindMounts

  function Targets(rootfs: string, order: seq<string>): (ts: seq<Place>)
    ensures |ts| == |order| && forall k :: 0 <= k < |order| ==> ts[k] == Resolve(rootfs + order[k])
  {
    if order == [] then []
    else Targets(rootfs, order[..|order| - 1]) + [Resolve(rootfs + order[|order| - 1])]
  }

  function SourcesOf(bindMounts: map<string, string>, order: seq<string>): (ss: seq<string>)
    requires forall d :: d in order ==> d in bindMounts
    ensures |ss| == |order| && forall k :: 0 <= k < |order| ==> ss[k] == bindMounts[order[k]]
  {
    if order == [] then []
    else SourcesOf(bindMounts, order[..|order| - 1]) + [bindMounts[order[|order| - 1]]]
  }

  lemma NoneYet(bindMounts: map<string, string>, rootfs: string)
    ensures Targets(rootfs, []) == [] && SourcesOf(bindMounts, []) == [] && Progress(bindMounts, [], bindMounts.Keys)
  {
  }

  lemma {:induction false} OneMore(bindMounts: map<string, string>, rootfs: string, order: seq<string>, d: string)
    requires d in bindMounts && forall e :: e in order ==> e in bindMounts
    ensures Targets(rootfs, order + [d]) == Targets(rootfs, order) + [Resolve(rootfs + d)]
    ensures SourcesOf(bindMounts, order + [d]) == SourcesOf(bindMounts, order) + [bindMounts[d]]
  {
    hide Resolve;
    var more := order + [d];
    assert more[..|more| - 1] == order && forall k :: 0 <= k < |order| ==> more[k] == order[k];
  }

  /** The destinations mounted so far are the first ones, in order, and the check accepted them. */
  ghost predicate Progress(bindMounts: map<string, string>, mounted: seq<string>, rest: set<string>) {
    && rest <= bindMounts.Keys && Ascending(mounted)
    && (forall d :: d in bindMounts <==> d in rest || d in mounted)
    && (forall d, e :: d in mounted && e in rest ==> Less(d, e))
    && forall d :: d in mounted ==> IsSafeContainerPath(d)
  }

  lemma {:induction false} ProgressStep(
    bindMounts: map<string, string>, mounted: seq<string>, rest: set<string>, d: string)
    requires Progress(bindMounts, mounted, rest) && Least(d, rest) && IsSafeContainerPath(d)
    ensures Progress(bindMounts, mounted + [d], rest - {d})
  {
    hide Less, IsSafeContainerPath;
    assert forall k :: 0 <= k < |mounted| ==> (mounted + [d])[k] in mounted;
  }

  // ----- what the paths of a namespace show

  /** `roots` lists what the root of each mount shows on disk, mount 0 first. */
  function ViewOf(table: Table, roots: seq<Place>, path: Place): Place
    requires |roots| == |table| + 1
  {
    var at := Look(table, path);
    roots[at.mount] + at.place
  }

  function ViewIn(table: Table, roots: seq<Place>): View
    requires |roots| == |table| + 1
  {
    (path: Place) => ViewOf(table, roots, path)
  }

  /** A mount changes what is shown at and below its target, and nothing else. */
  lemma {:induction false} ViewBound(targets: seq<Place>, roots: seq<Place>, target: Place, root: Place, path: Place)
    requires |roots| == |targets| + 1
    ensures ViewOf(TableOf(targets + [target]), roots + [root], path) ==
            if target <= path then root + path[|target|..] else ViewOf(TableOf(targets), roots, path)
  {
    hide Look, TableOf, Owned;
    var more := targets + [target];
    assert more[..|more| - 1] == targets && more[|more| - 1] == target;
    LastEnclosingWins(more, path);
    LastEnclosingWins(targets, path);
    OwnerOne(more, path);
  }

  lemma {:induction false} FaithfulBound(
    targets: seq<Place>, roots: seq<Place>, target: Place, root: Place, dirs: set<Place>, files: set<Place>)
    requires |roots| == |targets| + 1 && Tree(dirs, files)
    requires Faithful(ViewIn(TableOf(targets), roots), dirs, files)
    requires ViewOf(TableOf(targets), roots, target) in dirs && root in dirs
    ensures Faithful(ViewIn(TableOf(targets + [target]), roots + [root]), dirs, files)
  {
    var before, after := ViewIn(TableOf(targets), roots), ViewIn(TableOf(targets + [target]), roots + [root]);
    forall p: Place ensures after(p) == Bound(before, target, root, p) {
      ViewBound(targets, roots, target, root, p);
    }
    hide ViewIn, ViewOf, TableOf, Tree, Faithful;
    FaithfulAfter(before, after, target, root, dirs, files);
  }

  function Bound(before: View, target: Place, root: Place, p: Place): Place {
    if target <= p then root + p[|target|..] else before(p)
  }

  lemma {:induction false} FaithfulAfter(
    before: View, after: View, target: Place, root: Place, dirs: set<Place>, files: set<Place>)
    requires Tree(dirs, files) && Faithful(before, dirs, files) && before(target) in dirs && root in dirs
    requires forall p: Place :: after(p) == Bound(before, target, root, p)
    ensures Faithful(after, dirs, files)
  {
    forall p: Place | p != []
      ensures after(p) in dirs || after(p) == after(Parent(p)) + [p[|p| - 1]]
      ensures after(p) in dirs || after(p) in files ==> after(Parent(p)) in dirs
    {
      hide Tree, Faithful;
      if target <= Parent(p) {
        BoundBelow(before, target, root, p);
        StepInTree(dirs, files, after(Parent(p)), p[|p| - 1]);
      } else if target <= p {
        BoundAt(before, target, root, p);
        ParentShown(before, dirs, files, target);
      } else {
        ParentShown(before, dirs, files, p);
      }
    }
    BoundRoot(before, target, root, dirs, files);
  }

  lemma {:induction false} BoundBelow(before: View, target: Place, root: Place, p: Place)
    requires p != [] && target <= Parent(p)
    ensures Bound(before, target, root, p) == Bound(before, target, root, Parent(p)) + [p[|p| - 1]]
  {
    assert p[|target|..] == Parent(p)[|target|..] + [p[|p| - 1]];
  }

  lemma {:induction false} BoundAt(before: View, target: Place, root: Place, p: Place)
    requires p != [] && target <= p && !(target <= Parent(p))
    ensures target == p && Bound(before, target, root, p) == root
    ensures Bound(before, target, root, Parent(p)) == before(Parent(p))
  {
    assert target == p && p[|p|..] == [];
  }

  lemma {:induction false} BoundRoot(before: View, target: Place, root: Place, dirs: set<Place>, files: set<Place>)
    requires Faithful(before, dirs, files) && root in dirs
    ensures Bound(before, target, root, []) in dirs
  {
    assert target <= [] ==> root + [] == root;
  }

  lemma {:induction false} StepInTree(dirs: set<Place>, files: set<Place>, at: Place, x: string)
    requires Tree(dirs, files)
    ensures at + [x] in dirs || at + [x] in files ==> at in dirs
  {
    assert Parent(at + [x]) == at;
  }

  /** The places made for the mounts in this order, over the mounts made before. */
  function Gained(before: seq<Place>, roots: seq<Place>, rootfs: string, order: seq<string>): set<Place>
    requires |roots| >= |before| + |order| + 1
  {
    if order == [] then {}
    else
      var n := |order| - 1;
      var view := ViewIn(TableOf(before + Targets(rootfs, order[..n])), roots[..|before| + n + 1]);
      Gained(before, roots, rootfs, order[..n]) + Passed(view, Names(rootfs + order[n]))
  }

  /** The root of mount `k` is what its source showed when it was mounted. */
  predicate RootShown(targets: seq<Place>, roots: seq<Place>, sources: seq<string>, k: nat)
    requires |roots| == |targets| + 1 && |sources| == |targets| && 0 < k <= |targets|
  {
    roots[k] == ViewOf(TableOf(targets[..k - 1]), roots[..k], Resolve(sources[k - 1]))
  }

  ghost predicate RootsShown(targets: seq<Place>, roots: seq<Place>, sources: seq<string>) {
    |roots| == |targets| + 1 && |sources| == |targets| && roots[0] == [] &&
    forall k :: 0 < k <= |targets| ==> RootShown(targets, roots, sources, k)
  }

  lemma {:induction false} RootsMore(
    targets: seq<Place>, roots: seq<Place>, sources: seq<string>, target: Place, root: Place, source: string)
    requires RootsShown(targets, roots, sources) && root == ViewOf(TableOf(targets), roots, Resolve(source))
    ensures RootsShown(targets + [target], roots + [root], sources + [source])
  {
    hide Resolve, TableOf, ViewOf;
    var ts, rs, ss := targets + [target], roots + [root], sources + [source];
    forall k | 0 < k <= |ts| ensures RootShown(ts, rs, ss, k) {
      assert ts[..k - 1] == targets[..k - 1] && rs[..k] == roots[..k];
      if k <= |targets| {
        assert RootShown(targets, roots, sources, k);
      } else {
        assert targets[..k - 1] == targets && roots[..k] == roots;
      }
    }
  }

  /** The mount namespace of the container's first process, over the file system. */
  class Namespace {
    const fs: FileSystem
    var table: Table
    var sources: seq<string>           // what each entry of the table was mounted from
    var roots: seq<Place>              // the root file system, then what each entry shows
    ghost var targets: seq<Place>      // where each entry was mounted, as a resolved path

    ghost predicate Valid()
      reads this, fs
    {
      table == TableOf(targets) && RootsShown(targets, roots, sources) &&
      fs.Shows(ViewIn(table, roots))
    }

    constructor (fs: FileSystem)
      requires fs.Valid()
      ensures Valid() && targets == [] && this.fs == fs
    {
      this.fs, table, sources, roots, targets := fs, [], [], [[]], [];
      FirstView(fs.dirs, fs.files);
    }

    /** The path leads to a directory. */
    predicate IsDir(path: string)
      requires |roots| == |table| + 1
      reads this, fs
    {
      fs.Lookup(ViewIn(table, roots), Names(path)).1 == Done
    }

    /** It does exactly when every place on the way shows a directory. */
    lemma {:induction false} IsDirExactly(path: string)
      requires Valid()
      ensures IsDir(path) <==> Passed(ViewIn(table, roots), Names(path)) <= fs.dirs
    {
      hide Look, Tree, Names, Passed;
      fs.LookupExactly(ViewIn(table, roots), Names(path));
    }

    lemma {:induction false} DirShown(path: string)
      requires Valid()
      ensures IsDir(path) ==> ViewOf(table, roots, Resolve(path)) in fs.dirs
    {
      hide Look, TableOf, Tree, Faithful, Names, Resolve;
      fs.LookupDir(ViewIn(table, roots), Names(path));
      NamesResolve(path);
    }

    /** mount(2) with MS_BIND: it fails when either path is no directory, or for reasons of the kernel's own. */
    method Bind(source: string, path: string, refused: bool) returns (ok: bool)
      requires Valid()
      modifies this
      ensures Valid() && (ok <==> !refused && old(IsDir(source)) && old(IsDir(path)))
      ensures ok ==> targets == old(targets) + [Resolve(path)] && sources == old(sources) + [source]
      ensures ok ==> roots == old(roots) + [ViewOf(old(table), old(roots), Resolve(source))]
      ensures !ok ==> targets == old(targets) && sources == old(sources) && roots == old(roots)
    {
      hide Look, Tree, Faithful, Names, Resolve, ViewIn, ViewOf, TableOf;
      ok := !refused && IsDir(source) && IsDir(path);
      if ok {
        TraceResolves(table, Components(path));
        DirShown(source);
        DirShown(path);
        var root := ViewOf(table, roots, Resolve(source));
        FaithfulBound(targets, roots, Resolve(path), root, fs.dirs, fs.files);
        RootsMore(targets, roots, sources, Resolve(path), root, source);
        TableMore(targets, Resolve(path));
        ResolveMeans(path);
        targets := targets + [Resolve(path)];
        table, sources, roots := table + [Trace(table, Components(path))], sources + [source], roots + [root];
      }
    }

    /** What refuses a destination: the check, a file on the way, or the mount. */
    predicate Refuses(rootfs: string, d: string, source: string, refused: bool)
      requires |roots| == |table| + 1
      reads this, fs
    {
      !IsSafeContainerPath(d) || !Clear(ViewIn(table, roots), fs.files, Names(rootfs + d)) ||
      refused || !IsDir(source) || !IsDir(rootfs + d)
    }

    /** One destination: its directory, then the mount. */
    method MountOne(rootfs: string, d: string, source: string, refused: bool) returns (ok: bool)
      requires Valid() && (rootfs == "" || rootfs[0] == '/')
      modifies this, fs`dirs
      ensures Valid() && fs.files == old(fs.files) && old(fs.dirs) <= fs.dirs
      ensures ok ==> IsSafeContainerPath(d)
      ensures ok ==> targets == old(targets) + [Resolve(rootfs + d)] && sources == old(sources) + [source]
      ensures ok ==> roots == old(roots) + [ViewOf(old(table), old(roots), Resolve(source))]
      ensures ok ==> fs.dirs == old(fs.dirs) + (Passed(ViewIn(old(table), old(roots)), Names(rootfs + d)) - fs.files)
      ensures !ok ==> targets == old(targets) && sources == old(sources) && roots == old(roots)
      ensures !ok ==> Refuses(rootfs, d, source, refused)
    {
      hide Look, Tree, Faithful, Names, Resolve, ViewIn, ViewOf, TableOf, Clear, Passed, IsSafeContainerPath;
      if !IsSafeContainerPath(d) {
        return false;
      }
      AbsoluteTarget(rootfs, d);
      var e;
      ok, e := fs.MkdirRecursive(ViewIn(table, roots), rootfs + d);
      if !ok {
        return false;
      }
      ok := Bind(source, rootfs + d, refused);
    }

    /**
      The mounts are made in ascending order of destination, up to the first that is refused;
      `mounted` lists those made. The directories made are those on the ways of the destinations.
     */
    method SetupBindMounts(bindMounts: map<string, string>, rootfs: string, refused: string -> bool)
      returns (ok: bool, mounted: seq<string>)
      requires Valid() && (rootfs == "" || rootfs[0] == '/')
      modifies this, fs`dirs
      ensures Valid() && fs.files == old(fs.files) && old(fs.dirs) <= fs.dirs
      ensures Ascending(mounted) && forall d :: d in mounted ==> d in bindMounts && IsSafeContainerPath(d)
      ensures ok ==> forall d :: d in bindMounts ==> d in mounted
      ensures !ok ==> exists d :: StopsBefore(bindMounts, mounted, d) && Refuses(rootfs, d, bindMounts[d], refused(d))
      ensures targets == old(targets) + Targets(rootfs, mounted)
      ensures sources == old(sources) + SourcesOf(bindMounts, mounted)
      ensures |roots| == |old(roots)| + |mounted| && old(roots) <= roots && RootsShown(targets, roots, sources)
      ensures ok ==> fs.dirs == old(fs.dirs) + (Gained(old(targets), roots, rootfs, mounted) - fs.files)
    {
      NoneYet(bindMounts, rootfs);
      hide Less, IsSafeContainerPath, TableOf, Resolve, Targets, SourcesOf, Ascending, Tree, Faithful, Look, ViewOf,
        ViewIn, Clear, Passed, Names, Gained, StopsBefore, RootShown, Progress;
      var rest := bindMounts.Keys;
      mounted := [];
      NoneGained(targets, roots, rootfs);
      while rest != {}
        invariant Valid() && Progress(bindMounts, mounted, rest)
        invariant rest <= bindMounts.Keys && forall d :: d in mounted ==> d in bindMounts
        invariant targets == old(targets) + Targets(rootfs, mounted)
        invariant sources == old(sources) + SourcesOf(bindMounts, mounted)
        invariant |roots| == |old(roots)| + |mounted| && old(roots) <= roots
        invariant fs.files == old(fs.files) && old(fs.dirs) <= fs.dirs
        invariant fs.dirs == old(fs.dirs) + (Gained(old(targets), roots, rootfs, mounted) - fs.files)
      {
        HasLeast(rest);
        var d :| d in rest && Least(d, rest);
        ghost var before := roots;
        var made := MountOne(rootfs, d, bindMounts[d], refused(d));
        if !made {
          ProgressMeans(bindMounts, mounted, rest);
          StopsHere(bindMounts, mounted, rest, d);
          return false, mounted;
        }
        OneMore(bindMounts, rootfs, mounted, d);
        OneGained(old(targets), before, roots, rootfs, mounted, d);
        ProgressStep(bindMounts, mounted, rest, d);
        mounted, rest := mounted + [d], rest - {d};
      }
      ProgressMeans(bindMounts, mounted, rest);
      ok := true;
    }
  }

  lemma {:induction false} ProgressMeans(bindMounts: map<string, string>, mounted: seq<string>, rest: set<string>)
    requires Progress(bindMounts, mounted, rest)
    ensures Ascending(mounted) && forall d :: d in bindMounts <==> d in rest || d in mounted
    ensures forall d, e :: d in mounted && e in rest ==> Less(d, e)
    ensures forall d :: d in mounted ==> IsSafeContainerPath(d)
  {
    hide Ascending, Less, IsSafeContainerPath;
  }

  lemma {:induction false} FirstView(dirs: set<Place>, files: set<Place>)
    requires Tree(dirs, files)
    ensures Faithful(ViewIn([], [[]]), dirs, files)
  {
    hide Look, Tree, Faithful;
    forall p: Place ensures ViewIn([], [[]])(p) == p {
      Unmounted(p);
      assert [] + p == p;
    }
    PlainFaithful(ViewIn([], [[]]), dirs, files);
  }

  lemma {:induction false} TableMore(targets: seq<Place>, target: Place)
    ensures TableOf(targets + [target]) == TableOf(targets) + [Look(TableOf(targets), target)]
  {
    assert (targets + [target])[..|targets|] == targets;
  }

  lemma ResolveMeans(path: string)
    ensures Resolve(path) == Walk([], Components(path))
  {
  }

  lemma {:induction false} AbsoluteTarget(rootfs: string, d: string)
    requires IsSafeContainerPath(d) && (rootfs == "" || rootfs[0] == '/')
    ensures rootfs + d != "" && (rootfs + d)[0] == '/'
  {
    hide Find;
  }

  lemma NoneGained(before: seq<Place>, roots: seq<Place>, rootfs: string)
    requires |roots| >= |before| + 1
    ensures Gained(before, roots, rootfs, []) == {}
  {
  }

  /** Later mounts leave what was gained before them. */
  lemma {:induction false} GainedPrefix(
    before: seq<Place>, roots: seq<Place>, longer: seq<Place>, rootfs: string, order: seq<string>)
    requires |roots| >= |before| + |order| + 1 && roots <= longer
    ensures Gained(before, longer, rootfs, order) == Gained(before, roots, rootfs, order)
    decreases |order|
  {
    hide Passed, ViewIn, TableOf, Names;
    if order != [] {
      var n := |order| - 1;
      GainedPrefix(before, roots, longer, rootfs, order[..n]);
      assert longer[..|before| + n + 1] == roots[..|before| + n + 1];
    }
  }

  lemma {:induction false} OneGained(
    before: seq<Place>, roots: seq<Place>, longer: seq<Place>, rootfs: string, order: seq<string>, d: string)
    requires |roots| == |before| + |order| + 1 && |longer| == |roots| + 1 && roots <= longer
    ensures |TableOf(before + Targets(rootfs, order))| + 1 == |roots|
    ensures Gained(before, longer, rootfs, order + [d]) ==
            Gained(before, roots, rootfs, order) +
            Passed(ViewIn(TableOf(before + Targets(rootfs, order)), roots), Names(rootfs + d))
  {
    hide Passed, Names, TableOf, ViewIn, Targets, Gained;
    var more := order + [d];
    assert more[..|more| - 1] == order && longer[..|roots|] == roots;
    GainedPrefix(before, roots, longer, rootfs, order);
    GainedLast(before, longer, rootfs, more);
  }

  lemma {:induction false} GainedLast(before: seq<Place>, roots: seq<Place>, rootfs: string, order: seq<string>)
    requires |roots| >= |before| + |order| + 1 && order != []
    ensures var n := |order| - 1;
            var view := ViewIn(TableOf(before + Targets(rootfs, order[..n])), roots[..|before| + n + 1]);
            Gained(before, roots, rootfs, order) ==
            Gained(before, roots, rootfs, order[..n]) + Passed(view, Names(rootfs + order[n]))
  {
    hide Passed, Names, TableOf, ViewIn, Targets;
  }

  /** Exactly the destinations before `d` are mounted. */
  predicate StopsBefore(bindMounts: map<string, string>, mounted: seq<string>, d: string) {
    d in bindMounts && (forall e :: e in mounted ==> e in bindMounts && Less(e, d)) &&
    forall e :: e in bindMounts && Less(e, d) ==> e in mounted
  }

  lemma {:induction false} StopsHere(
    bindMounts: map<string, string>, mounted: seq<string>, rest: set<string>, d: string)
    requires forall e :: e in bindMounts <==> e in rest || e in mounted
    requires forall a, b :: a in mounted && b in rest ==> Less(a, b)
    requires Least(d, rest)
    ensures StopsBefore(bindMounts, mounted, d)
  {
    hide Less;
    forall e | e in bindMounts && Less(e, d) ensures e in mounted {
      LessTotal(e, d);
    }
  }

  // ----- which mount a path leads to

  /** No later target encloses an earlier one. */
  predicate Nested(ts: seq<Place>) { forall i, j :: 0 <= i < j < |ts| ==> !(ts[j] <= ts[i]) }

  /** The walk to each target ends in the mount made there. */
  ghost predicate AllVisible(ts: seq<Place>) { forall k :: 0 <= k < |ts| ==> Owner(ts, ts[k]) == k + 1 }

  /** Every mount is seen exactly when no later target encloses an earlier one. */
  lemma {:induction false} VisibleExactly(ts: seq<Place>)
    ensures AllVisible(ts) <==> Nested(ts)
  {
    if Nested(ts) {
      forall k | 0 <= k < |ts| ensures Owner(ts, ts[k]) == k + 1 {
        assert ts[k] <= ts[k];
      }
    }
    if AllVisible(ts) {
      forall i, j | 0 <= i < j < |ts| ensures !(ts[j] <= ts[i]) {
        assert Owner(ts, ts[i]) == i + 1;
      }
    }
  }

  /** The mount that the path leads to is the one of a deepest enclosing target. */
  predicate DeepestWins(ts: seq<Place>, path: Place) {
    forall k :: 0 <= k < |ts| && ts[k] <= path ==> Owner(ts, path) > 0 && |ts[k]| <= |ts[Owner(ts, path) - 1]|
  }

  /** A later target above an earlier one is harmless only if the earlier one is mounted again. */
  predicate Remounted(ts: seq<Place>, i: nat, j: nat)
    requires i < |ts|
  {
    exists l :: j < l < |ts| && ts[l] == ts[i]
  }

  lemma Shorter(a: Place, b: Place, path: Place)
    requires a <= path && b <= path
    ensures |a| < |b| ==> a < b
  {
  }

  predicate CoveredAgain(ts: seq<Place>) {
    forall i, j :: 0 <= i < j < |ts| && ts[j] < ts[i] ==> Remounted(ts, i, j)
  }

  lemma {:induction false} DeepestNeeds(ts: seq<Place>, i: nat, j: nat)
    requires i < j < |ts| && ts[j] < ts[i] && DeepestWins(ts, ts[i])
    ensures Remounted(ts, i, j)
  {
    var o := Owner(ts, ts[i]) - 1;
    assert ts[i] <= ts[i];
    assert ts[o] == ts[i];
  }

  lemma {:induction false} DeepestHolds(ts: seq<Place>, path: Place, k: nat)
    requires CoveredAgain(ts) && k < |ts| && ts[k] <= path
    ensures Owner(ts, path) > 0 && |ts[k]| <= |ts[Owner(ts, path) - 1]|
  {
    var o := Owner(ts, path) - 1;
    Shorter(ts[o], ts[k], path);
  }

  lemma {:induction false} DeepestExactly(ts: seq<Place>)
    ensures (forall path :: DeepestWins(ts, path)) <==>
            forall i, j :: 0 <= i < j < |ts| && ts[j] < ts[i] ==> Remounted(ts, i, j)
  {
    hide Remounted, Owner;
    if forall path :: DeepestWins(ts, path) {
      forall i, j | 0 <= i < j < |ts| && ts[j] < ts[i] ensures Remounted(ts, i, j) {
        DeepestNeeds(ts, i, j);
      }
    }
    if CoveredAgain(ts) {
      forall path, k | 0 <= k < |ts| && ts[k] <= path
        ensures Owner(ts, path) > 0 && |ts[k]| <= |ts[Owner(ts, path) - 1]|
      {
        DeepestHolds(ts, path, k);
      }
    }
  }

  // ----- normalised destinations

  /** Absolute, below the root, and spelled without empty components, "." and "..". */
  predicate Normalised(d: string) {
    var cs := Components(d);
    |cs| > 1 && cs[0] == "" && forall i :: 0 < i < |cs| ==> !Silent(cs[i]) && cs[i] != ".."
  }

  lemma {:induction false} WalkPlain(cs: seq<string>)
    requires forall i :: 0 <= i < |cs| ==> !Silent(cs[i]) && cs[i] != ".."
    ensures Walk([], cs) == cs
  {
    if cs != [] {
      WalkPlain(cs[..|cs| - 1]);
    }
  }

  lemma {:induction false} NormalisedResolve(d: string)
    requires Normalised(d)
    ensures Components(d) == [""] + Resolve(d)
    ensures IsSafeContainerPath(d)
  {
    var cs := Components(d);
    assert cs == [""] + cs[1..];
    WalkConcat([], [""], cs[1..]);
    assert Walk([], [""]) == [] by {
      assert [""][..0] == [];
    }
    WalkPlain(cs[1..]);
    SafeExactly(d);
    CutAt("", "");
    assert "" + "/" + "" == "/" && Components("/") == ["", ""];
    assert cs[1] != ["", ""][1];
  }

  lemma {:induction false} FirstComponent(s: string)
    ensures Components(s)[0] == s[..Cut(s)]
    ensures |Components(s)| == 1 <==> Cut(s) == |s|
    ensures Cut(s) < |s| ==> s == s[..Cut(s)] + "/" + s[Cut(s) + 1..]
    ensures Cut(s) < |s| ==> Components(s)[1..] == Components(s[Cut(s) + 1..])
  {
    var c := Cut(s);
    hide Cut;
    if c < |s| {
      assert s == s[..c] + [s[c]] + s[c + 1..];
      assert Components(s) == [s[..c]] + Components(s[c + 1..]);
    } else {
      assert s[..c] == s;
    }
  }

  /** A path whose components begin another's is a beginning of its text. */
  lemma {:induction false} ComponentsPrefix(a: string, b: string)
    requires Components(a) <= Components(b)
    ensures a <= b
    decreases |a|
  {
    hide Components, Cut;
    FirstComponent(a);
    FirstComponent(b);
    var x, y := Components(a), Components(b);
    assert x[0] == y[0];
    if |x| == 1 {
      assert a == b[..|a|];
    } else {
      var ra, rb := a[Cut(a) + 1..], b[Cut(b) + 1..];
      assert x[1..] <= y[1..];
      ComponentsPrefix(ra, rb);
      assert b == x[0] + "/" + rb && a == x[0] + "/" + ra;
    }
  }

  /** In ascending order, normalised destinations come after the ones that enclose them. */
  lemma {:induction false} SortedIsNested(order: seq<string>)
    requires Ascending(order) && forall k :: 0 <= k < |order| ==> Normalised(order[k])
    ensures Nested(Resolved(order))
  {
    hide Normalised, IsSafeContainerPath, Resolve, Less;
    var ds := Resolved(order);
    forall i, j | 0 <= i < j < |ds| ensures !(ds[j] <= ds[i]) {
      var d, e := order[i], order[j];
      NormalisedResolve(d);
      NormalisedResolve(e);
      if ds[j] <= ds[i] {
        ComponentsPrefix(e, d);
        PrefixLess(e, d);
        LessTotal(d, e);
      }
    }
  }

  lemma {:induction false} PrefixBelow(root: Place, a: Place, b: Place)
    ensures root + a <= root + b <==> a <= b
  {
    assert (root + a)[|root|..] == a && (root + b)[|root|..] == b;
    if root + a <= root + b {
      assert a == (root + b)[|root|..|root + a|];
    }
  }

  /** Earlier mounts are only seen where no later target encloses the path. */
  lemma {:induction false} OwnerSplit(before: seq<Place>, ts: seq<Place>, path: Place)
    ensures Owner(before + ts, path) ==
            if Owner(ts, path) > 0 then |before| + Owner(ts, path) else Owner(before, path)
  {
    if ts == [] {
      assert before + ts == before;
    } else {
      var n := |ts| - 1;
      assert (before + ts)[..|before + ts| - 1] == before + ts[..n];
      OwnerSplit(before, ts[..n], path);
    }
  }

  /** Where the destinations lead below the root filesystem. */
  function Resolved(order: seq<string>): (ds: seq<Place>)
    ensures |ds| == |order| && forall k :: 0 <= k < |order| ==> ds[k] == Resolve(order[k])
  {
    if order == [] then [] else Resolved(order[..|order| - 1]) + [Resolve(order[|order| - 1])]
  }

  /** Seen from the root filesystem, the targets are the destinations. */
  lemma {:induction false} OwnerBelow(rootfs: string, order: seq<string>, below: Place)
    requires forall k :: 0 <= k < |order| ==> IsSafeContainerPath(order[k])
    ensures Owner(Targets(rootfs, order), Resolve(rootfs) + below) == Owner(Resolved(order), below)
  {
    hide IsSafeContainerPath, Resolve;
    if order != [] {
      var last := order[|order| - 1];
      OwnerBelow(rootfs, order[..|order| - 1], below);
      StaysUnder(rootfs, last);
      PrefixBelow(Resolve(rootfs), Resolve(last), below);
    }
  }

  /** Destination `k` encloses the path and is longer than the others that do. */
  predicate LongestMatch(ds: seq<Place>, below: Place, k: nat) {
    k < |ds| && ds[k] <= below && forall l :: 0 <= l < |ds| && ds[l] <= below && l != k ==> |ds[l]| < |ds[k]|
  }

  lemma Comparable(a: Place, b: Place, path: Place)
    requires a <= path && b <= path
    ensures a <= b || |b| < |a|
  {
  }

  lemma {:induction false} OwnerIsLongest(ds: seq<Place>, below: Place)
    requires Nested(ds)
    ensures forall k: nat :: LongestMatch(ds, below, k) <==> Owner(ds, below) == k + 1
  {
    var o := Owner(ds, below) - 1;
    if o >= 0 {
      forall l | 0 <= l < |ds| && ds[l] <= below && l != o ensures |ds[l]| < |ds[o]| {
        Comparable(ds[o], ds[l], below);
      }
    }
  }

  /** The mount that the path leads to, over earlier mounts. */
  lemma {:induction false} FoundIs(before: seq<Place>, ts: seq<Place>, path: Place)
    ensures var found := Look(TableOf(before + ts), path); var o := Owner(ts, path);
            if o > 0 then found == At(|before| + o, path[|ts[o - 1]|..]) else found == Look(TableOf(before), path)
  {
    hide Look, TableOf;
    LastEnclosingWins(before + ts, path);
    LastEnclosingWins(before, path);
    OwnerSplit(before, ts, path);
  }

  /** The mount of the last destination that encloses the path, over the earlier mounts. */
  ghost predicate LeadsBelow(
    before: seq<Place>, ts: seq<Place>, ds: seq<Place>, root: Place, below: Place, o: nat)
  {
    var found := Look(TableOf(before + ts), root + below);
    if 0 < o <= |ds| && |ds[o - 1]| <= |below| then found == At(|before| + o, below[|ds[o - 1]|..])
    else found == Look(TableOf(before), root + below)
  }

  /** The mount that a path below the root filesystem leads to. */
  lemma {:induction false} FoundBelow(before: seq<Place>, rootfs: string, order: seq<string>, below: Place)
    requires forall k :: 0 <= k < |order| ==> IsSafeContainerPath(order[k])
    ensures LeadsBelow(
              before, Targets(rootfs, order), Resolved(order), Resolve(rootfs), below, Owner(Resolved(order), below))
  {
    hide Look, TableOf, IsSafeContainerPath, Resolve, Owner;
    var root, ts, o := Resolve(rootfs), Targets(rootfs, order), Owner(Resolved(order), below);
    OwnerBelow(rootfs, order, below);
    FoundIs(before, ts, root + below);
    if o > 0 {
      StaysUnder(rootfs, order[o - 1]);
      RestBelow(root, Resolve(order[o - 1]), below);
    }
  }

  lemma {:induction false} RestBelow(root: Place, d: Place, below: Place)
    requires d <= below
    ensures (root + below)[|root + d|..] == below[|d|..]
  {
    assert below == d + below[|d|..];
  }

  /**
    Over whatever was mounted before, and whatever order the volumes were declared in: with
    normalised destinations a path below the root filesystem leads into the volume of its longest
    enclosing destination, at the rest of the path, and to what was there before when it has none.
   */
  lemma {:induction false} LongestDestinationWins(
    before: seq<Place>, rootfs: string, order: seq<string>, below: Place)
    requires Ascending(order) && forall k :: 0 <= k < |order| ==> Normalised(order[k])
    ensures var found := Look(TableOf(before + Targets(rootfs, order)), Resolve(rootfs) + below);
            var ds := Resolved(order);
            if exists k :: 0 <= k < |ds| && ds[k] <= below then
              exists k: nat :: LongestMatch(ds, below, k) && found == At(|before| + k + 1, below[|ds[k]|..])
            else found == Look(TableOf(before), Resolve(rootfs) + below)
  {
    hide *;
    forall k | 0 <= k < |order| ensures IsSafeContainerPath(order[k]) {
      NormalisedResolve(order[k]);
    }
    SortedIsNested(order);
    FoundBelow(before, rootfs, order, below);
    LeadsLongest(before, Targets(rootfs, order), Resolved(order), Resolve(rootfs), below);
  }

  lemma {:induction false} LeadsLongest(
    before: seq<Place>, ts: seq<Place>, ds: seq<Place>, root: Place, below: Place)
    requires Nested(ds) && LeadsBelow(before, ts, ds, root, below, Owner(ds, below))
    ensures var found := Look(TableOf(before + ts), root + below);
            if exists k :: 0 <= k < |ds| && ds[k] <= below then
              exists k: nat :: LongestMatch(ds, below, k) && found == At(|before| + k + 1, below[|ds[k]|..])
            else found == Look(TableOf(before), root + below)
  {
    hide Look, TableOf, Nested, Owner, LongestMatch;
    OwnerIsLongest(ds, below);
    var o := Owner(ds, below);
    if o > 0 {
      assert LongestMatch(ds, below, o - 1);
    }
  }

  /** The longest destination of the map that encloses the path. */
  ghost predicate LongestKey(bindMounts: map<string, string>, below: Place, d: string) {
    d in bindMounts && Resolve(d) <= below &&
    forall e :: e in bindMounts && Resolve(e) <= below ==> |Resolve(e)| <= |Resolve(d)|
  }

  /** Once every mount of the map is made, the path shows the source of its longest destination. */
  lemma {:induction false} LongestKeyWins(
    bindMounts: map<string, string>, before: seq<Place>, rootfs: string, order: seq<string>, below: Place, d: string)
    requires Ascending(order) && forall e :: e in order <==> e in bindMounts
    requires forall e :: e in bindMounts ==> Normalised(e)
    requires LongestKey(bindMounts, below, d)
    ensures var found := Look(TableOf(before + Targets(rootfs, order)), Resolve(rootfs) + below);
            |before| < found.mount <= |before| + |order| &&
            SourcesOf(bindMounts, order)[found.mount - |before| - 1] == bindMounts[d] &&
            found.place == below[|Resolve(d)|..]
  {
    hide Ascending, Normalised, Resolve, Look, TableOf, Targets, SourcesOf, Resolved;
    LongestDestinationWins(before, rootfs, order, below);
    var ds := Resolved(order);
    var j :| 0 <= j < |order| && order[j] == d;
    assert ds[j] <= below;
    var k: nat :| LongestMatch(ds, below, k) &&
      Look(TableOf(before + Targets(rootfs, order)), Resolve(rootfs) + below) == At(|before| + k + 1, below[|ds[k]|..]);
    assert order[k] in bindMounts && Resolve(order[k]) <= below;
    assert k == j;
  }

  // ----- destinations that are not normalised

  lemma {:induction false} HiddenComponents()
    ensures Components("/./b") == ["", ".", "b"] && Components("//") == ["", "", ""]
  {
    hide Components;
    CutAt("b", "");
    CutAt("", "");
    CutAt(".", "b");
    CutAt("", "./b");
    CutAt("", "/");
    assert "." + "/" + "b" == "./b" && "" + "/" + "./b" == "/./b";
    assert "" + "/" + "" == "/" && "" + "/" + "/" == "//";
  }

  lemma {:induction false} WalkOne(cs: seq<string>, c: string, at: Place)
    requires Walk([], cs) == at
    ensures Walk([], cs + [c]) == Enter(at, c)
  {
    assert (cs + [c])[..|cs|] == cs;
  }

  /** Two silent components and a name, or three silent components. */
  lemma {:induction false} WalkSilent(a: string, b: string, c: string)
    requires Silent(a) && Silent(b) && (Silent(c) || c != "..")
    ensures Walk([], [a, b, c]) == if Silent(c) then [] else [c]
  {
    hide Walk, Silent;
    WalkNone();
    WalkOne([], a, []);
    assert [] + [a] == [a];
    WalkOne([a], b, []);
    assert [a] + [b] == [a, b];
    WalkOne([a, b], c, []);
    assert [a, b] + [c] == [a, b, c];
  }

  lemma WalkNone()
    ensures Walk([], []) == []
  {
  }

  lemma {:induction false} HiddenResolve()
    ensures Resolve("/./b") == ["b"] && Resolve("//") == []
  {
    hide Walk, Components;
    HiddenComponents();
    WalkSilent("", ".", "b");
    WalkSilent("", "", "");
  }

  lemma ShortComponents(cs: seq<string>)
    requires forall i :: 0 <= i < |cs| ==> |cs[i]| < 2
    ensures !Climbs(cs)
  {
  }

  lemma {:induction false} HiddenSafe()
    ensures IsSafeContainerPath("/./b") && IsSafeContainerPath("//")
  {
    HiddenComponents();
    hide Components, IsSafeContainerPath;
    SafeExactly("/./b");
    SafeExactly("//");
    ShortComponents(["", ".", "b"]);
    ShortComponents(["", "", ""]);
    assert |"/./b"| == 4 && |"//"| == 2 && "/./b"[0] == '/' && "//"[0] == '/';
  }

  lemma {:induction false} HiddenAscending()
    ensures Ascending(["/./b", "//"])
  {
    var a, b := "/./b", "//";
    assert a[1..] == "./b" && b[1..] == "/";
    assert a[1..][0] < b[1..][0];
    assert Less(a, b);
  }

  /** Two destinations that the check accepts, the second of which hides the first. */
  lemma {:induction false} HiddenMount(rootfs: string)
    ensures var order := ["/./b", "//"];
            Ascending(order) && IsSafeContainerPath(order[0]) && IsSafeContainerPath(order[1]) &&
            !AllVisible(Targets(rootfs, order))
  {
    HiddenSafe();
    HiddenAscending();
    HiddenResolve();
    hide Components, Resolve, IsSafeContainerPath, Less;
    StaysUnder(rootfs, "/./b");
    StaysUnder(rootfs, "//");
    var ts := Targets(rootfs, ["/./b", "//"]);
    assert ts[1] == Resolve(rootfs) + [] == Resolve(rootfs);
    assert ts[1] <= ts[0];
    VisibleExactly(ts);
  }
}
