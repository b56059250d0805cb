/**
  A tree of directories and files without links, mkdir on it through a mount namespace, and the
  recursive mkdir of the runtime.
 */
module FileTree {
  import opened Paths

  datatype Errno = Done | EEXIST | ENOENT | ENOTDIR

  type Place = seq<string>

  /** The components that lead somewhere. */
  function Names(path: string): (cs: seq<string>)
    ensures forall i :: 0 <= i < |cs| ==> cs[i] != "" && '/' !in cs[i]
  {
    NonEmpty(Components(path))
  }

  function NonEmpty(cs: seq<string>): (r: seq<string>)
    ensures forall i :: 0 <= i < |r| ==> r[i] != "" && r[i] in cs
  {
    if cs == [] then []
    else NonEmpty(cs[..|cs| - 1]) + (if cs[|cs| - 1] == "" then [] else [cs[|cs| - 1]])
  }

  lemma {:induction false} NonEmptyJoin(a: seq<string>, b: seq<string>)
    ensures NonEmpty(a + b) == NonEmpty(a) + NonEmpty(b)
  {
    if b == [] {
      assert a + b == a;
    } else {
      var n := |b| - 1;
      assert (a + b)[..|a + b| - 1] == a + b[..n];
      NonEmptyJoin(a, b[..n]);
    }
  }

  lemma {:induction false} NamesJoin(a: string, b: string)
    ensures Names(a + "/" + b) == Names(a) + Names(b)
  {
    ComponentsJoin(a, b);
    NonEmptyJoin(Components(a), Components(b));
  }

  lemma {:induction false} NamesOne(a: string)
    requires '/' !in a
    ensures Names(a) == if a == "" then [] else [a]
  {
    CutAt(a, "");
    assert NonEmpty([a]) == if a == "" then [] else [a] by {
      assert [a][..0] == [];
    }
  }

  /** Leaving out the empty components changes nothing. */
  lemma {:induction false} WalkNonEmpty(at: Place, cs: seq<string>)
    ensures Walk(at, NonEmpty(cs)) == Walk(at, cs)
  {
    if cs != [] {
      var n := |cs| - 1;
      WalkNonEmpty(at, cs[..n]);
      if cs[n] != "" {
        var before := NonEmpty(cs[..n]);
        assert NonEmpty(cs) == before + [cs[n]];
        assert (before + [cs[n]])[..|before|] == before;
      } else {
        assert NonEmpty(cs) == NonEmpty(cs[..n]);
      }
    }
  }

  // ----- what paths show

  /** The place on disk that each path of a mount namespace shows. */
  type View = Place -> Place

  function Parent(p: Place): Place { if p == [] then [] else p[..|p| - 1] }

  /** A tree: everything stands in a directory. */
  ghost predicate Tree(dirs: set<Place>, files: set<Place>) {
    [] in dirs && dirs !! files && (forall p :: p in dirs ==> Parent(p) in dirs) &&
    forall p :: p in files ==> Parent(p) in dirs
  }

  /** A path shows a directory, or what its last name means in the directory its parent shows. */
  ghost predicate Faithful(view: View, dirs: set<Place>, files: set<Place>) {
    view([]) in dirs &&
    forall p :: p != [] ==>
      (view(p) in dirs || view(p) == view(Parent(p)) + [p[|p| - 1]]) &&
      (view(p) in dirs || view(p) in files ==> view(Parent(p)) in dirs)
  }

  lemma {:induction false} PlainStep(dirs: set<Place>, files: set<Place>, p: Place)
    requires Tree(dirs, files) && p != []
    ensures p == Parent(p) + [p[|p| - 1]] && (p in dirs || p in files ==> Parent(p) in dirs)
  {
  }

  lemma {:induction false} PlainFaithful(view: View, dirs: set<Place>, files: set<Place>)
    requires Tree(dirs, files) && forall p: Place :: view(p) == p
    ensures Faithful(view, dirs, files)
  {
    assert [] in dirs;
    hide Tree, Parent;
    forall p: Place | p != []
      ensures view(p) in dirs || view(p) == view(Parent(p)) + [p[|p| - 1]]
      ensures view(p) in dirs || view(p) in files ==> view(Parent(p)) in dirs
    {
      PlainStep(dirs, files, p);
    }
  }

  /** Without mounts a path shows itself. */
  lemma {:induction false} PlainView(dirs: set<Place>, files: set<Place>)
    requires Tree(dirs, files)
    ensures Faithful(p => p, dirs, files)
  {
    hide Tree, Faithful;
    PlainFaithful(p => p, dirs, files);
  }

  /** What the places passed on the way show: the root, then one for every name. */
  function Passed(view: View, cs: seq<string>): set<Place> { set j | 0 <= j <= |cs| :: view(Walk([], cs[..j])) }

  lemma {:induction false} PassedOne(view: View, cs: seq<string>, c: string)
    ensures Passed(view, cs + [c]) == Passed(view, cs) + {view(Walk([], cs + [c]))}
  {
    var longer := cs + [c];
    assert forall j :: 0 <= j <= |cs| ==> longer[..j] == cs[..j];
    assert longer[..|longer|] == longer;
    forall p ensures p in Passed(view, longer) <==> p in Passed(view, cs) + {view(Walk([], longer))} {
      if p in Passed(view, longer) {
        var j :| 0 <= j <= |longer| && p == view(Walk([], longer[..j]));
        assert j <= |cs| ==> longer[..j] == cs[..j];
      }
      if p in Passed(view, cs) {
        var j :| 0 <= j <= |cs| && p == view(Walk([], cs[..j]));
        assert longer[..j] == cs[..j];
      }
    }
  }

  lemma OnlyRoot(view: View)
    ensures Passed(view, []) == {view([])}
  {
    var none: seq<string> := [];
    assert none[..0] == none;
  }

  lemma {:induction false} PassedShorter(view: View, cs: seq<string>, j: nat)
    requires j <= |cs|
    ensures Passed(view, cs[..j]) <= Passed(view, cs)
  {
    forall p | p in Passed(view, cs[..j]) ensures p in Passed(view, cs) {
      var i :| 0 <= i <= j && p == view(Walk([], cs[..j][..i]));
      assert cs[..j][..i] == cs[..i];
    }
  }

  lemma {:induction false} PassedEnd(view: View, cs: seq<string>)
    ensures view(Walk([], cs)) in Passed(view, cs)
  {
    assert cs[..|cs|] == cs;
  }

  /** No file stands where the way still goes on. */
  predicate Clear(view: View, files: set<Place>, cs: seq<string>) {
    forall j :: 0 < j < |cs| ==> view(Walk([], cs[..j])) !in files
  }

  lemma {:induction false} ClearOne(view: View, files: set<Place>, cs: seq<string>, c: string)
    requires view([]) !in files
    ensures Clear(view, files, cs + [c]) <==> Clear(view, files, cs) && view(Walk([], cs)) !in files
  {
    var longer := cs + [c];
    assert forall j :: 0 <= j <= |cs| ==> longer[..j] == cs[..j];
    assert longer[..|cs|] == cs;
    if Clear(view, files, longer) {
      forall j | 0 < j < |cs| ensures view(Walk([], cs[..j])) !in files {
        assert longer[..j] == cs[..j];
      }
      assert 0 < |cs| ==> view(Walk([], longer[..|cs|])) !in files;
    }
  }

  lemma WalkParent(cs: seq<string>)
    requires cs != []
    ensures Walk([], cs) == Enter(Walk([], Parent(cs)), cs[|cs| - 1])
  {
  }

  lemma {:induction false} EnterInTree(view: View, dirs: set<Place>, files: set<Place>, at: Place, c: string)
    requires Tree(dirs, files) && Faithful(view, dirs, files) && view(at) in dirs
    ensures view(Enter(at, c)) in dirs || Parent(view(Enter(at, c))) in dirs
  {
    if !Silent(c) && c != ".." {
      assert Parent(at + [c]) == at && (at + [c])[|at|] == c;
      assert Parent(view(at) + [c]) == view(at);
    }
  }

  lemma {:induction false} TreeWith(dirs: set<Place>, files: set<Place>, p: Place)
    requires Tree(dirs, files) && Parent(p) in dirs && p !in files
    ensures Tree(dirs + {p}, files)
  {
    hide Parent;
  }

  lemma ParentShown(view: View, dirs: set<Place>, files: set<Place>, p: Place)
    requires Faithful(view, dirs, files) && p != []
    ensures view(p) in dirs || view(p) == view(Parent(p)) + [p[|p| - 1]]
    ensures view(p) in dirs || view(p) in files ==> view(Parent(p)) in dirs
  {
  }

  /** One more directory, in a directory. */
  lemma {:induction false} FaithfulWith(view: View, dirs: set<Place>, files: set<Place>, q: Place)
    requires Faithful(view, dirs, files) && (q in dirs || Parent(q) in dirs)
    ensures Faithful(view, dirs + {q}, files)
  {
    forall p: Place | p != []
      ensures view(p) in dirs + {q} || view(p) == view(Parent(p)) + [p[|p| - 1]]
      ensures view(p) in dirs + {q} || view(p) in files ==> view(Parent(p)) in dirs + {q}
    {
      ParentShown(view, dirs, files, p);
      hide Faithful;
      if view(p) == q && q !in dirs {
        assert Parent(view(Parent(p)) + [p[|p| - 1]]) == view(Parent(p));
      }
    }
  }

  class FileSystem {
    var dirs: set<Place>
    var files: set<Place>

    ghost predicate Valid()
      reads this
    {
      Tree(dirs, files)
    }

    ghost predicate Shows(view: View)
      reads this
    {
      Tree(dirs, files) && Faithful(view, dirs, files)
    }

    /** The way through the directories, as the kernel looks a path up. */
    function Lookup(view: View, cs: seq<string>): (r: (Place, Errno))
      reads this
    {
      if cs == [] then ([], Done)
      else
        var (at, e) := Lookup(view, cs[..|cs| - 1]);
        if e != Done then (at, e)
        else
          var next := Enter(at, cs[|cs| - 1]);
          if view(next) in dirs then (next, Done) else if view(next) in files then (at, ENOTDIR) else (at, ENOENT)
    }

    /** mkdir(2) */
    method Mkdir(view: View, path: string) returns (e: Errno)
      requires Shows(view) && path != ""
      modifies this`dirs
      ensures Shows(view)
      ensures Names(path) == [] ==> e == EEXIST && dirs == old(dirs)
      ensures Names(path) != [] && old(Lookup(view, Parent(Names(path)))).1 != Done ==>
                e == old(Lookup(view, Parent(Names(path)))).1 && dirs == old(dirs)
      ensures Names(path) != [] && old(Lookup(view, Parent(Names(path)))).1 == Done ==>
                var target := view(Walk([], Names(path)));
                if target in old(dirs) || target in files then e == EEXIST && dirs == old(dirs)
                else e == Done && dirs == old(dirs) + {target}
    {
      hide Tree, Faithful, Lookup, Names, Enter, Walk, Parent;
      var cs := Names(path);
      if cs == [] {
        return EEXIST;
      }
      var (at, found) := Lookup(view, Parent(cs));
      if found != Done {
        return found;
      }
      LookupDir(view, Parent(cs));
      WalkParent(cs);
      var c := cs[|cs| - 1];
      var target := view(Enter(at, c));
      EnterInTree(view, dirs, files, at, c);
      if target in dirs || target in files {
        return EEXIST;
      }
      TreeWith(dirs, files, target);
      FaithfulWith(view, dirs, files, target);
      dirs := dirs + {target};
      return Done;
    }

    lemma {:induction false} LookupDir(view: View, cs: seq<string>)
      requires Shows(view)
      ensures Lookup(view, cs).1 == Done ==>
                view(Lookup(view, cs).0) in dirs && Lookup(view, cs).0 == Walk([], cs)
    {
      if cs != [] {
        LookupDir(view, cs[..|cs| - 1]);
      }
    }

    /**
      A path is found exactly when every place on its way shows a directory; otherwise the lookup says
      that the first place that shows none is a file or is not there.
     */
    lemma {:induction false} LookupExactly(view: View, cs: seq<string>)
      requires view([]) in dirs
      ensures Lookup(view, cs).1 == Done <==> Passed(view, cs) <= dirs
      ensures Lookup(view, cs).1 == Done ==> Lookup(view, cs).0 == Walk([], cs)
      ensures forall j :: 0 < j <= |cs| && Passed(view, cs[..j - 1]) <= dirs && view(Walk([], cs[..j])) !in dirs ==>
                Lookup(view, cs).1 == if view(Walk([], cs[..j])) in files then ENOTDIR else ENOENT
    {
      hide Passed, Enter;
      if cs == [] {
        OnlyRoot(view);
      } else {
        var n := |cs| - 1;
        LookupExactly(view, cs[..n]);
        assert cs == cs[..n] + [cs[n]];
        PassedOne(view, cs[..n], cs[n]);
        forall j | 0 < j <= |cs| && Passed(view, cs[..j - 1]) <= dirs && view(Walk([], cs[..j])) !in dirs
          ensures Lookup(view, cs).1 == if view(Walk([], cs[..j])) in files then ENOTDIR else ENOENT
        {
          if j <= n {
            assert cs[..n][..j] == cs[..j] && cs[..n][..j - 1] == cs[..j - 1];
            PassedEnd(view, cs[..j]);
            PassedShorter(view, cs, j);
          } else {
            assert cs[..j] == cs && cs[..j - 1] == cs[..n];
          }
        }
      }
    }

    /** A way whose places are all directories is found; one that ends at a file is not. */
    lemma {:induction false} LookupPassed(view: View, cs: seq<string>)
      requires Shows(view) && Clear(view, files, cs) && forall p :: p in Passed(view, cs) ==> p in dirs || p in files
      ensures if view(Walk([], cs)) in files then Lookup(view, cs).1 == ENOTDIR
              else Lookup(view, cs) == (Walk([], cs), Done)
    {
      hide Tree, Faithful, Passed, Clear, Enter;
      RootIsDir(view);
      PassedEnd(view, cs);
      if cs != [] {
        var n := |cs| - 1;
        assert cs == cs[..n] + [cs[n]];
        PassedOne(view, cs[..n], cs[n]);
        ClearOne(view, files, cs[..n], cs[n]);
        LookupPassed(view, cs[..n]);
      }
    }

    /** From the directories `start`, exactly the places on the way have been made. */
    ghost predicate Made(view: View, start: set<Place>, cs: seq<string>)
      reads this
    {
      Shows(view) && Clear(view, files, cs) && dirs == start + (Passed(view, cs) - files)
    }

    /** mkdir of the place just made, or of the next one: it fails only behind a file. */
    method MkdirNext(view: View, path: string, ghost start: set<Place>, ghost before: seq<string>) returns (e: Errno)
      requires Made(view, start, before) && path != ""
      requires Names(path) == before || (Names(path) != [] && Parent(Names(path)) == before)
      modifies this`dirs
      ensures Clear(view, files, Names(path)) ==> (e == Done || e == EEXIST) && Made(view, start, Names(path))
      ensures !Clear(view, files, Names(path)) ==>
                e == ENOTDIR && view(Walk([], before)) in files && Made(view, start, before)
    {
      hide Walk, Lookup, Enter, Clear, Passed, Names, Faithful, Tree;
      ghost var cs := Names(path);
      RootIsDir(view);
      if cs != [] {
        ghost var up, last := Parent(cs), cs[|cs| - 1];
        assert cs == up + [last];
        PassedOne(view, up, last);
        ClearOne(view, files, up, last);
        LookupPassed(view, up);
      }
      e := Mkdir(view, path);
    }

    lemma RootIsDir(view: View)
      requires Shows(view)
      ensures view([]) in dirs && dirs !! files
    {
    }

    /**
      mkdirRecursive on an absolute path: it succeeds exactly when no file stands where the path goes
      on, never for want of a parent. It makes the places on the way and nothing else; when a file
      stops it, those up to the file.
     */
    method MkdirRecursive(view: View, path: string) returns (ok: bool, e: Errno)
      requires Shows(view) && path != "" && path[0] == '/'
      modifies this`dirs
      ensures Shows(view) && (ok <==> Clear(view, files, Names(path)))
      ensures ok ==> dirs == old(dirs) + (Passed(view, Names(path)) - files)
      ensures !ok ==> e == ENOTDIR && exists way: seq<string> :: StoppedAt(view, old(dirs), Names(path), way)
    {
      hide Names, Clear, Passed, Tree, Faithful, Walk;
      var current := "";
      ghost var start, made, last := dirs, [], 0;
      MadeNothing(view);
      for i := 0 to |path|
        invariant current == path[..i] && Made(view, start, made)
        invariant if i == 0 then made == [] else last < i && path[last] == '/' && made == Names(path[..last])
        invariant forall k :: last < k < i ==> path[k] != '/'
      {
        current := current + [path[i]];
        if path[i] != '/' {
          continue;
        }
        if i > 0 {
          assert current == path[..i + 1] && current[..last] == path[..last] && current[..i] == path[..i];
          NamesAt(current, last, i);
          NamesPrefix(path, i);
        } else {
          NamesOne("");
          assert path[..0] == "";
        }
        if |current| > 1 {
          e := MkdirNext(view, current, start, made);
          if e != Done && e != EEXIST {
            StopsHere(view, start, Names(path), Names(path[..i]), made);
            return false, e;
          }
        }
        made, last := Names(path[..i]), i;
      }
      assert current == path && (path + "/")[..last] == path[..last] && (path + "/")[..|path|] == path;
      NamesAt(path + "/", last, |path|);
      e := MkdirNext(view, path, start, made);
      if e != Done && e != EEXIST {
        StopsHere(view, start, Names(path), Names(path), made);
      }
      ok := e == Done || e == EEXIST;
    }

    /** A file ends the way `way` before the end of `cs`; everything up to it has been made. */
    ghost predicate StoppedAt(view: View, start: set<Place>, cs: seq<string>, way: seq<string>)
      reads this
    {
      way < cs && view(Walk([], way)) in files && Clear(view, files, way) && dirs == start + (Passed(view, way) - files)
    }

    lemma {:induction false} StopsHere(
      view: View, start: set<Place>, cs: seq<string>, next: seq<string>, made: seq<string>)
      requires Made(view, start, made) && next <= cs && !Clear(view, files, next) && view(Walk([], made)) in files
      requires next == made || (next != [] && Parent(next) == made)
      ensures StoppedAt(view, start, cs, made) && !Clear(view, files, cs)
    {
      hide Passed, Walk, Tree, Faithful;
      forall j | 0 < j < |next| ensures next[..j] == cs[..j] {
      }
    }

    lemma MadeNothing(view: View)
      requires Shows(view)
      ensures Made(view, dirs, [])
    {
    }
  }

  /** The names of `s` up to its last slash at `end`, given the slash before it at `last`. */
  lemma {:induction false} NamesAt(s: string, last: nat, end: nat)
    requires last < end && |s| == end + 1 && s[last] == '/' && s[end] == '/'
    requires forall k :: last < k < end ==> s[k] != '/'
    ensures Names(s) == Names(s[..end])
    ensures Names(s) == Names(s[..last]) || (Names(s) != [] && Parent(Names(s)) == Names(s[..last]))
  {
    hide Names;
    var between := s[last + 1..end];
    assert s[..end] == s[..last] + "/" + between && s == s[..end] + "/" + "";
    NamesJoin(s[..last], between);
    NamesJoin(s[..end], "");
    NamesOne(between);
    NamesOne("");
    var before := Names(s[..last]);
    assert (before + [between])[..|before|] == before;
  }

  lemma {:induction false} NamesPrefix(s: string, i: nat)
    requires i < |s| && s[i] == '/'
    ensures Names(s[..i]) <= Names(s)
  {
    assert s == s[..i] + "/" + s[i + 1..];
    NamesJoin(s[..i], s[i + 1..]);
  }

  /** The way of a path ends where the path resolves to. */
  lemma {:induction false} NamesResolve(path: string)
    ensures Walk([], Names(path)) == Resolve(path)
    ensures forall view: View :: view(Resolve(path)) in Passed(view, Names(path))
  {
    WalkNonEmpty([], Components(path));
    assert Names(path)[..|Names(path)|] == Names(path);
  }
}
