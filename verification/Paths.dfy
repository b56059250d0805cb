/** Paths as text and as components, and the containment check on volume destinations. */
module Paths {
  import opened Wrappers
  import opened Text

  /** The position of the first slash, or the length. */
  function Cut(s: string): (c: nat)
    ensures c <= |s| && (c < |s| ==> s[c] == '/') && forall i :: 0 <= i < c ==> s[i] != '/'
  {
    Position(s, '/')
  }

  /** What stands between the slashes, the empty strings included. */
  function Components(s: string): (cs: seq<string>)
    ensures cs != [] && forall i :: 0 <= i < |cs| ==> '/' !in cs[i]
  {
    if Cut(s) == |s| then [s] else [s[..Cut(s)]] + Components(s[Cut(s) + 1..])
  }

  lemma {:induction false} CutAt(a: string, b: string)
    requires '/' !in a
    ensures Cut(a + "/" + b) == |a| && Cut(a) == |a|
    ensures Components(a + "/" + b) == [a] + Components(b) && Components(a) == [a]
  {
    var s := a + "/" + b;
    assert s[|a|] == '/' && s[..|a|] == a && s[|a| + 1..] == b;
    assert forall i :: 0 <= i < |a| ==> s[i] == a[i];
    assert Cut(s) == |a|;
  }

  lemma {:induction false} ComponentsJoin(a: string, b: string)
    ensures Components(a + "/" + b) == Components(a) + Components(b)
    decreases |a|
  {
    var c := Cut(a);
    if c == |a| {
      CutAt(a, b);
    } else {
      var x, y := a[..c], a[c + 1..];
      assert a == x + "/" + y && a + "/" + b == x + "/" + (y + "/" + b);
      CutAt(x, y + "/" + b);
      ComponentsJoin(y, b);
    }
  }

  // ----- lexical resolution

  /** Empty components and "." say nothing. */
  predicate Silent(c: string) { c == "" || c == "." }

  function Enter(at: seq<string>, c: string): seq<string> {
    if Silent(c) then at
    else if c == ".." then (if at == [] then [] else at[..|at| - 1])
    else at + [c]
  }

  /** Where the components lead from a directory. */
  function Walk(at: seq<string>, cs: seq<string>): seq<string> {
    if cs == [] then at else Enter(Walk(at, cs[..|cs| - 1]), cs[|cs| - 1])
  }

  function Resolve(path: string): seq<string> { Walk([], Components(path)) }

  lemma {:induction false} WalkConcat(at: seq<string>, a: seq<string>, b: seq<string>)
    ensures Walk(at, a + b) == Walk(Walk(at, a), b)
  {
    if b == [] {
      assert a + b == a;
    } else {
      var n := |b| - 1;
      assert (a + b)[..|a + b| - 1] == a + b[..n];
      WalkConcat(at, a, b[..n]);
    }
  }

  predicate Climbs(cs: seq<string>) { exists i :: 0 <= i < |cs| && cs[i] == ".." }

  lemma {:induction false} WalkDown(at: seq<string>, cs: seq<string>)
    requires !Climbs(cs)
    ensures Walk(at, cs) == at + Walk([], cs)
  {
    if cs == [] {
      assert at + [] == at;
    } else {
      var init := cs[..|cs| - 1];
      assert forall i :: 0 <= i < |init| ==> init[i] == cs[i];
      WalkDown(at, init);
      assert cs[|cs| - 1] != "..";
    }
  }

  // ----- the check

  predicate Contains(s: string, w: string) { Find(s, w, 0).Some? }

  /** isSafeContainerPath */
  predicate IsSafeContainerPath(path: string) {
    var endsWithParent := |path| >= 3 && path[|path| - 3..] == "/..";
    path != "" && path[0] == '/' && path != "/" && Find(path, "/../", 0).None? && !endsWithParent
  }

  /** The substring conditions that mean "a component is .." . */
  ghost predicate Spots(s: string) {
    s == ".." || HasAt(s, 0, "../") || (exists p: nat :: HasAt(s, p, "/../")) || EndsWith(s, "/..")
  }

  lemma {:induction false} SpotsOne(s: string)
    requires '/' !in s
    ensures Spots(s) <==> s == ".."
  {
    if HasAt(s, 0, "../") {
      HasAtChar(s, 0, "../", 2);
    }
    if p: nat :| HasAt(s, p, "/../") {
      HasAtChar(s, p, "/../", 0);
    }
    EndsAt(s, "/..");
    if |s| >= 3 && HasAt(s, |s| - 3, "/..") {
      HasAtChar(s, |s| - 3, "/..", 0);
    }
  }

  lemma {:induction false} InTail(a: string, b: string, p: nat, w: string)
    ensures HasAt(a + b, |a| + p, w) <==> HasAt(b, p, w)
  {
    assert (a + b)[|a|..] == b;
    if p + |w| <= |b| {
      assert (a + b)[|a| + p..|a| + p + |w|] == b[p..p + |w|];
    }
  }

  lemma {:induction false} NotInHead(a: string, b: string, p: nat, w: string)
    requires '/' !in a && w != "" && w[0] == '/' && p < |a|
    ensures !HasAt(a + b, p, w)
  {
    hide HasAt;
    assert (a + b)[p] == a[p];
    if HasAt(a + b, p, w) {
      HasAtChar(a + b, p, w, 0);
    }
  }

  lemma {:induction false} EndsAt(s: string, w: string)
    ensures EndsWith(s, w) <==> |w| <= |s| && HasAt(s, |s| - |w|, w)
  {
    if |w| <= |s| {
      assert s[|s| - |w|..] == s[|s| - |w|..|s| - |w| + |w|];
    }
  }

  lemma {:induction false} HeadSpot(a: string, b: string)
    requires '/' !in a
    ensures HasAt(a + "/" + b, 0, "../") <==> a == ".."
    ensures HasAt(a + "/" + b, |a|, "/../") <==> HasAt(b, 0, "../")
  {
    var s := a + "/" + b;
    if a == ".." {
      assert s[0..3] == "../";
    }
    if HasAt(s, 0, "../") {
      HasAtChar(s, 0, "../", 0);
      HasAtChar(s, 0, "../", 1);
      HasAtChar(s, 0, "../", 2);
      assert forall i :: 0 <= i < |a| ==> s[i] == a[i];
      assert |a| == 2;
    }
    HasAtSplit(s, |a|, "/", "../");
    assert HasAt(s, |a|, "/") by {
      assert s[|a|..|a| + 1] == "/";
    }
    assert "/" + "../" == "/../";
    InTail(a + "/", b, 0, "../");
  }

  lemma {:induction false} TwoDots(b: string)
    requires |b| == 2
    ensures HasAt(b, 0, "..") <==> b == ".."
    ensures !EndsWith(b, "/..")
  {
    assert b[0..2] == b;
  }

  lemma {:induction false} SlashThere(a: string, b: string)
    ensures HasAt(a + "/" + b, |a|, "/")
  {
    assert (a + "/" + b)[|a|..|a| + 1] == "/";
  }

  lemma {:induction false} ShortTail(a: string, b: string)
    requires |b| < 2
    ensures !EndsWith(a + "/" + b, "/..") && !EndsWith(b, "/..") && b != ".."
  {
    var s := a + "/" + b;
    if |s| >= 3 {
      assert s[|s| - 3..][2 - |b|] == s[|a|] == '/';
      assert "/.."[2 - |b|] == '.';
    }
  }

  lemma {:induction false} TailSpot(a: string, b: string)
    requires '/' !in a
    ensures EndsWith(a + "/" + b, "/..") <==> b == ".." || EndsWith(b, "/..")
  {
    var s := a + "/" + b;
    EndsAt(s, "/..");
    EndsAt(b, "/..");
    hide EndsWith, HasAt;
    if |b| >= 3 {
      InTail(a + "/", b, |b| - 3, "/..");
    } else if |b| == 2 {
      HasAtSplit(s, |a|, "/", "..");
      assert "/" + ".." == "/..";
      InTail(a + "/", b, 0, "..");
      TwoDots(b);
      SlashThere(a, b);
    } else {
      ShortTail(a, b);
    }
  }

  lemma {:induction false} SpotsCons(a: string, b: string)
    requires '/' !in a
    ensures Spots(a + "/" + b) <==> a == ".." || Spots(b)
  {
    var s := a + "/" + b;
    assert s != ".." by {
      assert s[|a|] == '/';
    }
    hide HasAt, EndsWith;
    HeadSpot(a, b);
    TailSpot(a, b);
    MiddleSpot(a, b);
  }

  lemma {:induction false} MiddleSpot(a: string, b: string)
    requires '/' !in a
    ensures (exists p: nat :: HasAt(a + "/" + b, p, "/../")) <==>
            HasAt(a + "/" + b, |a|, "/../") || exists p: nat :: HasAt(b, p, "/../")
  {
    hide HasAt;
    var s := a + "/" + b;
    assert s == a + ("/" + b);
    if p: nat :| HasAt(s, p, "/../") {
      if p < |a| {
        NotInHead(a, "/" + b, p, "/../");
      } else if p > |a| {
        InTail(a + "/", b, p - |a| - 1, "/../");
      }
    }
    if p: nat :| HasAt(b, p, "/../") {
      InTail(a + "/", b, p, "/../");
      assert HasAt(s, |a + "/"| + p, "/../");
    }
  }

  lemma {:induction false} ClimbsCons(a: string, cs: seq<string>)
    ensures Climbs([a] + cs) <==> a == ".." || Climbs(cs)
  {
    assert ([a] + cs)[0] == a && forall i :: 0 <= i < |cs| ==> ([a] + cs)[i + 1] == cs[i];
  }

  /** The substring conditions hold exactly when some component is "..". */
  lemma {:induction false} SpotsClimbs(s: string)
    ensures Spots(s) <==> Climbs(Components(s))
    decreases |s|
  {
    hide Spots, Climbs, Components, Cut;
    var c := Cut(s);
    if c == |s| {
      SpotsOne(s);
      CutAt(s, "");
      ClimbsCons(s, []);
      NoClimb();
      assert [s] + [] == [s];
    } else {
      var a, b := s[..c], s[c + 1..];
      assert s == a + "/" + b;
      SpotsCons(a, b);
      SpotsClimbs(b);
      CutAt(a, b);
      ClimbsCons(a, Components(b));
    }
  }

  lemma NoClimb()
    ensures !Climbs([])
  {
  }

  /** The check accepts exactly the absolute paths, other than "/", with no component "..". */
  lemma {:induction false} SafeExactly(path: string)
    ensures IsSafeContainerPath(path) <==> path != "" && path[0] == '/' && path != "/" && !Climbs(Components(path))
  {
    SpotsClimbs(path);
    if path != "" && path[0] == '/' {
      if HasAt(path, 0, "../") {
        HasAtChar(path, 0, "../", 0);
      }
      if p: nat :| HasAt(path, p, "/../") {
        assert Find(path, "/../", 0).Some?;
      }
    }
  }

  lemma {:induction false} ComponentsBelow(path: string)
    requires path != "" && path[0] == '/'
    ensures Components(path) == [""] + Components(path[1..])
    ensures Climbs(Components(path[1..])) ==> Climbs(Components(path))
  {
    var below := path[1..];
    assert path == "" + "/" + below;
    CutAt("", below);
    hide Components;
    if i :| 0 <= i < |Components(below)| && Components(below)[i] == ".." {
      assert Components(path)[i + 1] == "..";
    }
  }

  lemma {:induction false} ResolveBelow(path: string)
    requires path != "" && path[0] == '/'
    ensures Resolve(path) == Walk([], Components(path[1..]))
  {
    ComponentsBelow(path);
    WalkConcat([], [""], Components(path[1..]));
    assert [""][..0] == [] && Walk([], [""]) == Enter(Walk([], []), "");
  }

  /** An accepted destination appended to the root filesystem resolves to itself under that root. */
  lemma {:induction false} StaysUnder(rootfs: string, destination: string)
    requires IsSafeContainerPath(destination)
    ensures Resolve(rootfs + destination) == Resolve(rootfs) + Resolve(destination)
    ensures Resolve(rootfs) <= Resolve(rootfs + destination)
  {
    hide IsSafeContainerPath, Components, Walk, Climbs;
    SafeExactly(destination);
    var below := destination[1..];
    assert rootfs + destination == rootfs + "/" + below;
    ComponentsJoin(rootfs, below);
    WalkConcat([], Components(rootfs), Components(below));
    ComponentsBelow(destination);
    ResolveBelow(destination);
    WalkDown(Resolve(rootfs), Components(below));
  }
}
