/**
  Volume destinations from the Axisfile to the runtime: what the parser accepts, printed and read
  back, is what the runtime accepts, whatever characters it is made of.
 */
module Volumes {
  import opened Wrappers
  import opened JsonText
  import opened JsonStrings
  import opened Config
  import opened RuntimeJson
  import opened Paths
  import Axisfile

  predicate PathChar(c: char) { c == '/' || c == '.' }

  /** A character that does not survive comes back as letters and digits. */
  lemma {:induction false} LostChar(c: char)
    requires !Kept(c)
    ensures RereadChar(c) != "" && forall i :: 0 <= i < |RereadChar(c)| ==> !PathChar(RereadChar(c)[i])
  {
    hide HexDigits;
    RereadCharKept(c);
    var n := c as int;
    if n != 8 && n != 12 && c != '\r' {
      if n < 0x10000 {
        UnicodeBody(n);
      } else {
        UnicodeBody(0xD800 + (n - 0x10000) / 1024);
        UnicodeBody(0xDC00 + (n - 0x10000) % 1024);
      }
    }
  }

  lemma {:induction false} CharPath(c: char)
    ensures RereadChar(c) != "" && (PathChar(c) ==> RereadChar(c) == [c])
    ensures !PathChar(c) ==> forall i :: 0 <= i < |RereadChar(c)| ==> !PathChar(RereadChar(c)[i])
  {
    if !Kept(c) {
      LostChar(c);
    }
  }

  lemma {:induction false} RereadConcat(a: string, b: string)
    ensures Reread(a + b) == Reread(a) + Reread(b)
  {
    if a == "" {
      assert a + b == b;
    } else {
      assert (a + b)[1..] == a[1..] + b;
      RereadConcat(a[1..], b);
    }
  }

  lemma {:induction false} RereadOne(c: char)
    requires PathChar(c)
    ensures Reread([c]) == [c]
  {
    hide RereadChar;
    CharPath(c);
    assert [c][1..] == "" && Reread("") == "";
    assert [c] + "" == [c];
  }

  lemma {:induction false} RereadSlash(a: string, b: string)
    ensures Reread(a + "/" + b) == Reread(a) + "/" + Reread(b)
  {
    RereadOne('/');
    hide Reread;
    RereadConcat(a + "/", b);
    RereadConcat(a, "/");
    assert ['/'] == "/";
  }

  /** A component stays one component, and becomes ".." only from "..". */
  lemma {:induction false} RereadComponent(s: string)
    requires '/' !in s
    ensures '/' !in Reread(s) && |Reread(s)| >= |s|
    ensures (forall i :: 0 <= i < |Reread(s)| ==> PathChar(Reread(s)[i])) ==> Reread(s) == s
  {
    hide RereadChar;
    if s != "" {
      CharPath(s[0]);
      RereadComponent(s[1..]);
      var head, tail := RereadChar(s[0]), Reread(s[1..]);
      assert Reread(s)[0] == head[0];
      assert s == [s[0]] + s[1..];
      if forall i :: 0 <= i < |Reread(s)| ==> PathChar(Reread(s)[i]) {
        assert forall i :: 0 <= i < |tail| ==> tail[i] == Reread(s)[|head| + i];
      }
    }
  }

  lemma {:induction false} RereadParent(s: string)
    requires '/' !in s
    ensures Reread(s) == ".." <==> s == ".."
  {
    RereadComponent(s);
    if s == ".." {
      RereadOne('.');
      RereadConcat(['.'], ['.']);
      assert ['.'] + ['.'] == "..";
    }
  }

  /** Reading back works component by component. */
  lemma {:induction false} RereadComponents(s: string)
    ensures |Components(Reread(s))| == |Components(s)|
    ensures forall i :: 0 <= i < |Components(s)| ==> Components(Reread(s))[i] == Reread(Components(s)[i])
    decreases |s|
  {
    hide Reread, Components, Cut;
    var c := Cut(s);
    if c == |s| {
      RereadComponent(s);
      CutAt(s, "");
      CutAt(Reread(s), "");
    } else {
      var a, b := s[..c], s[c + 1..];
      assert s == a + "/" + b;
      RereadSlash(a, b);
      RereadComponent(a);
      RereadComponents(b);
      CutAt(a, b);
      CutAt(Reread(a), Reread(b));
    }
  }

  lemma {:induction false} RereadAbsolute(s: string)
    ensures Reread(s) != "" && Reread(s)[0] == '/' <==> s != "" && s[0] == '/'
    ensures Reread(s) == "/" <==> s == "/"
  {
    hide RereadChar;
    if s != "" {
      CharPath(s[0]);
      if |s| > 1 {
        CharPath(s[1]);
      }
      assert Reread(s)[0] == RereadChar(s[0])[0];
    }
  }

  /** The check gives the same answer before printing and after reading back. */
  lemma {:induction false} SafeReread(d: string)
    ensures IsSafeContainerPath(Reread(d)) <==> IsSafeContainerPath(d)
  {
    hide IsSafeContainerPath, Components;
    SafeExactly(d);
    SafeExactly(Reread(d));
    RereadAbsolute(d);
    RereadComponents(d);
    var cs, rs := Components(d), Components(Reread(d));
    forall i | 0 <= i < |cs| ensures rs[i] == ".." <==> cs[i] == ".." {
      RereadParent(cs[i]);
    }
  }

  /** Every destination of the map that is loaded is a volume destination reread. */
  lemma {:induction false} LoadedDestinations(volumes: seq<VolumeSpec>, d: string)
    requires d in MapOf(RereadEntries(VolumeDict(volumes)))
    ensures exists i :: 0 <= i < |volumes| && d == Reread(volumes[i].destination)
  {
    hide Reread, MapOf, VolumeDict, VolumeMap;
    var es := VolumeDict(volumes);
    MapOfKeys(RereadEntries(es));
    var i :| 0 <= i < |es| && RereadEntries(es)[i].key == d;
    MapOfKeys(es);
    VolumeDictMap(volumes);
    assert es[i].key in VolumeMap(volumes);
    VolumeMapKeys(volumes, es[i].key);
  }

  lemma {:induction false} VolumeMapKeys(volumes: seq<VolumeSpec>, d: string)
    requires d in VolumeMap(volumes)
    ensures exists i :: 0 <= i < |volumes| && d == volumes[i].destination
  {
    var n := |volumes| - 1;
    if d != volumes[n].destination {
      VolumeMapKeys(volumes[..n], d);
      var i :| 0 <= i < n && d == volumes[..n][i].destination;
      assert d == volumes[i].destination;
    }
  }

  lemma {:induction false} DestinationsSafe(config: AxisConfig, rootfs: string, id: string, d: string)
    requires forall i :: 0 <= i < |config.volumes| ==> IsSafeContainerPath(config.volumes[i].destination)
    requires d in RereadConfig(config, rootfs, id).bindMounts
    ensures IsSafeContainerPath(d)
  {
    hide IsSafeContainerPath, Reread, RereadEntries, VolumeDict, MapOf;
    LoadedDestinations(config.volumes, d);
    var i :| 0 <= i < |config.volumes| && d == Reread(config.volumes[i].destination);
    SafeReread(config.volumes[i].destination);
  }

  /**
    End to end: with destinations the Axisfile parser accepts and no key shadowed, the runtime loads
    the file, its own check refuses no destination, and every mount target stays under the root.
   */
  lemma {:induction false} VolumesContained(config: AxisConfig, rootfs: string, id: string)
    requires AllFound(RuntimeFields(config, rootfs, id))
    requires forall i :: 0 <= i < |config.volumes| ==> IsSafeContainerPath(config.volumes[i].destination)
    ensures Load(Dumps(RuntimeFields(config, rootfs, id))).Ok?
    ensures var r := Load(Dumps(RuntimeFields(config, rootfs, id))).value;
            forall d :: d in r.bindMounts ==> IsSafeContainerPath(d) && Resolve(r.rootfs) <= Resolve(r.rootfs + d)
  {
    hide Load, AllFound, RuntimeFields, Dumps, IsSafeContainerPath, Resolve, RereadConfig;
    LoadPrinted(config, rootfs, id);
    var r := RereadConfig(config, rootfs, id);
    forall d | d in r.bindMounts ensures IsSafeContainerPath(d) && Resolve(r.rootfs) <= Resolve(r.rootfs + d) {
      DestinationsSafe(config, rootfs, id, d);
      StaysUnder(r.rootfs, d);
    }
  }

  /** The same from the text of an Axisfile. */
  lemma {:induction false} AxisfileContained(
    host: Axisfile.Host, lines: seq<string>, override: Option<seq<string>>, rootfs: string, id: string)
    requires Axisfile.Parsed(host, lines, override).Ok?
    requires AllFound(RuntimeFields(Axisfile.Parsed(host, lines, override).value, rootfs, id))
    ensures var config := Axisfile.Parsed(host, lines, override).value;
            var r := Load(Dumps(RuntimeFields(config, rootfs, id)));
            r.Ok? && forall d :: d in r.value.bindMounts ==>
                       IsSafeContainerPath(d) && Resolve(r.value.rootfs) <= Resolve(r.value.rootfs + d)
  {
    hide Load, AllFound, RuntimeFields, Dumps, IsSafeContainerPath, Resolve, Axisfile.Parsed;
    Axisfile.ParsedVolumesSafe(host, lines, override);
    VolumesContained(Axisfile.Parsed(host, lines, override).value, rootfs, id);
  }
}
