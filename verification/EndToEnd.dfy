/** Volumes from the text of the Axisfile to what a path inside the container shows. */
module EndToEnd {
  import opened Wrappers
  import opened JsonText
  import opened JsonReader
  import opened KeyLookup
  import opened JsonStrings
  import opened Config
  import opened RuntimeJson
  import opened Paths
  import Axisfile
  import FileTree
  import Volumes
  import Whitespace
  import opened MountTable
  import opened Mounts

  /** No later VOLUME line has the destination of this one. */
  predicate LastVolume(volumes: seq<VolumeSpec>, i: nat) {
    i < |volumes| && forall j :: i < j < |volumes| ==> volumes[j].destination != volumes[i].destination
  }

  /** The last VOLUME line of the longest destination that encloses the path. */
  ghost predicate LongestVolume(volumes: seq<VolumeSpec>, below: Place, i: nat) {
    LastVolume(volumes, i) && Resolve(volumes[i].destination) <= below &&
    forall j :: 0 <= j < |volumes| && Resolve(volumes[j].destination) <= below ==>
                  |Resolve(volumes[j].destination)| <= |Resolve(volumes[i].destination)|
  }

  lemma {:induction false} VolumeMapLast(volumes: seq<VolumeSpec>, i: nat)
    requires LastVolume(volumes, i)
    ensures volumes[i].destination in VolumeMap(volumes)
    ensures VolumeMap(volumes)[volumes[i].destination] == volumes[i].source
  {
    var n := |volumes| - 1;
    if i < n {
      assert volumes[n].destination != volumes[i].destination;
      assert forall j :: i < j < n ==> volumes[..n][j] == volumes[j];
      VolumeMapLast(volumes[..n], i);
    }
  }

  lemma {:induction false} LongestIsKey(volumes: seq<VolumeSpec>, below: Place, i: nat)
    requires LongestVolume(volumes, below, i)
    ensures LongestKey(VolumeMap(volumes), below, volumes[i].destination)
    ensures VolumeMap(volumes)[volumes[i].destination] == volumes[i].source
  {
    hide VolumeMap, Resolve;
    VolumeMapLast(volumes, i);
    forall e | e in VolumeMap(volumes) && Resolve(e) <= below
      ensures |Resolve(e)| <= |Resolve(volumes[i].destination)|
    {
      Volumes.VolumeMapKeys(volumes, e);
    }
  }

  /** Destinations spelled normally. */
  predicate AllNormalised(volumes: seq<VolumeSpec>) {
    forall i :: 0 <= i < |volumes| ==> Normalised(volumes[i].destination)
  }

  lemma {:induction false} KeysNormalised(volumes: seq<VolumeSpec>)
    requires AllNormalised(volumes)
    ensures forall d :: d in VolumeMap(volumes) ==> Normalised(d)
  {
    hide Normalised, VolumeMap;
    forall d | d in VolumeMap(volumes) ensures Normalised(d) {
      Volumes.VolumeMapKeys(volumes, d);
    }
  }

  /** The path leads to the mount made from the source of this volume, at the rest of the path. */
  ghost predicate LeadsTo(
    table: Table, sources: seq<string>, rootfs: string, below: Place, volume: VolumeSpec)
  {
    var at := Look(table, Resolve(rootfs) + below);
    Resolve(volume.destination) <= below && 0 < at.mount <= |sources| && sources[at.mount - 1] == volume.source &&
    at.place == below[|Resolve(volume.destination)|..]
  }

  /** The path shows what the source of this volume showed when it was mounted, and the rest of the path below it. */
  ghost predicate ShowsVolume(
    targets: seq<Place>, roots: seq<Place>, sources: seq<string>, rootfs: string, below: Place, volume: VolumeSpec)
    requires |roots| == |targets| + 1 && |sources| == |targets|
  {
    Resolve(volume.destination) <= below &&
    exists k :: 0 < k <= |targets| && sources[k - 1] == volume.source && targets[k - 1] <= Resolve(rootfs) + below &&
      ViewOf(TableOf(targets), roots, Resolve(rootfs) + below) ==
      ViewOf(TableOf(targets[..k - 1]), roots[..k], Resolve(volume.source)) + below[|Resolve(volume.destination)|..]
  }

  /** Once the mounts of a volume map are made, each path shows its longest volume. */
  lemma {:induction false} VolumeShown(
    volumes: seq<VolumeSpec>, before: seq<Place>, sources: seq<string>, rootfs: string, order: seq<string>,
    below: Place, i: nat)
    requires AllNormalised(volumes) && |sources| == |before|
    requires Ascending(order) && forall d :: d in order <==> d in VolumeMap(volumes)
    requires LongestVolume(volumes, below, i)
    ensures LeadsTo(
              TableOf(before + Targets(rootfs, order)), sources + SourcesOf(VolumeMap(volumes), order), rootfs, below,
              volumes[i])
  {
    hide VolumeMap, Resolve, Look, TableOf, Targets, SourcesOf, Ascending, Normalised, LongestKey;
    KeysNormalised(volumes);
    LongestIsKey(volumes, below, i);
    LongestKeyWins(VolumeMap(volumes), before, rootfs, order, below, volumes[i].destination);
  }

  lemma {:induction false} LeadsShows(
    targets: seq<Place>, roots: seq<Place>, sources: seq<string>, rootfs: string, below: Place, volume: VolumeSpec)
    requires RootsShown(targets, roots, sources) && LeadsTo(TableOf(targets), sources, rootfs, below, volume)
    ensures ShowsVolume(targets, roots, sources, rootfs, below, volume)
  {
    hide Resolve, Look, TableOf, Owner;
    var path := Resolve(rootfs) + below;
    var k := Look(TableOf(targets), path).mount;
    LastEnclosingWins(targets, path);
    assert RootShown(targets, roots, sources, k);
    assert targets[k - 1] <= path;
  }

  /** Every path shows its longest volume. */
  ghost predicate AllShown(
    targets: seq<Place>, roots: seq<Place>, sources: seq<string>, rootfs: string, volumes: seq<VolumeSpec>)
    requires |roots| == |targets| + 1 && |sources| == |targets|
  {
    forall below: Place, i: nat :: LongestVolume(volumes, below, i) ==>
                                     ShowsVolume(targets, roots, sources, rootfs, below, volumes[i])
  }

  lemma {:induction false} VolumesShown(
    volumes: seq<VolumeSpec>, before: seq<Place>, earlier: seq<string>, rootfs: string, order: seq<string>,
    targets: seq<Place>, roots: seq<Place>, sources: seq<string>)
    requires AllNormalised(volumes) && |earlier| == |before|
    requires Ascending(order) && forall d :: d in order <==> d in VolumeMap(volumes)
    requires RootsShown(targets, roots, sources)
    requires targets == before + Targets(rootfs, order) && sources == earlier + SourcesOf(VolumeMap(volumes), order)
    ensures AllShown(targets, roots, sources, rootfs, volumes)
  {
    assert |roots| == |targets| + 1 && |sources| == |targets|;
    hide VolumeMap, TableOf, Targets, SourcesOf, Ascending, AllNormalised, LeadsTo, ShowsVolume, RootsShown;
    forall below: Place, i: nat | LongestVolume(volumes, below, i)
      ensures ShowsVolume(targets, roots, sources, rootfs, below, volumes[i])
    {
      VolumeShown(volumes, before, earlier, rootfs, order, below, i);
      LeadsShows(targets, roots, sources, rootfs, below, volumes[i]);
    }
  }

  /**
    What the volumes need to arrive as they were written: their two keys are found, their own strings
    and the root's survive, and the destinations are spelled normally.
   */
  predicate Arrives(config: AxisConfig, rootfs: string, id: string) {
    Found(RuntimeFields(config, rootfs, id), 1) && Found(RuntimeFields(config, rootfs, id), 7) && AllKept(rootfs) &&
    KeptMap(VolumeMap(config.volumes)) && AllNormalised(config.volumes)
  }

  lemma {:induction false} SecondField(config: AxisConfig, rootfs: string, id: string)
    ensures |RuntimeFields(config, rootfs, id)| == 12
    ensures RuntimeFields(config, rootfs, id)[1] == ("rootfs", Str(rootfs))
    ensures RuntimeFields(config, rootfs, id)[7] == ("bind_mounts", Obj(VolumeDict(config.volumes)))
  {
    hide AllFound, VolumeDict;
    FirstFields(config, rootfs, id);
    LastFields(config, rootfs, id);
  }

  /** A file that loads has the root and the volumes, whatever became of its other strings. */
  lemma {:induction false} VolumesArrive(config: AxisConfig, rootfs: string, id: string)
    requires Arrives(config, rootfs, id) && Load(Dumps(RuntimeFields(config, rootfs, id))).Ok?
    ensures var loaded := Load(Dumps(RuntimeFields(config, rootfs, id))).value;
            loaded.rootfs == rootfs && loaded.bindMounts == VolumeMap(config.volumes)
  {
    var fields := RuntimeFields(config, rootfs, id);
    hide RuntimeFields, Load, Dumps, Found, AllKept, KeptMap, VolumeMap, VolumeDict, MapOf, AllNormalised, DocPieces,
      LayoutOf, Flat, StringField, MapField, ArrayField, Reread, RereadEntries, IsKeyName;
    KeyNames();
    SecondField(config, rootfs, id);
    DumpsFlat(fields);
    DumpsIsLayout(fields);
    Whitespace.LoadOk(Dumps(fields));
    StringReads(DocPieces(fields), fields, 1, "rootfs", Str(rootfs), true);
    MapReads(DocPieces(fields), fields, 7, "bind_mounts", VolumeDict(config.volumes), false);
    KeptReread(rootfs);
    VolumeDictMap(config.volumes);
    KeptEntries(VolumeDict(config.volumes));
  }

  /** Why the volumes of a container are not all mounted. */
  datatype Failure =
    | Malformed(error: Axisfile.ParseError)
    | NotADirectory(volume: VolumeSpec)
    | Unreadable(reason: Error)
    | NotMounted

  /**
    From the lines of the Axisfile, through runtime.json, to the mounts. When nothing fails, a path
    below the root filesystem shows the source of the last VOLUME of the longest destination that
    encloses it, at the rest of the path.
   */
  method MountVolumes(
    host: Axisfile.Host, lines: seq<string>, override: Option<seq<string>>, rootfs: string, id: string,
    isDir: string -> bool, ns: Namespace, refused: string -> bool)
    returns (r: Result<AxisConfig, Failure>)
    requires ns.Valid() && (rootfs == "" || rootfs[0] == '/')
    requires Axisfile.Parsed(host, lines, override).Ok? ==>
               Arrives(Axisfile.Parsed(host, lines, override).value, rootfs, id)
    modifies ns, ns.fs`dirs
    ensures ns.Valid()
    ensures r.Ok? ==> Axisfile.Parsed(host, lines, override) == Ok(r.value)
    ensures r.Ok? ==> AllShown(ns.targets, ns.roots, ns.sources, rootfs, r.value.volumes)
    ensures r.Err? && r.error.Malformed? ==> Axisfile.Parsed(host, lines, override) == Err(r.error.error)
    ensures r.Err? && r.error.NotADirectory? ==> !isDir(r.error.volume.source)
    ensures r.Err? && r.error.Unreadable? ==>
              (Axisfile.Parsed(host, lines, override).Ok? &&
               var fields := RuntimeFields(Axisfile.Parsed(host, lines, override).value, rootfs, id);
               Load(Dumps(fields)) == Err(r.error.reason))
    ensures r.Err? && r.error.NotMounted? ==>
              (Axisfile.Parsed(host, lines, override).Ok? &&
               exists d :: NotMountedAt(ns, Axisfile.Parsed(host, lines, override).value.volumes, rootfs, refused, d))
  {
    hide Load, Dumps, RuntimeFields, Found, AllKept, KeptMap, AllNormalised, VolumeMap, Axisfile.Parsed, Resolve,
      AllShown, TableOf, Targets, SourcesOf, Gained, FileTree.Tree, FileTree.Faithful, Ascending, IsSafeContainerPath,
      ViewIn, Look, RootsShown;
    var parsed := Axisfile.ParseAxisfile(host, lines, override);
    if parsed.Err? {
      return Err(Malformed(parsed.error));
    }
    var config := parsed.value;
    var text := WriteRuntimeConfig(config, rootfs, id, isDir);
    if text.Err? {
      return Err(NotADirectory(text.error));
    }
    var loaded := LoadRuntimeConfig(text.value);
    if loaded.Err? {
      return Err(Unreadable(loaded.error));
    }
    VolumesArrive(config, rootfs, id);
    ghost var before, earlier := ns.targets, ns.sources;
    NamespaceSizes(ns);
    var ok, mounted := ns.SetupBindMounts(loaded.value.bindMounts, loaded.value.rootfs, refused);
    if !ok {
      ghost var d :| StopsBefore(loaded.value.bindMounts, mounted, d) &&
        ns.Refuses(rootfs, d, loaded.value.bindMounts[d], refused(d));
      assert NotMountedAt(ns, config.volumes, rootfs, refused, d);
      return Err(NotMounted);
    }
    VolumesShown(config.volumes, before, earlier, rootfs, mounted, ns.targets, ns.roots, ns.sources);
    return Ok(config);
  }

  lemma {:induction false} NamespaceSizes(ns: Namespace)
    requires ns.Valid()
    ensures |ns.sources| == |ns.targets| && |ns.roots| == |ns.targets| + 1
  {
    hide TableOf, ViewIn;
  }

  /** The destination of some volume is refused, after those before it were mounted. */
  ghost predicate NotMountedAt(
    ns: Namespace, volumes: seq<VolumeSpec>, rootfs: string, refused: string -> bool, d: string)
    requires |ns.roots| == |ns.table| + 1
    reads ns, ns.fs
  {
    d in VolumeMap(volumes) && ns.Refuses(rootfs, d, VolumeMap(volumes)[d], refused(d))
  }
}
