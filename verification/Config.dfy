/** The configuration records that the Axisfile parser fills and the runtime configuration prints. */
module Config {
  import opened Wrappers
  import opened JsonText

  datatype CopySpec = CopySpec(source: string, destination: string)

  datatype VolumeSpec = VolumeSpec(source: string, destination: string)

  datatype PortMapping = PortMapping(host: nat, container: nat)

  /** `env` is a Python dict: its entries in insertion order, the keys distinct. */
  datatype AxisConfig = AxisConfig(
    image: string,
    command: seq<string>,
    name: string,
    hostname: Option<string>,
    workdir: string,
    env: seq<Entry>,
    copies: seq<CopySpec>,
    volumes: seq<VolumeSpec>,
    exposedPorts: seq<nat>,
    ports: seq<PortMapping>,
    memory: Option<string>,
    cpu: Option<string>,
    restart: Option<string>
  ) {
    function ResolvedHostname(): string {
      if hostname.Some? && hostname.value != "" then hostname.value else name
    }
  }

  // ----- Python dicts

  predicate DistinctKeys(entries: seq<Entry>) {
    forall i, j :: 0 <= i < j < |entries| ==> entries[i].key != entries[j].key
  }

  /** d[key] = value: a known key keeps its place, a new one goes last. */
  function DictPut(entries: seq<Entry>, key: string, value: string): (r: seq<Entry>)
    ensures |entries| <= |r| <= |entries| + 1
    ensures forall i :: 0 <= i < |entries| ==> r[i].key == entries[i].key
    ensures |r| > |entries| ==> r[|entries|] == Entry(key, value)
    ensures |r| > |entries| ==> forall i :: 0 <= i < |entries| ==> entries[i].key != key
  {
    if entries == [] then [Entry(key, value)]
    else if entries[0].key == key then [Entry(key, value)] + entries[1..]
    else [entries[0]] + DictPut(entries[1..], key, value)
  }

  lemma DictPutDistinct(entries: seq<Entry>, key: string, value: string)
    requires DistinctKeys(entries)
    ensures DistinctKeys(DictPut(entries, key, value))
  {
  }

  lemma {:induction false} MapOfConcat(a: seq<Entry>, b: seq<Entry>)
    ensures MapOf(a + b) == MapOf(a) + MapOf(b)
  {
    if b == [] {
      assert a + b == a;
    } else {
      var n := |b| - 1;
      assert (a + b)[..|a + b| - 1] == a + b[..n] && (a + b)[|a + b| - 1] == b[n];
      MapOfConcat(a, b[..n]);
    }
  }

  lemma {:induction false} MapOfOne(e: Entry)
    ensures MapOf([e]) == map[e.key := e.value]
  {
    assert [e][..0] == [];
  }

  lemma {:induction false} MapOfKeys(entries: seq<Entry>)
    ensures forall k :: k in MapOf(entries) <==> exists i :: 0 <= i < |entries| && entries[i].key == k
  {
    if entries != [] {
      var n := |entries| - 1;
      MapOfKeys(entries[..n]);
      forall k ensures k in MapOf(entries) <==> exists i :: 0 <= i < |entries| && entries[i].key == k {
        if k in MapOf(entries[..n]) {
          var i :| 0 <= i < n && entries[..n][i].key == k;
          assert entries[i].key == k;
        }
        if i :| 0 <= i < |entries| && entries[i].key == k {
          assert i < n ==> entries[..n][i].key == k;
        }
      }
    }
  }

  /** With distinct keys, every entry is the one its key leads to. */
  lemma {:induction false} MapOfDistinct(entries: seq<Entry>)
    requires DistinctKeys(entries)
    ensures forall i :: 0 <= i < |entries| ==>
              entries[i].key in MapOf(entries) && MapOf(entries)[entries[i].key] == entries[i].value
  {
    if entries != [] {
      var n := |entries| - 1;
      MapOfDistinct(entries[..n]);
      forall i | 0 <= i < |entries|
        ensures entries[i].key in MapOf(entries) && MapOf(entries)[entries[i].key] == entries[i].value
      {
        assert i < n ==> entries[..n][i] == entries[i];
      }
    }
  }

  lemma {:induction false} MapOfCons(e: Entry, rest: seq<Entry>)
    ensures MapOf([e] + rest) == map[e.key := e.value] + MapOf(rest)
  {
    MapOfOne(e);
    MapOfConcat([e], rest);
  }

  lemma {:induction false} FreshKey(entries: seq<Entry>)
    requires DistinctKeys(entries) && entries != []
    ensures entries[0].key !in MapOf(entries[1..])
  {
    MapOfKeys(entries[1..]);
    assert forall i :: 0 <= i < |entries[1..]| ==> entries[1..][i].key == entries[i + 1].key != entries[0].key;
  }

  lemma PutInSum(a: map<string, string>, b: map<string, string>, key: string, value: string)
    ensures (a + b)[key := value] == a + b[key := value]
    ensures key !in b && a.Keys == {key} ==> (a + b)[key := value] == map[key := value] + b
  {
  }

  /** Storing in a dict and storing in a map agree. */
  lemma {:induction false} DictPutMap(entries: seq<Entry>, key: string, value: string)
    requires DistinctKeys(entries)
    ensures MapOf(DictPut(entries, key, value)) == MapOf(entries)[key := value]
  {
    if entries == [] {
      MapOfOne(Entry(key, value));
    } else {
      var e, rest := entries[0], entries[1..];
      assert entries == [e] + rest;
      MapOfCons(e, rest);
      PutInSum(map[e.key := e.value], MapOf(rest), key, value);
      hide MapOf;
      if e.key == key {
        FreshKey(entries);
        MapOfCons(Entry(key, value), rest);
      } else {
        DictPutMap(rest, key, value);
        MapOfCons(e, DictPut(rest, key, value));
      }
    }
  }

  /** The dict comprehension {v.destination: v.source for v in volumes}. */
  function VolumeDict(volumes: seq<VolumeSpec>): (r: seq<Entry>)
    ensures DistinctKeys(r)
  {
    if volumes == [] then []
    else
      var last := volumes[|volumes| - 1];
      var before := VolumeDict(volumes[..|volumes| - 1]);
      DictPutDistinct(before, last.destination, last.source);
      DictPut(before, last.destination, last.source)
  }

  function VolumeMap(volumes: seq<VolumeSpec>): map<string, string> {
    if volumes == [] then map[]
    else
      var last := volumes[|volumes| - 1];
      VolumeMap(volumes[..|volumes| - 1])[last.destination := last.source]
  }

  lemma {:induction false} VolumeDictMap(volumes: seq<VolumeSpec>)
    ensures MapOf(VolumeDict(volumes)) == VolumeMap(volumes)
  {
    if volumes != [] {
      var before := volumes[..|volumes| - 1];
      VolumeDictMap(before);
      DictPutMap(VolumeDict(before), volumes[|volumes| - 1].destination, volumes[|volumes| - 1].source);
    }
  }
}
