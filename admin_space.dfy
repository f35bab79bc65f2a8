/** What the admin-space getter answers: synthetic keys under the plugin's
    status key, each listed when it intersects the selector. */
module AdminSpace {
  import opened Types

  /** A response value: a string, or a payload produced outside this model
      (a backend's admin status, a storage's reply). */
  datatype Value = Text(text: string) | Payload(token: nat)

  datatype Response = Response(key: string, value: Value)

  /** What the getter consults outside the runtime's maps: key-expression
      intersection, the build version, a backend's admin status, and a
      storage worker's reply to `GetStatus` (None when it does not answer). */
  datatype Introspection = Introspection(
    intersect: (string, string) -> bool,
    version: string,
    adminStatus: Backend -> Value,
    storageStatus: StorageHandle -> Option<Value>)

  function VersionKey(root: string): string { root + "/version" }
  function VolumeKey(root: string, volumeId: string): string { root + "/volumes/" + volumeId }
  function PathKey(root: string, volumeId: string): string { VolumeKey(root, volumeId) + "/__path__" }
  function StorageKey(root: string, storageName: string): string { root + "/storages/" + storageName }

  function ResponseSet(responses: seq<Response>): set<Response> {
    set r | r in responses
  }

  function VersionEntries(root: string, selector: string, world: Introspection): set<Response> {
    if world.intersect(VersionKey(root), selector) then {Response(VersionKey(root), Text(world.version))} else {}
  }

  /** The `__path__` entries of the volumes in ids. */
  function PathEntries(root: string, selector: string, world: Introspection,
                       volumes: map<string, VolumeHandle>, ids: set<string>): set<Response> {
    set id | id in ids && id in volumes && world.intersect(PathKey(root, id), selector)
      :: Response(PathKey(root, id), Text(volumes[id].libPath))
  }

  /** The admin-status entries of the volumes in ids. */
  function StatusEntries(root: string, selector: string, world: Introspection,
                         volumes: map<string, VolumeHandle>, ids: set<string>): set<Response> {
    set id | id in ids && id in volumes && world.intersect(VolumeKey(root, id), selector)
      :: Response(VolumeKey(root, id), world.adminStatus(volumes[id].backend))
  }

  /** The entries of the storages in names, within one volume's storage map. */
  function StorageEntriesOf(root: string, selector: string, world: Introspection,
                            storages: map<string, StorageHandle>, names: set<string>): set<Response> {
    set n | n in names && n in storages && world.intersect(StorageKey(root, n), selector)
                       && world.storageStatus(storages[n]).Some?
      :: Response(StorageKey(root, n), world.storageStatus(storages[n]).value)
  }

  /** The entries of every storage of the volumes in ids. */
  function StorageEntries(root: string, selector: string, world: Introspection,
                          storages: map<string, map<string, StorageHandle>>, ids: set<string>): set<Response> {
    set v, n | v in ids && v in storages && n in storages[v] && world.intersect(StorageKey(root, n), selector)
                && world.storageStatus(storages[v][n]).Some?
      :: Response(StorageKey(root, n), world.storageStatus(storages[v][n]).value)
  }

  /** Everything the getter lists for a state. */
  function Responses(root: string, selector: string, world: Introspection, s: State): set<Response> {
    VersionEntries(root, selector, world)
    + PathEntries(root, selector, world, s.volumes, s.volumes.Keys)
    + StatusEntries(root, selector, world, s.volumes, s.volumes.Keys)
    + StorageEntries(root, selector, world, s.storages, s.storages.Keys)
  }

  /** Where a response comes from: the version, a volume's `__path__` or
      admin-status entry, or one storage of one volume. */
  datatype Origin =
    | VersionOrigin
    | PathOrigin(volumeId: string)
    | StatusOrigin(volumeId: string)
    | StorageOrigin(volumeId: string, storageName: string)

  /** The response an origin contributes in state s, or None when it
      contributes nothing (unknown, key not intersecting, no answer). */
  function EntryOf(root: string, selector: string, world: Introspection, s: State, o: Origin): Option<Response> {
    match o
    case VersionOrigin =>
      if world.intersect(VersionKey(root), selector)
      then Some(Response(VersionKey(root), Text(world.version))) else None
    case PathOrigin(id) =>
      if id in s.volumes && world.intersect(PathKey(root, id), selector)
      then Some(Response(PathKey(root, id), Text(s.volumes[id].libPath))) else None
    case StatusOrigin(id) =>
      if id in s.volumes && world.intersect(VolumeKey(root, id), selector)
      then Some(Response(VolumeKey(root, id), world.adminStatus(s.volumes[id].backend))) else None
    case StorageOrigin(v, n) =>
      if v in s.storages && n in s.storages[v] && world.intersect(StorageKey(root, n), selector)
         && world.storageStatus(s.storages[v][n]).Some?
      then Some(Response(StorageKey(root, n), world.storageStatus(s.storages[v][n]).value)) else None
  }

  ghost predicate Distinct(origins: seq<Origin>) {
    forall i, j :: 0 <= i < j < |origins| ==> origins[i] != origins[j]
  }

  /** responses[i] is the response of origins[i], for every i. */
  ghost predicate Traced(root: string, selector: string, world: Introspection, s: State,
                         responses: seq<Response>, origins: seq<Origin>) {
    |origins| == |responses|
    && forall i :: 0 <= i < |origins| ==> EntryOf(root, selector, world, s, origins[i]) == Some(responses[i])
  }

  /** The responses are, in some order, one per contributing origin: each
      comes from an origin, no origin is used twice, and none is missing. */
  ghost predicate ListsExactly(root: string, selector: string, world: Introspection, s: State,
                               responses: seq<Response>, origins: seq<Origin>) {
    Traced(root, selector, world, s, responses, origins)
    && Distinct(origins)
    && forall o :: EntryOf(root, selector, world, s, o).Some? ==> o in origins
  }

  // ---------------------------------------------------------------------------
  // Properties
  // ---------------------------------------------------------------------------

  lemma ResponseSetAppend(a: seq<Response>, b: seq<Response>)
    ensures ResponseSet(a + b) == ResponseSet(a) + ResponseSet(b)
  {
    assert forall r :: r in a + b <==> r in a || r in b;
  }

  lemma TracedAppend(root: string, selector: string, world: Introspection, s: State,
                     a: seq<Response>, oa: seq<Origin>, b: seq<Response>, ob: seq<Origin>)
    requires Traced(root, selector, world, s, a, oa) && Traced(root, selector, world, s, b, ob)
    ensures Traced(root, selector, world, s, a + b, oa + ob)
  {
    forall i | 0 <= i < |oa + ob|
      ensures EntryOf(root, selector, world, s, (oa + ob)[i]) == Some((a + b)[i])
    {
      if i >= |oa| {
        assert (oa + ob)[i] == ob[i - |oa|] && (a + b)[i] == b[i - |a|];
      }
    }
  }

  lemma DistinctAppend(a: seq<Origin>, b: seq<Origin>)
    requires Distinct(a) && Distinct(b)
    requires forall i, j :: 0 <= i < |a| && 0 <= j < |b| ==> a[i] != b[j]
    ensures Distinct(a + b)
  {
    forall i, j | 0 <= i < j < |a + b| ensures (a + b)[i] != (a + b)[j] {
      if j < |a| {
      } else if i < |a| {
        assert (a + b)[j] == b[j - |a|];
      } else {
        assert (a + b)[i] == b[i - |a|] && (a + b)[j] == b[j - |a|];
      }
    }
  }

  /** The volume entries listed so far: each response traced to a distinct
      `__path__` or status origin of a visited volume, and every contributing
      origin of a visited volume present. */
  ghost predicate VolumesPart(root: string, selector: string, world: Introspection, s: State,
                              responses: seq<Response>, origins: seq<Origin>, done: set<string>) {
    Traced(root, selector, world, s, responses, origins) && Distinct(origins)
    && (forall i :: 0 <= i < |origins| ==>
          (origins[i].PathOrigin? || origins[i].StatusOrigin?) && origins[i].volumeId in done)
    && (forall id :: id in done && EntryOf(root, selector, world, s, PathOrigin(id)).Some? ==> PathOrigin(id) in origins)
    && (forall id :: id in done && EntryOf(root, selector, world, s, StatusOrigin(id)).Some? ==> StatusOrigin(id) in origins)
  }

  /** The storage entries of the visited storages of one volume. */
  ghost predicate StorageMapPart(root: string, selector: string, world: Introspection, s: State,
                                 responses: seq<Response>, origins: seq<Origin>, volumeId: string, done: set<string>) {
    Traced(root, selector, world, s, responses, origins) && Distinct(origins)
    && (forall i :: 0 <= i < |origins| ==>
          origins[i].StorageOrigin? && origins[i].volumeId == volumeId && origins[i].storageName in done)
    && (forall n :: n in done && EntryOf(root, selector, world, s, StorageOrigin(volumeId, n)).Some? ==>
          StorageOrigin(volumeId, n) in origins)
  }

  /** The storage entries of every storage of the visited volumes. */
  ghost predicate StoragesPart(root: string, selector: string, world: Introspection, s: State,
                               responses: seq<Response>, origins: seq<Origin>, done: set<string>) {
    Traced(root, selector, world, s, responses, origins) && Distinct(origins)
    && (forall i :: 0 <= i < |origins| ==> origins[i].StorageOrigin? && origins[i].volumeId in done)
    && (forall v, n :: v in done && EntryOf(root, selector, world, s, StorageOrigin(v, n)).Some? ==>
          StorageOrigin(v, n) in origins)
  }

  lemma VolumesPartStep(root: string, selector: string, world: Introspection, s: State,
                        a: seq<Response>, oa: seq<Origin>, done: set<string>,
                        b: seq<Response>, ob: seq<Origin>, id: string)
    requires VolumesPart(root, selector, world, s, a, oa, done) && id !in done
    requires VolumesPart(root, selector, world, s, b, ob, {id})
    ensures VolumesPart(root, selector, world, s, a + b, oa + ob, done + {id})
  {
    TracedAppend(root, selector, world, s, a, oa, b, ob);
    DistinctAppend(oa, ob);
    forall i | 0 <= i < |oa + ob|
      ensures ((oa + ob)[i].PathOrigin? || (oa + ob)[i].StatusOrigin?) && (oa + ob)[i].volumeId in done + {id}
    {
      if i >= |oa| {
        assert (oa + ob)[i] == ob[i - |oa|];
      }
    }
  }

  lemma StorageMapPartStep(root: string, selector: string, world: Introspection, s: State,
                           a: seq<Response>, oa: seq<Origin>, volumeId: string, done: set<string>,
                           b: seq<Response>, ob: seq<Origin>, n: string)
    requires StorageMapPart(root, selector, world, s, a, oa, volumeId, done) && n !in done
    requires StorageMapPart(root, selector, world, s, b, ob, volumeId, {n})
    ensures StorageMapPart(root, selector, world, s, a + b, oa + ob, volumeId, done + {n})
  {
    TracedAppend(root, selector, world, s, a, oa, b, ob);
    DistinctAppend(oa, ob);
    forall i | 0 <= i < |oa + ob|
      ensures (oa + ob)[i].StorageOrigin? && (oa + ob)[i].volumeId == volumeId
              && (oa + ob)[i].storageName in done + {n}
    {
      if i >= |oa| {
        assert (oa + ob)[i] == ob[i - |oa|];
      }
    }
  }

  /** A volume whose storages are all visited is a visited volume. */
  lemma StorageMapPartComplete(root: string, selector: string, world: Introspection, s: State,
                               responses: seq<Response>, origins: seq<Origin>, volumeId: string)
    requires volumeId in s.storages
    requires StorageMapPart(root, selector, world, s, responses, origins, volumeId, s.storages[volumeId].Keys)
    ensures StoragesPart(root, selector, world, s, responses, origins, {volumeId})
  {
  }

  lemma StoragesPartStep(root: string, selector: string, world: Introspection, s: State,
                         a: seq<Response>, oa: seq<Origin>, done: set<string>,
                         b: seq<Response>, ob: seq<Origin>, v: string)
    requires StoragesPart(root, selector, world, s, a, oa, done) && v !in done
    requires StoragesPart(root, selector, world, s, b, ob, {v})
    ensures StoragesPart(root, selector, world, s, a + b, oa + ob, done + {v})
  {
    TracedAppend(root, selector, world, s, a, oa, b, ob);
    DistinctAppend(oa, ob);
    forall i | 0 <= i < |oa + ob|
      ensures (oa + ob)[i].StorageOrigin? && (oa + ob)[i].volumeId in done + {v}
    {
      if i >= |oa| {
        assert (oa + ob)[i] == ob[i - |oa|];
      }
    }
  }

  /** The getter's three parts together list every entry exactly once. */
  lemma GetterListsExactly(root: string, selector: string, world: Introspection, s: State,
                           version: seq<Response>, volumeList: seq<Response>, volumeOrigins: seq<Origin>,
                           storageList: seq<Response>, storageOrigins: seq<Origin>)
    requires version == if world.intersect(VersionKey(root), selector)
                        then [Response(VersionKey(root), Text(world.version))] else []
    requires VolumesPart(root, selector, world, s, volumeList, volumeOrigins, s.volumes.Keys)
    requires StoragesPart(root, selector, world, s, storageList, storageOrigins, s.storages.Keys)
    ensures ListsExactly(root, selector, world, s, version + volumeList + storageList,
                         (if world.intersect(VersionKey(root), selector) then [VersionOrigin] else [])
                         + volumeOrigins + storageOrigins)
  {
    var vo: seq<Origin> := if world.intersect(VersionKey(root), selector) then [VersionOrigin] else [];
    TracedAppend(root, selector, world, s, version, vo, volumeList, volumeOrigins);
    DistinctAppend(vo, volumeOrigins);
    TracedAppend(root, selector, world, s, version + volumeList, vo + volumeOrigins, storageList, storageOrigins);
    forall i, j | 0 <= i < |vo + volumeOrigins| && 0 <= j < |storageOrigins|
      ensures (vo + volumeOrigins)[i] != storageOrigins[j]
    {
      if i >= |vo| {
        assert (vo + volumeOrigins)[i] == volumeOrigins[i - |vo|];
      }
    }
    DistinctAppend(vo + volumeOrigins, storageOrigins);
    var origins := vo + volumeOrigins + storageOrigins;
    forall o | EntryOf(root, selector, world, s, o).Some?
      ensures o in origins
    {
      match o
      case VersionOrigin =>
        assert origins[0] == o;
      case PathOrigin(id) =>
        assert o in volumeOrigins;
      case StatusOrigin(id) =>
        assert o in volumeOrigins;
      case StorageOrigin(v, n) =>
        assert o in storageOrigins;
    }
  }

  /** Storage keys carry no volume id: two storages of one name on two
      volumes whose workers give the same answer contribute the same response
      twice, so the getter's result holds it at two positions. */
  lemma SharedStorageNameListedTwice(root: string, selector: string, world: Introspection, s: State,
                                     responses: seq<Response>, origins: seq<Origin>,
                                     v1: string, v2: string, n: string, answer: Value)
    requires ListsExactly(root, selector, world, s, responses, origins)
    requires v1 != v2 && v1 in s.storages && v2 in s.storages && n in s.storages[v1] && n in s.storages[v2]
    requires world.intersect(StorageKey(root, n), selector)
    requires world.storageStatus(s.storages[v1][n]) == Some(answer)
    requires world.storageStatus(s.storages[v2][n]) == Some(answer)
    ensures exists i, j :: 0 <= i < j < |responses|
              && responses[i] == responses[j] == Response(StorageKey(root, n), answer)
  {
    var o1, o2 := StorageOrigin(v1, n), StorageOrigin(v2, n);
    assert EntryOf(root, selector, world, s, o1).Some? && EntryOf(root, selector, world, s, o2).Some?;
    var i :| 0 <= i < |origins| && origins[i] == o1;
    var j :| 0 <= j < |origins| && origins[j] == o2;
    assert i != j;
    if i < j {
      assert responses[i] == responses[j];
    } else {
      assert responses[j] == responses[i];
    }
  }

  /** Adding one volume to the visited ones adds its two entries. */
  lemma VolumeEntriesStep(root: string, selector: string, world: Introspection,
                          volumes: map<string, VolumeHandle>, ids: set<string>, id: string)
    requires id in volumes
    ensures PathEntries(root, selector, world, volumes, ids + {id})
         == PathEntries(root, selector, world, volumes, ids)
          + (if world.intersect(PathKey(root, id), selector)
             then {Response(PathKey(root, id), Text(volumes[id].libPath))} else {})
    ensures StatusEntries(root, selector, world, volumes, ids + {id})
         == StatusEntries(root, selector, world, volumes, ids)
          + (if world.intersect(VolumeKey(root, id), selector)
             then {Response(VolumeKey(root, id), world.adminStatus(volumes[id].backend))} else {})
  {
  }

  /** Adding one storage name to the visited ones adds its entry, if its
      worker answers. */
  lemma StorageEntriesOfStep(root: string, selector: string, world: Introspection,
                             storages: map<string, StorageHandle>, names: set<string>, n: string)
    requires n in storages
    ensures StorageEntriesOf(root, selector, world, storages, names + {n})
         == StorageEntriesOf(root, selector, world, storages, names)
          + (if world.intersect(StorageKey(root, n), selector) && world.storageStatus(storages[n]).Some?
             then {Response(StorageKey(root, n), world.storageStatus(storages[n]).value)} else {})
  {
  }

  /** Adding one volume to the visited ones adds the entries of all its storages. */
  lemma StorageEntriesStep(root: string, selector: string, world: Introspection,
                           storages: map<string, map<string, StorageHandle>>, ids: set<string>, v: string)
    requires v in storages
    ensures StorageEntries(root, selector, world, storages, ids + {v})
         == StorageEntries(root, selector, world, storages, ids)
          + StorageEntriesOf(root, selector, world, storages[v], storages[v].Keys)
  {
    var lhs := StorageEntries(root, selector, world, storages, ids + {v});
    var rhs := StorageEntries(root, selector, world, storages, ids)
             + StorageEntriesOf(root, selector, world, storages[v], storages[v].Keys);
    forall r | r in lhs ensures r in rhs {
      var w, n :| w in ids + {v} && w in storages && n in storages[w]
                  && world.intersect(StorageKey(root, n), selector)
                  && world.storageStatus(storages[w][n]).Some?
                  && r == Response(StorageKey(root, n), world.storageStatus(storages[w][n]).value);
      if w == v {
        assert r in StorageEntriesOf(root, selector, world, storages[v], storages[v].Keys);
      } else {
        assert r in StorageEntries(root, selector, world, storages, ids);
      }
    }
    forall r | r in rhs ensures r in lhs {
      if r in StorageEntries(root, selector, world, storages, ids) {
        var w, n :| w in ids && w in storages && n in storages[w]
                    && world.intersect(StorageKey(root, n), selector)
                    && world.storageStatus(storages[w][n]).Some?
                    && r == Response(StorageKey(root, n), world.storageStatus(storages[w][n]).value);
        assert w in ids + {v};
      } else {
        var n :| n in storages[v] && world.intersect(StorageKey(root, n), selector)
                 && world.storageStatus(storages[v][n]).Some?
                 && r == Response(StorageKey(root, n), world.storageStatus(storages[v][n]).value);
        assert v in ids + {v};
      }
    }
  }

  /** Every listed key lies under the root the getter was given: each key is
      the root followed by "/version", "/volumes/<id>", "/volumes/<id>/__path__"
      or "/storages/<name>". */
  lemma ResponseKeysUnderRoot(root: string, selector: string, world: Introspection, s: State, r: Response)
    requires r in Responses(root, selector, world, s)
    ensures r.key == VersionKey(root)
         || (exists id :: id in s.volumes && (r.key == VolumeKey(root, id) || r.key == PathKey(root, id)))
         || (exists v, n :: v in s.storages && n in s.storages[v] && r.key == StorageKey(root, n))
    ensures |root| <= |r.key| && r.key[..|root|] == root
  {
    if r in StorageEntries(root, selector, world, s.storages, s.storages.Keys) {
      var v, n :| v in s.storages && n in s.storages[v] && world.intersect(StorageKey(root, n), selector)
                  && world.storageStatus(s.storages[v][n]).Some?
                  && r == Response(StorageKey(root, n), world.storageStatus(s.storages[v][n]).value);
      assert (root + "/storages/" + n)[..|root|] == root;
    } else if r in PathEntries(root, selector, world, s.volumes, s.volumes.Keys) {
      var id :| id in s.volumes && r.key == PathKey(root, id);
      assert (root + "/volumes/" + id + "/__path__")[..|root|] == root;
    } else if r in StatusEntries(root, selector, world, s.volumes, s.volumes.Keys) {
      var id :| id in s.volumes && r.key == VolumeKey(root, id);
      assert (root + "/volumes/" + id)[..|root|] == root;
    } else {
      assert (root + "/version")[..|root|] == root;
    }
  }

  /** A volume's `__path__` entry reports its library path (the sentinel for
      the built-in backend), and is listed exactly when its key intersects
      the selector. */
  lemma PathEntryListed(root: string, selector: string, world: Introspection, s: State, id: string)
    requires id in s.volumes
    ensures world.intersect(PathKey(root, id), selector) <==>
            Response(PathKey(root, id), Text(s.volumes[id].libPath)) in Responses(root, selector, world, s)
  {
    var r := Response(PathKey(root, id), Text(s.volumes[id].libPath));
    if r in PathEntries(root, selector, world, s.volumes, s.volumes.Keys) {
      var id' :| id' in s.volumes && world.intersect(PathKey(root, id'), selector)
                 && r == Response(PathKey(root, id'), Text(s.volumes[id'].libPath));
      PathKeyInjective(root, id, id');
    }
  }

  /** Two volumes never share a `__path__` key. */
  lemma PathKeyInjective(root: string, a: string, b: string)
    ensures PathKey(root, a) == PathKey(root, b) <==> a == b
  {
    var p := root + "/volumes/";
    var q := "/__path__";
    assert PathKey(root, a) == p + a + q && PathKey(root, b) == p + b + q;
    if PathKey(root, a) == PathKey(root, b) {
      assert a == (p + a + q)[|p|..|p| + |a|];
      assert b == (p + b + q)[|p|..|p| + |b|];
    }
  }
}
