/** The storage runtime's operations as functions of its state, and what they
    are proved to do: which keys each adds or removes, which failures leave the
    state untouched, and the invariant that storages live only under registered
    volumes. The class in module Runtime is proved to compute exactly these. */
module RuntimeSpec {
  import opened Types
  import AdminSpace

  /** Every volume that has a storage map is a registered volume. */
  predicate Inv(s: State) {
    s.storages.Keys <= s.volumes.Keys
  }

  /** The plugin's admin-space root for one router and one plugin name. */
  function StatusKey(pid: string, pluginName: string): string {
    "/@/router/" + pid + "/status/plugins/" + pluginName
  }

  /** The index of the first path that loads as a library (|paths| if none). */
  function FirstLoadable(host: Host, paths: seq<string>): (k: nat)
    ensures k <= |paths|
    ensures forall j :: 0 <= j < k ==> host.loadFile(paths[j]).None?
    ensures k < |paths| ==> host.loadFile(paths[k]).Some?
    decreases |paths|
  {
    if |paths| == 0 then 0
    else if host.loadFile(paths[0]).Some? then 0
    else 1 + FirstLoadable(host, paths[1..])
  }

  /** Registering a volume from a loaded library: look up the entry point, call
      it, and on success insert (or overwrite) the volume's handle. */
  function LoadedBackendFromLib(s: State, host: Host, volumeId: string, config: VolumeConfig, loaded: Loaded): Applied
  {
    if host.hasEntryPoint(loaded.lib) then
      match host.createBackend(loaded.lib, config)
      case Created(backend) =>
        Applied(s.(volumes := s.volumes[volumeId := VolumeHandle(backend, Some(loaded.lib), loaded.path)]), Ok)
      case Failed(e) => Applied(s, Err(BackendCreateFailed(volumeId, loaded.path, e)))
    else
      Applied(s, Err(EntryPointMissing(volumeId, loaded.path)))
  }

  /** The library file name searched for a backend name. */
  function BackendFilename(backendName: string): string {
    BACKEND_LIB_PREFIX + backendName
  }

  /** `spawn_volume` as written. In the by-paths branch the loop's `break`
      falls through to the final error, so that branch always fails, even
      after it has registered the volume. */
  function SpawnVolume(s: State, host: Host, config: VolumeConfig): Applied
  {
    var volumeId := config.name;
    if volumeId == MEMORY_BACKEND_NAME then
      match host.createMemoryBackend(config)
      case Created(backend) =>
        Applied(s.(volumes := s.volumes[volumeId := VolumeHandle(backend, None, STATIC_MEMORY_PATH)]), Ok)
      case Failed(e) => Applied(s, Err(MemoryBackendFailed(e)))
    else
      match config.search
      case ByPaths(paths) =>
        var k := FirstLoadable(host, paths);
        if k == |paths| then Applied(s, Err(NoLibraryInPaths(volumeId, paths)))
        else
          var a := LoadedBackendFromLib(s, host, volumeId, config, host.loadFile(paths[k]).value);
          if a.outcome.Err? then a else Applied(a.state, Err(NoLibraryInPaths(volumeId, paths)))
      case ByName(backendName) =>
        var filename := BackendFilename(backendName);
        match host.searchAndLoad(filename)
        case Some(loaded) => LoadedBackendFromLib(s, host, volumeId, config, loaded)
        case None => Applied(s, Err(NoLibraryByName(volumeId, filename)))
  }

  /** The by-paths branch of `spawn_volume` as evidently intended: a
      successful load is a success. */
  function SpawnVolumeIntended(s: State, host: Host, config: VolumeConfig): (a: Applied)
    ensures a.outcome.Err? ==> a.state == s
    ensures a.state.storages == s.storages
    ensures a.state.volumes.Keys <= s.volumes.Keys + {config.name}
  {
    match config.search
    case ByPaths(paths) =>
      if config.name == MEMORY_BACKEND_NAME then SpawnVolume(s, host, config)
      else
        var k := FirstLoadable(host, paths);
        if k == |paths| then Applied(s, Err(NoLibraryInPaths(config.name, paths)))
        else LoadedBackendFromLib(s, host, config.name, config, host.loadFile(paths[k]).value)
    case ByName(_) => SpawnVolume(s, host, config)
  }

  /** `kill_volume`: drop the volume's storages, then its handle. */
  function KillVolume(s: State, volumeId: string): State {
    State(s.volumes - {volumeId}, s.storages - {volumeId})
  }

  /** The control handles `kill_volume` sends `Stop` to. */
  function StoppedByKillVolume(s: State, volumeId: string): set<StorageHandle> {
    if volumeId in s.storages then s.storages[volumeId].Values else {}
  }

  /** The control handle `kill_storage` sends `Stop` to, if the storage is known. */
  function StoppedByKillStorage(s: State, config: StorageConfig): Option<StorageHandle> {
    if config.volumeId in s.storages && config.name in s.storages[config.volumeId] then
      Some(s.storages[config.volumeId][config.name])
    else None
  }

  /** `spawn_storage`: start a worker on the named volume's backend and record
      its control handle under (volume, storage name). */
  function SpawnStorage(s: State, host: Host, statusKey: string, config: StorageConfig): Applied
  {
    var volumeId := config.volumeId;
    if volumeId in s.volumes then
      match host.startStorage(AdminSpace.StorageKey(statusKey, config.name), config, s.volumes[volumeId].backend)
      case Created(handle) =>
        var inner := if volumeId in s.storages then s.storages[volumeId] else map[];
        Applied(s.(storages := s.storages[volumeId := inner[config.name := handle]]), Ok)
      case Failed(e) => Applied(s, Err(WorkerStartFailed(e)))
    else
      Applied(s, Err(VolumeNotFound(volumeId)))
  }

  /** One diff applied to the state. */
  function ApplyDiff(s: State, host: Host, statusKey: string, diff: ConfigDiff): Applied {
    match diff
    case DeleteVolume(volume) => Applied(KillVolume(s, volume.name), Ok)
    case AddVolume(volume) => SpawnVolume(s, host, volume)
    case DeleteStorage(_) => Applied(s, Ok)
    case AddStorage(config) => SpawnStorage(s, host, statusKey, config)
  }

  /** `update`: the diffs in order, stopping at the first error. */
  function Update(s: State, host: Host, statusKey: string, diffs: seq<ConfigDiff>): Applied
    decreases |diffs|
  {
    if |diffs| == 0 then Applied(s, Ok)
    else
      var a := ApplyDiff(s, host, statusKey, diffs[0]);
      if a.outcome.Err? then a else Update(a.state, host, statusKey, diffs[1..])
  }

  /** The diffs the runtime applies at start-up: every configured volume, then
      every configured storage. */
  function StartupDiffs(volumes: seq<VolumeConfig>, storages: seq<StorageConfig>): seq<ConfigDiff> {
    seq(|volumes|, i requires 0 <= i < |volumes| => AddVolume(volumes[i]))
    + seq(|storages|, i requires 0 <= i < |storages| => AddStorage(storages[i]))
  }

  /** The built-in volume's configuration registered at start-up. */
  function MemoryVolumeConfig(): VolumeConfig {
    VolumeConfig(MEMORY_BACKEND_NAME, ByName(MEMORY_BACKEND_NAME), false, map[])
  }

  /** Start-up: the built-in volume first, then the configured diffs. */
  function Startup(host: Host, statusKey: string, volumes: seq<VolumeConfig>, storages: seq<StorageConfig>): Applied {
    var m := SpawnVolume(State(map[], map[]), host, MemoryVolumeConfig());
    if m.outcome.Err? then m else Update(m.state, host, statusKey, StartupDiffs(volumes, storages))
  }

  // ---------------------------------------------------------------------------
  // Properties
  // ---------------------------------------------------------------------------

  /** The layout of `status_key`: it lies in the router's own admin space
      "/@/router/<pid>/", the plugin name is what follows the fixed
      "/status/plugins/" segment (so two plugins, or two routers, never share
      a root), and every admin key a storage is started with lies under it. */
  lemma StatusKeyLayout(pid: string, pluginName: string, storageName: string)
    ensures var root := StatusKey(pid, pluginName);
      var plugins := "/@/router/" + pid + "/status/plugins/";
      ("/@/router/" + pid + "/") <= root
      && plugins <= root && root[|plugins|..] == pluginName
      && root <= AdminSpace.StorageKey(root, storageName)
  {
    var root := StatusKey(pid, pluginName);
    var router := "/@/router/" + pid + "/";
    var plugins := "/@/router/" + pid + "/status/plugins/";
    assert plugins == router + "status/plugins/";
    assert root == plugins + pluginName;
    assert root[..|router|] == router;
  }

  /** `spawn_volume` for the built-in volume: the in-memory backend is
      registered with no library and the sentinel path, or the backend's
      error is returned and nothing changes. */
  lemma SpawnVolumeMemory(s: State, host: Host, config: VolumeConfig)
    requires config.name == MEMORY_BACKEND_NAME
    ensures var a := SpawnVolume(s, host, config);
      match host.createMemoryBackend(config)
      case Created(b) =>
        a.outcome == Ok && a.state.storages == s.storages
        && a.state.volumes == s.volumes["memory" := VolumeHandle(b, None, "<static-memory>")]
      case Failed(e) => a == Applied(s, Err(MemoryBackendFailed(e)))
  {
  }

  /** `spawn_volume` by name: it searches for "zbackend_" + the backend name;
      a missing library, a missing entry point or a failing creation each
      return their error with the state unchanged; success registers the
      volume with the loaded library and its path. */
  lemma SpawnVolumeByName(s: State, host: Host, config: VolumeConfig, backendName: string)
    requires config.name != MEMORY_BACKEND_NAME && config.search == ByName(backendName)
    ensures var a := SpawnVolume(s, host, config);
      var filename := "zbackend_" + backendName;
      match host.searchAndLoad(filename)
      case None => a == Applied(s, Err(NoLibraryByName(config.name, filename)))
      case Some(l) =>
        if !host.hasEntryPoint(l.lib) then a == Applied(s, Err(EntryPointMissing(config.name, l.path)))
        else match host.createBackend(l.lib, config)
          case Failed(e) => a == Applied(s, Err(BackendCreateFailed(config.name, l.path, e)))
          case Created(b) =>
            a.outcome == Ok && a.state.storages == s.storages
            && a.state.volumes == s.volumes[config.name := VolumeHandle(b, Some(l.lib), l.path)]
  {
  }

  /** `spawn_volume` by paths, as written: the paths are tried in order
      and the first one that loads decides. A missing entry point or a failing
      creation returns its error with the state unchanged; when no path loads,
      the "no suitable library" error is returned with the state unchanged;
      and when the backend is created, the volume IS registered and the "no
      suitable library" error is returned anyway. */
  lemma SpawnVolumeByPaths(s: State, host: Host, config: VolumeConfig, paths: seq<string>)
    requires config.name != MEMORY_BACKEND_NAME && config.search == ByPaths(paths)
    ensures var a := SpawnVolume(s, host, config);
      var k := FirstLoadable(host, paths);
      (k == |paths| ==> a == Applied(s, Err(NoLibraryInPaths(config.name, paths))))
      && (k < |paths| ==>
            var l := host.loadFile(paths[k]).value;
            (!host.hasEntryPoint(l.lib) ==> a == Applied(s, Err(EntryPointMissing(config.name, l.path))))
            && (host.hasEntryPoint(l.lib) ==>
                  match host.createBackend(l.lib, config)
                  case Failed(e) => a == Applied(s, Err(BackendCreateFailed(config.name, l.path, e)))
                  case Created(b) =>
                    a == Applied(s.(volumes := s.volumes[config.name := VolumeHandle(b, Some(l.lib), l.path)]),
                                 Err(NoLibraryInPaths(config.name, paths)))))
  {
  }

  /** The discrepancy: when every earlier path fails to load and path k
      loads a library that exports the entry point and creates a backend,
      `spawn_volume` registers the volume and still fails. */
  lemma ByPathsLoadStillFails(s: State, host: Host, config: VolumeConfig, paths: seq<string>,
                              k: nat, l: Loaded, b: Backend)
    requires config.name != MEMORY_BACKEND_NAME && config.search == ByPaths(paths)
    requires k < |paths| && forall j :: 0 <= j < k ==> host.loadFile(paths[j]).None?
    requires host.loadFile(paths[k]) == Some(l)
    requires host.hasEntryPoint(l.lib) && host.createBackend(l.lib, config) == Created(b)
    ensures SpawnVolume(s, host, config)
         == Applied(s.(volumes := s.volumes[config.name := VolumeHandle(b, Some(l.lib), l.path)]),
                    Err(NoLibraryInPaths(config.name, paths)))
  {
    FirstLoadableIsFirst(host, paths, k);
  }

  /** A path that loads, after paths that all fail to load, is the first
      loadable one. */
  lemma FirstLoadableIsFirst(host: Host, paths: seq<string>, k: nat)
    requires k < |paths| && host.loadFile(paths[k]).Some?
    requires forall j :: 0 <= j < k ==> host.loadFile(paths[j]).None?
    ensures FirstLoadable(host, paths) == k
  {
    var f := FirstLoadable(host, paths);
    assert !(f < k) && !(k < f);
  }

  /** The intended by-paths branch: it succeeds exactly when the first
      loadable path exports the entry point and creates a backend, and then
      registers that backend; every failure leaves the state unchanged. */
  lemma IntendedByPaths(s: State, host: Host, config: VolumeConfig, paths: seq<string>)
    requires config.name != MEMORY_BACKEND_NAME && config.search == ByPaths(paths)
    ensures var a := SpawnVolumeIntended(s, host, config);
      var k := FirstLoadable(host, paths);
      (a.outcome == Ok <==>
        k < |paths| && host.hasEntryPoint(host.loadFile(paths[k]).value.lib)
        && host.createBackend(host.loadFile(paths[k]).value.lib, config).Created?)
      && (a.outcome.Err? ==> a.state == s)
      && (a.outcome == Ok ==>
            var l := host.loadFile(paths[k]).value;
            a.state == s.(volumes := s.volumes[config.name :=
              VolumeHandle(host.createBackend(l.lib, config).value, Some(l.lib), l.path)]))
  {
  }

  /** `spawn_volume` touches only `volumes[config.name]`: the storages and
      every other volume stay as they were, so the invariant is kept. */
  lemma SpawnVolumeFrame(s: State, host: Host, config: VolumeConfig)
    ensures var a := SpawnVolume(s, host, config);
      a.state.storages == s.storages
      && a.state.volumes.Keys <= s.volumes.Keys + {config.name}
      && s.volumes.Keys <= a.state.volumes.Keys
      && (forall id :: id in s.volumes && id != config.name ==> a.state.volumes[id] == s.volumes[id])
      && (Inv(s) ==> Inv(a.state))
  {
  }

  /** `kill_volume` never fails; afterwards the volume is gone from both maps
      and every other volume's entries are unchanged. */
  lemma KillVolumeEffect(s: State, volumeId: string)
    ensures var t := KillVolume(s, volumeId);
      volumeId !in t.volumes && volumeId !in t.storages
      && t.volumes.Keys == s.volumes.Keys - {volumeId}
      && t.storages.Keys == s.storages.Keys - {volumeId}
      && (forall id :: id in t.volumes ==> t.volumes[id] == s.volumes[id])
      && (forall id :: id in t.storages ==> t.storages[id] == s.storages[id])
      && (Inv(s) ==> Inv(t))
  {
  }

  /** `kill_storage` sends `Stop` only to a registered storage, and removes nothing. */
  lemma KillStorageEffect(s: State, host: Host, statusKey: string, config: StorageConfig)
    ensures ApplyDiff(s, host, statusKey, DeleteStorage(config)) == Applied(s, Ok)
    ensures StoppedByKillStorage(s, config).Some? <==>
      config.volumeId in s.storages && config.name in s.storages[config.volumeId]
  {
  }

  /** `spawn_storage` on an unregistered volume fails with "volume not
      found", and a failing worker start propagates its error; in both cases
      neither map changes. */
  lemma SpawnStorageFailures(s: State, host: Host, statusKey: string, config: StorageConfig)
    ensures var a := SpawnStorage(s, host, statusKey, config);
      (config.volumeId !in s.volumes ==> a == Applied(s, Err(VolumeNotFound(config.volumeId))))
      && (config.volumeId in s.volumes ==>
            var started := host.startStorage(AdminSpace.StorageKey(statusKey, config.name), config,
                                             s.volumes[config.volumeId].backend);
            started.Failed? ==> a == Applied(s, Err(WorkerStartFailed(started.message))))
      && (a.outcome.Err? ==> a.state == s)
  {
  }

  /** `spawn_storage` succeeds exactly when the volume is registered and its
      worker starts (with the failure cases above); it then sets exactly storages[volume][name]
      (creating the inner map if needed, overwriting a previous handle); the
      volumes and every other storage entry stay unchanged. */
  lemma SpawnStorageSuccess(s: State, host: Host, statusKey: string, config: StorageConfig)
    requires config.volumeId in s.volumes
    requires host.startStorage(AdminSpace.StorageKey(statusKey, config.name), config,
                               s.volumes[config.volumeId].backend).Created?
    ensures SpawnStorage(s, host, statusKey, config).outcome == Ok
    ensures var t := SpawnStorage(s, host, statusKey, config).state;
      var v := config.volumeId;
      t.volumes == s.volumes
      && t.storages.Keys == s.storages.Keys + {v}
      && config.name in t.storages[v]
      && host.startStorage(AdminSpace.StorageKey(statusKey, config.name), config, s.volumes[v].backend)
           == Created(t.storages[v][config.name])
      && (forall w :: w in s.storages && w != v ==> t.storages[w] == s.storages[w])
      && (forall n :: n != config.name ==>
            (n in t.storages[v] <==> v in s.storages && n in s.storages[v])
            && (n in t.storages[v] ==> t.storages[v][n] == s.storages[v][n]))
      && (Inv(s) ==> Inv(t))
  {
  }

  /** Every single diff keeps the invariant. */
  lemma ApplyDiffKeepsInv(s: State, host: Host, statusKey: string, diff: ConfigDiff)
    requires Inv(s)
    ensures Inv(ApplyDiff(s, host, statusKey, diff).state)
  {
    match diff
    case DeleteVolume(v) => KillVolumeEffect(s, v.name);
    case AddVolume(v) => SpawnVolumeFrame(s, host, v);
    case DeleteStorage(_) =>
    case AddStorage(c) =>
  }

  /** `update` keeps the invariant whatever the diffs, and however it ends. */
  lemma {:induction false} UpdateKeepsInv(s: State, host: Host, statusKey: string, diffs: seq<ConfigDiff>)
    requires Inv(s)
    ensures Inv(Update(s, host, statusKey, diffs).state)
    decreases |diffs|
  {
    if |diffs| > 0 {
      ApplyDiffKeepsInv(s, host, statusKey, diffs[0]);
      UpdateKeepsInv(ApplyDiff(s, host, statusKey, diffs[0]).state, host, statusKey, diffs[1..]);
    }
  }

  /** Deletions never fail. */
  lemma DeletesNeverFail(s: State, host: Host, statusKey: string, diff: ConfigDiff)
    requires diff.DeleteVolume? || diff.DeleteStorage?
    ensures ApplyDiff(s, host, statusKey, diff).outcome == Ok
  {
  }

  /** `update` applies a concatenation of batches as the first batch followed
      by the second, unless the first batch fails, in which case the second is
      never applied and the first batch's effects remain. */
  lemma {:induction false} UpdateAppend(s: State, host: Host, statusKey: string, d1: seq<ConfigDiff>, d2: seq<ConfigDiff>)
    ensures var a := Update(s, host, statusKey, d1);
      Update(s, host, statusKey, d1 + d2) == if a.outcome.Err? then a else Update(a.state, host, statusKey, d2)
    decreases |d1|
  {
    if |d1| > 0 {
      assert (d1 + d2)[0] == d1[0];
      assert (d1 + d2)[1..] == d1[1..] + d2;
      var b := ApplyDiff(s, host, statusKey, d1[0]);
      if b.outcome.Ok? {
        UpdateAppend(b.state, host, statusKey, d1[1..], d2);
      }
    } else {
      assert d1 + d2 == d2;
    }
  }

  /** The first failing diff decides the result of `update`: the diffs
      before it are applied, its error is returned with the state it left,
      and no later diff is applied. */
  lemma UpdateStopsAtFirstError(s: State, host: Host, statusKey: string, diffs: seq<ConfigDiff>, k: nat)
    requires k < |diffs|
    requires Update(s, host, statusKey, diffs[..k]).outcome == Ok
    requires ApplyDiff(Update(s, host, statusKey, diffs[..k]).state, host, statusKey, diffs[k]).outcome.Err?
    ensures Update(s, host, statusKey, diffs)
         == ApplyDiff(Update(s, host, statusKey, diffs[..k]).state, host, statusKey, diffs[k])
  {
    var before := Update(s, host, statusKey, diffs[..k]);
    assert diffs == diffs[..k] + diffs[k..];
    UpdateAppend(s, host, statusKey, diffs[..k], diffs[k..]);
    assert diffs[k..][0] == diffs[k];
  }

  /** A batch of deletions always succeeds. */
  lemma {:induction false} UpdateOfDeletesSucceeds(s: State, host: Host, statusKey: string, diffs: seq<ConfigDiff>)
    requires forall i :: 0 <= i < |diffs| ==> diffs[i].DeleteVolume? || diffs[i].DeleteStorage?
    ensures Update(s, host, statusKey, diffs).outcome == Ok
    decreases |diffs|
  {
    if |diffs| > 0 {
      DeletesNeverFail(s, host, statusKey, diffs[0]);
      UpdateOfDeletesSucceeds(ApplyDiff(s, host, statusKey, diffs[0]).state, host, statusKey, diffs[1..]);
    }
  }

  /** A second AddVolume for a registered name does not fail for being a
      duplicate: for the built-in volume the later configuration's backend
      replaces the earlier one. */
  lemma DuplicateAddVolumeReplaces(s: State, host: Host, statusKey: string,
                                   c1: VolumeConfig, c2: VolumeConfig, b1: Backend, b2: Backend)
    requires c1.name == MEMORY_BACKEND_NAME && c2.name == MEMORY_BACKEND_NAME
    requires host.createMemoryBackend(c1) == Created(b1) && host.createMemoryBackend(c2) == Created(b2)
    ensures Update(s, host, statusKey, [AddVolume(c1), AddVolume(c2)])
         == Applied(s.(volumes := s.volumes[MEMORY_BACKEND_NAME := VolumeHandle(b2, None, STATIC_MEMORY_PATH)]), Ok)
  {
    var ds := [AddVolume(c1), AddVolume(c2)];
    var a := ApplyDiff(s, host, statusKey, AddVolume(c1));
    var a2 := ApplyDiff(a.state, host, statusKey, AddVolume(c2));
    assert a.outcome == Ok && a2.outcome == Ok;
    assert ds[1..] == [AddVolume(c2)] && ds[1..][1..] == [];
    assert Update(a2.state, host, statusKey, []) == Applied(a2.state, Ok);
    assert Update(a.state, host, statusKey, ds[1..]) == Update(a2.state, host, statusKey, ds[1..][1..]);
  }

  /** The built-in volume can be deleted like any other. */
  lemma MemoryVolumeDeletable(s: State, host: Host, statusKey: string, config: VolumeConfig)
    requires config.name == MEMORY_BACKEND_NAME
    ensures var a := Update(s, host, statusKey, [DeleteVolume(config)]);
      a.outcome == Ok && MEMORY_BACKEND_NAME !in a.state.volumes
  {
  }

  /** Start-up yields a state satisfying the invariant. */
  lemma StartupKeepsInv(host: Host, statusKey: string, volumes: seq<VolumeConfig>, storages: seq<StorageConfig>)
    ensures Inv(Startup(host, statusKey, volumes, storages).state)
  {
    var e := State(map[], map[]);
    SpawnVolumeFrame(e, host, MemoryVolumeConfig());
    var m := SpawnVolume(e, host, MemoryVolumeConfig());
    if m.outcome.Ok? {
      UpdateKeepsInv(m.state, host, statusKey, StartupDiffs(volumes, storages));
    }
  }
}
