/** The storage manager's runtime: the object that owns the volume and storage
    maps, applies configuration diffs to them and answers admin-space queries.
    Each state-changing method is proved to compute the matching function of
    module RuntimeSpec, where its properties are proved. */
module Runtime {
  import opened Types
  import RuntimeSpec
  import opened KeyString
  import opened AdminSpace

  class StorageRuntime {
    /** The plugin's name and the router's id, which make up its status key. */
    const name: string
    const pid: string
    /** The library loader, the session and the code they reach. */
    const host: Host
    var volumes: map<string, VolumeHandle>
    var storages: map<string, map<string, StorageHandle>>

    /** The two maps as one value. */
    function Snapshot(): State
      reads this
    {
      State(volumes, storages)
    }

    /** `status_key`: "/@/router/<pid>/status/plugins/<name>". */
    function StatusKey(): string
      reads this
    {
      RuntimeSpec.StatusKey(pid, name)
    }

    /** A runtime with no volume and no storage yet. */
    constructor Empty(name: string, pid: string, host: Host)
      ensures this.name == name && this.pid == pid && this.host == host
      ensures volumes == map[] && storages == map[]
    {
      this.name := name;
      this.pid := pid;
      this.host := host;
      volumes := map[];
      storages := map[];
    }

    /** `StorageRuntimeInner::new`: register the built-in volume, then apply
        every configured volume and storage as additions. On an error the
        error is returned with the runtime as far as it got, and the caller
        discards it. */
    static method New(name: string, pid: string, host: Host,
                      volumeConfigs: seq<VolumeConfig>, storageConfigs: seq<StorageConfig>)
      returns (rt: StorageRuntime, r: Outcome)
      ensures fresh(rt) && rt.name == name && rt.pid == pid && rt.host == host
      ensures Applied(rt.Snapshot(), r)
           == RuntimeSpec.Startup(host, RuntimeSpec.StatusKey(pid, name), volumeConfigs, storageConfigs)
      ensures RuntimeSpec.Inv(rt.Snapshot())
    {
      rt := new StorageRuntime.Empty(name, pid, host);
      r := rt.SpawnVolume(RuntimeSpec.MemoryVolumeConfig());
      if r.Ok? {
        r := rt.Update(RuntimeSpec.StartupDiffs(volumeConfigs, storageConfigs));
      }
      RuntimeSpec.StartupKeepsInv(host, RuntimeSpec.StatusKey(pid, name), volumeConfigs, storageConfigs);
    }

    /** `update`: apply the diffs in order; return the first error at once. */
    method Update(diffs: seq<ConfigDiff>) returns (r: Outcome)
      modifies this
      ensures Applied(Snapshot(), r) == RuntimeSpec.Update(old(Snapshot()), host, StatusKey(), diffs)
    {
      for i := 0 to |diffs|
        invariant RuntimeSpec.Update(old(Snapshot()), host, StatusKey(), diffs)
               == RuntimeSpec.Update(Snapshot(), host, StatusKey(), diffs[i..])
      {
        assert diffs[i..][1..] == diffs[i + 1..];
        match diffs[i]
        case DeleteVolume(volume) =>
          var _ := KillVolume(volume);
        case AddVolume(volume) =>
          r := SpawnVolume(volume);
          if r.Err? {
            return;
          }
        case DeleteStorage(config) =>
          var _ := KillStorage(config);
        case AddStorage(config) =>
          r := SpawnStorage(config);
          if r.Err? {
            return;
          }
      }
      r := Ok;
    }

    /** `kill_volume`: remove the volume's storage map, sending `Stop` to each
        of its storages (the handles returned), then remove the volume. */
    method KillVolume(volume: VolumeConfig) returns (stopped: set<StorageHandle>)
      modifies this
      ensures Snapshot() == RuntimeSpec.KillVolume(old(Snapshot()), volume.name)
      ensures stopped == RuntimeSpec.StoppedByKillVolume(old(Snapshot()), volume.name)
    {
      stopped := {};
      if volume.name in storages {
        stopped := storages[volume.name].Values;
      }
      storages := storages - {volume.name};
      volumes := volumes - {volume.name};
    }

    /** `spawn_volume`. */
    method SpawnVolume(config: VolumeConfig) returns (r: Outcome)
      modifies this
      ensures Applied(Snapshot(), r) == RuntimeSpec.SpawnVolume(old(Snapshot()), host, config)
    {
      var volumeId := config.name;
      if volumeId == MEMORY_BACKEND_NAME {
        match host.createMemoryBackend(config)
        case Created(backend) =>
          volumes := volumes[volumeId := VolumeHandle(backend, None, STATIC_MEMORY_PATH)];
          r := Ok;
        case Failed(e) =>
          r := Err(MemoryBackendFailed(e));
      } else {
        match config.search
        case ByPaths(paths) =>
          var i := 0;
          while i < |paths|
            invariant 0 <= i <= RuntimeSpec.FirstLoadable(host, paths)
            invariant volumes == old(volumes) && storages == old(storages)
          {
            match host.loadFile(paths[i])
            case Some(loaded) =>
              r := LoadedBackendFromLib(volumeId, config, loaded);
              if r.Err? {
                return;
              }
              break;
            case None =>
              i := i + 1;
          }
          // The `break` above lands here too.
          r := Err(NoLibraryInPaths(volumeId, paths));
        case ByName(backendName) =>
          var filename := RuntimeSpec.BackendFilename(backendName);
          match host.searchAndLoad(filename)
          case Some(loaded) =>
            r := LoadedBackendFromLib(volumeId, config, loaded);
          case None =>
            r := Err(NoLibraryByName(volumeId, filename));
      }
    }

    /** `loaded_backend_from_lib`. */
    method LoadedBackendFromLib(volumeId: string, config: VolumeConfig, loaded: Loaded) returns (r: Outcome)
      modifies this
      ensures Applied(Snapshot(), r)
           == RuntimeSpec.LoadedBackendFromLib(old(Snapshot()), host, volumeId, config, loaded)
    {
      if host.hasEntryPoint(loaded.lib) {
        match host.createBackend(loaded.lib, config)
        case Created(backend) =>
          volumes := volumes[volumeId := VolumeHandle(backend, Some(loaded.lib), loaded.path)];
          r := Ok;
        case Failed(e) =>
          r := Err(BackendCreateFailed(volumeId, loaded.path, e));
      } else {
        r := Err(EntryPointMissing(volumeId, loaded.path));
      }
    }

    /** `kill_storage`: send `Stop` to the storage's handle if there is one
        (returned); the maps are left as they are. */
    method KillStorage(config: StorageConfig) returns (stopped: Option<StorageHandle>)
      ensures stopped == RuntimeSpec.StoppedByKillStorage(Snapshot(), config)
    {
      stopped := None;
      if config.volumeId in storages {
        var inner := storages[config.volumeId];
        if config.name in inner {
          stopped := Some(inner[config.name]);
        }
      }
    }

    /** `spawn_storage`. */
    method SpawnStorage(config: StorageConfig) returns (r: Outcome)
      modifies this
      ensures Applied(Snapshot(), r) == RuntimeSpec.SpawnStorage(old(Snapshot()), host, StatusKey(), config)
    {
      var adminKey := StorageKey(StatusKey(), config.name);
      var volumeId := config.volumeId;
      if volumeId in volumes {
        var backend := volumes[volumeId].backend;
        match host.startStorage(adminKey, config, backend)
        case Created(handle) =>
          var inner := if volumeId in storages then storages[volumeId] else map[];
          storages := storages[volumeId := inner[config.name := handle]];
          r := Ok;
        case Failed(e) =>
          r := Err(WorkerStartFailed(e));
      } else {
        r := Err(VolumeNotFound(volumeId));
      }
    }

    /** `adminspace_getter`: list the version, each volume's library path and
        admin status, and each answering storage's status, under the given
        status key, keeping the entries whose key intersects the selector.
        `origins` says which entry each response is: the result holds every
        contributing entry exactly once, in an unspecified order. */
    method AdminspaceGetter(selector: string, pluginStatusKey: string, world: Introspection)
      returns (responses: seq<Response>, ghost origins: seq<Origin>)
      ensures ResponseSet(responses) == Responses(pluginStatusKey, selector, world, Snapshot())
      ensures ListsExactly(pluginStatusKey, selector, world, Snapshot(), responses, origins)
    {
      ghost var root := pluginStatusKey;
      ghost var s := Snapshot();
      var key := new KeyBuffer(pluginStatusKey);
      ConcatOne("/version");
      var version := key.WithExtendedString(["/version"],
        k => if world.intersect(k, selector) then [Response(k, Text(world.version))] else []);

      ConcatOne("/volumes/");
      var prefixLen := key.Extend(["/volumes/"]);
      var volumeList;
      ghost var volumeOrigins;
      volumeList, volumeOrigins := ListVolumes(key, root, selector, world);
      key.Truncate(prefixLen);

      ConcatOne("/storages/");
      prefixLen := key.Extend(["/storages/"]);
      var storageList;
      ghost var storageOrigins;
      storageList, storageOrigins := ListStorages(key, root, selector, world);
      key.Truncate(prefixLen);

      ResponseSetAppend(version, volumeList);
      ResponseSetAppend(version + volumeList, storageList);
      responses := version + volumeList + storageList;
      assert s == Snapshot();
      assert version == if world.intersect(VersionKey(root), selector)
                        then [Response(VersionKey(root), Text(world.version))] else [];
      GetterListsExactly(root, selector, world, s, version, volumeList, volumeOrigins,
                         storageList, storageOrigins);
      origins := (if world.intersect(VersionKey(root), selector) then [VersionOrigin] else [])
                 + volumeOrigins + storageOrigins;
    }

    /** The getter's "/volumes/" closure: for every volume, in an unspecified
        order (a hash map's), its `__path__` entry and its admin-status entry. */
    method ListVolumes(key: KeyBuffer, ghost root: string, selector: string, world: Introspection)
      returns (responses: seq<Response>, ghost origins: seq<Origin>)
      requires key.value == root + "/volumes/"
      modifies key
      ensures key.value == old(key.value)
      ensures ResponseSet(responses)
           == PathEntries(root, selector, world, volumes, volumes.Keys)
            + StatusEntries(root, selector, world, volumes, volumes.Keys)
      ensures VolumesPart(root, selector, world, Snapshot(), responses, origins, volumes.Keys)
    {
      responses, origins := [], [];
      var todo := volumes.Keys;
      ghost var done: set<string> := {};
      while todo != {}
        invariant key.value == root + "/volumes/"
        invariant todo + done == volumes.Keys && todo !! done
        invariant ResponseSet(responses)
               == PathEntries(root, selector, world, volumes, done)
                + StatusEntries(root, selector, world, volumes, done)
        invariant VolumesPart(root, selector, world, Snapshot(), responses, origins, done)
        decreases todo
      {
        var volumeId :| volumeId in todo;
        var rs;
        ghost var os;
        rs, os := ListVolume(key, root, selector, world, volumeId);
        ResponseSetAppend(responses, rs);
        VolumeEntriesStep(root, selector, world, volumes, done, volumeId);
        VolumesPartStep(root, selector, world, Snapshot(), responses, origins, done, rs, os, volumeId);
        responses, origins := responses + rs, origins + os;
        todo, done := todo - {volumeId}, done + {volumeId};
      }
    }

    /** One volume's entries: its `__path__` entry, valued by its library
        path, and its own entry, valued by its backend's admin status. */
    method ListVolume(key: KeyBuffer, ghost root: string, selector: string, world: Introspection,
                      volumeId: string)
      returns (responses: seq<Response>, ghost origins: seq<Origin>)
      requires volumeId in volumes
      requires key.value == root + "/volumes/"
      modifies key
      ensures key.value == old(key.value)
      ensures ResponseSet(responses)
           == (if world.intersect(PathKey(root, volumeId), selector)
               then {Response(PathKey(root, volumeId), Text(volumes[volumeId].libPath))} else {})
            + (if world.intersect(VolumeKey(root, volumeId), selector)
               then {Response(VolumeKey(root, volumeId), world.adminStatus(volumes[volumeId].backend))} else {})
      ensures VolumesPart(root, selector, world, Snapshot(), responses, origins, {volumeId})
    {
      var volume := volumes[volumeId];
      ConcatOne(volumeId);
      var idLen := key.Extend([volumeId]);
      assert key.value == VolumeKey(root, volumeId);
      ConcatOne("/__path__");
      responses := key.WithExtendedString(["/__path__"],
        k => if world.intersect(k, selector) then [Response(k, Text(volume.libPath))] else []);
      origins := if world.intersect(PathKey(root, volumeId), selector) then [PathOrigin(volumeId)] else [];
      var own: seq<Response> := [];
      if world.intersect(key.value, selector) {
        own := [Response(key.value, world.adminStatus(volume.backend))];
        origins := origins + [StatusOrigin(volumeId)];
      }
      ResponseSetAppend(responses, own);
      responses := responses + own;
      key.Truncate(idLen);
    }

    /** The getter's "/storages/" closure: every storage of every volume, in
        an unspecified order. */
    method ListStorages(key: KeyBuffer, ghost root: string, selector: string, world: Introspection)
      returns (responses: seq<Response>, ghost origins: seq<Origin>)
      requires key.value == root + "/storages/"
      modifies key
      ensures key.value == old(key.value)
      ensures ResponseSet(responses) == StorageEntries(root, selector, world, storages, storages.Keys)
      ensures StoragesPart(root, selector, world, Snapshot(), responses, origins, storages.Keys)
    {
      responses, origins := [], [];
      var todo := storages.Keys;
      ghost var done: set<string> := {};
      while todo != {}
        invariant key.value == root + "/storages/"
        invariant todo + done == storages.Keys && todo !! done
        invariant ResponseSet(responses) == StorageEntries(root, selector, world, storages, done)
        invariant StoragesPart(root, selector, world, Snapshot(), responses, origins, done)
        decreases todo
      {
        var volumeId :| volumeId in todo;
        var rs;
        ghost var os;
        rs, os := ListStorageMap(key, root, selector, world, volumeId);
        ResponseSetAppend(responses, rs);
        StorageEntriesStep(root, selector, world, storages, done, volumeId);
        StoragesPartStep(root, selector, world, Snapshot(), responses, origins, done, rs, os, volumeId);
        responses, origins := responses + rs, origins + os;
        todo, done := todo - {volumeId}, done + {volumeId};
      }
    }

    /** The entries of one volume's storages: a storage is listed when its key
        intersects the selector and its worker answers `GetStatus`. */
    method ListStorageMap(key: KeyBuffer, ghost root: string, selector: string, world: Introspection,
                          volumeId: string)
      returns (responses: seq<Response>, ghost origins: seq<Origin>)
      requires volumeId in storages
      requires key.value == root + "/storages/"
      modifies key
      ensures key.value == old(key.value)
      ensures ResponseSet(responses)
           == StorageEntriesOf(root, selector, world, storages[volumeId], storages[volumeId].Keys)
      ensures StoragesPart(root, selector, world, Snapshot(), responses, origins, {volumeId})
    {
      var inner := storages[volumeId];
      responses, origins := [], [];
      var todo := inner.Keys;
      ghost var done: set<string> := {};
      while todo != {}
        invariant key.value == root + "/storages/"
        invariant todo + done == inner.Keys && todo !! done
        invariant ResponseSet(responses) == StorageEntriesOf(root, selector, world, inner, done)
        invariant StorageMapPart(root, selector, world, Snapshot(), responses, origins, volumeId, done)
        decreases todo
      {
        var storageName :| storageName in todo;
        var handle := inner[storageName];
        ConcatOne(storageName);
        var rs := key.WithExtendedString([storageName],
          k => if world.intersect(k, selector) && world.storageStatus(handle).Some?
               then [Response(k, world.storageStatus(handle).value)] else []);
        assert root + "/storages/" + storageName == StorageKey(root, storageName);
        ghost var os := if world.intersect(StorageKey(root, storageName), selector) && world.storageStatus(handle).Some?
                        then [StorageOrigin(volumeId, storageName)] else [];
        ResponseSetAppend(responses, rs);
        StorageEntriesOfStep(root, selector, world, inner, done, storageName);
        StorageMapPartStep(root, selector, world, Snapshot(), responses, origins, volumeId, done, rs, os, storageName);
        responses, origins := responses + rs, origins + os;
        todo, done := todo - {storageName}, done + {storageName};
      }
      StorageMapPartComplete(root, selector, world, Snapshot(), responses, origins, volumeId);
    }
  }
}
