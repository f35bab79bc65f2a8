# Storage-manager runtime (zenoh storage plugin), modelled in Dafny

This project models the runtime state machine of zenoh's storage-manager
plugin (`plugins/zenoh-plugin-storage-manager/src/lib.rs`). The runtime
(`StorageRuntimeInner`) owns two maps:

- `volumes`: volume name → volume handle (backend, optional library, library path);
- `storages`: volume name → (storage name → control handle of a storage worker).

Four operations act on them: `spawn_volume` (with `loaded_backend_from_lib`),
`kill_volume` and `spawn_storage` change them, and `kill_storage` only sends
`Stop`. `update` applies a sequence
of configuration diffs in order and stops at the first error. Start-up
(`new`) registers the built-in `memory` volume and then applies every
configured volume and storage as additions. `status_key` gives the plugin's
admin root "/@/router/<pid>/status/plugins/<name>" (`RuntimeSpec.StatusKey`,
and `StatusKey` of the runtime class); each storage worker is started with the
admin key root + "/storages/" + its name, and the admin-space getter lists
synthetic keys built by `with_extended_string` under the root it is given.

Files and modules:

- `types.dfy` (`Types`): configurations, `ConfigDiff`, opaque tokens for
  backends, libraries and control handles, `VolumeHandle`, the typed errors,
  and `Host`, the calls into code outside the model, as total functions.
- `runtime_spec.dfy` (`RuntimeSpec`): every operation as a function of the
  state (`SpawnVolume`, `LoadedBackendFromLib`, `KillVolume`, `SpawnStorage`,
  `ApplyDiff`, `Update`, `Startup`) and the lemmas about them.
- `key_string.dfy` (`KeyString`): the key buffer and `with_extended_string`.
- `admin_space.dfy` (`AdminSpace`): the admin keys and the set of responses
  the getter produces for a state.
- `runtime.dfy` (`Runtime`): the class `StorageRuntime`, whose methods update
  the two maps in place and are each proved to compute the matching
  `RuntimeSpec` function, and the admin-space getter.

The foreign calls become fields of `Host`:
- `LibLoader::load_file` becomes `loadFile`;
- the loader's directory search becomes `searchAndLoad`;
- `lib.get::<CreateBackend>` becomes `hasEntryPoint`;
- calling that entry point becomes `createBackend`;
- `create_memory_backend` becomes `createMemoryBackend`;
- `create_and_start_storage` becomes `startStorage`.

Each is a deterministic function of its arguments that may fail. The
admin getter's key-expression intersection, build version, backend admin
status and worker status replies are the parameter `Introspection`.
`VolumeHandle::new` is the datatype constructor `VolumeHandle`.

### Behaviour as written

The model follows the code where it departs from what a reader would
expect:

- `spawn_volume` and `spawn_storage` insert with `HashMap::insert`, so a
  second AddVolume or AddStorage for a registered name replaces the handle
  instead of failing (`DuplicateAddVolumeReplaces`, `SpawnStorageSuccess`).
- `kill_storage` only sends `Stop`; the entry stays in `storages`
  (`KillStorageEffect`).
- Nothing protects the built-in `memory` volume from DeleteVolume
  (`MemoryVolumeDeletable`).
- The `required` flag of a volume is never consulted: any volume's load
  error aborts start-up or the update batch.
- Storage keys do not name the volume: two volumes with a storage of the
  same name give two entries under one key, and the getter lists both
  (`SharedStorageNameListedTwice`).
- In the by-paths branch of `spawn_volume`, a successful load registers the
  volume and still returns an error (see Findings).

## Model

| member | source | states |
|---|---|---|
| `RuntimeSpec.FirstLoadable` | plugins/zenoh-plugin-storage-manager/src/lib.rs:155-168 | the path the by-paths loop loads from: every earlier path fails to load, and it loads (or no path loads) |
| `RuntimeSpec.StatusKeyLayout` | plugins/zenoh-plugin-storage-manager/src/lib.rs:72-77 | `status_key` lies under "/@/router/<pid>/", the plugin name is what follows "/status/plugins/", and every storage's admin key lies under it |
| `RuntimeSpec.SpawnVolumeMemory` | plugins/zenoh-plugin-storage-manager/src/lib.rs:143-152 | for volume `memory`, success registers the built-in backend with no library and path `<static-memory>`; failure returns the backend's error and changes nothing |
| `RuntimeSpec.SpawnVolumeByName` | plugins/zenoh-plugin-storage-manager/src/lib.rs:175-225 | by name, the library searched is `zbackend_` + backend name; a missing library, a missing entry point or a failing create each return their error with the state unchanged; success registers the backend with the loaded library and its path |
| `RuntimeSpec.SpawnVolumeByPaths` | plugins/zenoh-plugin-storage-manager/src/lib.rs:155-174 | by paths, the first path that loads decides: no loadable path gives "no suitable library", a missing entry point or a failing create gives its error, each with the state unchanged; a created backend is registered under `config.name` and "no suitable library" is returned anyway |
| `RuntimeSpec.FirstLoadableIsFirst` | plugins/zenoh-plugin-storage-manager/src/lib.rs:158-168 | a path that loads, after paths that all fail to load, is the one the loop uses |
| `RuntimeSpec.ByPathsLoadStillFails` | plugins/zenoh-plugin-storage-manager/src/lib.rs:158-173 | when path k is the first to load and its library creates a backend, the volume is registered from it and "no suitable library" is still returned |
| `RuntimeSpec.SpawnVolumeIntended` | plugins/zenoh-plugin-storage-manager/src/lib.rs:155-174 | the corrected by-paths branch: any failure leaves the state unchanged, storages are untouched and only `config.name` can be added |
| `RuntimeSpec.IntendedByPaths` | plugins/zenoh-plugin-storage-manager/src/lib.rs:155-174 | the corrected branch succeeds exactly when the first loadable path exports the entry point and creates a backend, and then registers it |
| `RuntimeSpec.SpawnVolumeFrame` | plugins/zenoh-plugin-storage-manager/src/lib.rs:141-190 | `spawn_volume` leaves storages and every other volume unchanged, never removes a volume, adds at most `config.name`, and keeps the cross-map invariant |
| `RuntimeSpec.KillVolumeEffect` | plugins/zenoh-plugin-storage-manager/src/lib.rs:131-140 | after `kill_volume` the name is in neither map, every other entry of both maps is unchanged, and the invariant is kept |
| `RuntimeSpec.KillStorageEffect` | plugins/zenoh-plugin-storage-manager/src/lib.rs:227-235 | DeleteStorage succeeds and leaves both maps as they were; `Stop` goes to a handle exactly when the storage is registered |
| `RuntimeSpec.SpawnStorageFailures` | plugins/zenoh-plugin-storage-manager/src/lib.rs:236-259 | an unregistered volume gives "volume not found"; a failing worker start propagates its message; every failure leaves both maps unchanged |
| `RuntimeSpec.SpawnStorageSuccess` | plugins/zenoh-plugin-storage-manager/src/lib.rs:239-255 | on a registered volume whose worker starts, `spawn_storage` returns Ok and sets exactly `storages[volume][name]` to the started worker's handle; it creates the inner map if absent and overwrites an earlier handle; volumes and all other storage entries are unchanged; the invariant is kept |
| `RuntimeSpec.ApplyDiffKeepsInv` | plugins/zenoh-plugin-storage-manager/src/lib.rs:119-127 | each of the four diffs keeps the invariant that storages exist only under registered volumes |
| `RuntimeSpec.UpdateKeepsInv` | plugins/zenoh-plugin-storage-manager/src/lib.rs:118-130 | `update` keeps that invariant for every diff sequence, on success and on error |
| `RuntimeSpec.DeletesNeverFail` | plugins/zenoh-plugin-storage-manager/src/lib.rs:121-125 | DeleteVolume and DeleteStorage never return an error |
| `RuntimeSpec.UpdateAppend` | plugins/zenoh-plugin-storage-manager/src/lib.rs:118-130 | applying d1 + d2 is applying d1 then d2, unless d1 fails; then d2 is not applied and d1's effects remain |
| `RuntimeSpec.UpdateStopsAtFirstError` | plugins/zenoh-plugin-storage-manager/src/lib.rs:119-129 | when diff k is the first to fail, `update` returns its error and the state it left, and applies no later diff |
| `RuntimeSpec.UpdateOfDeletesSucceeds` | plugins/zenoh-plugin-storage-manager/src/lib.rs:118-130 | a batch made only of deletions always succeeds |
| `RuntimeSpec.DuplicateAddVolumeReplaces` | plugins/zenoh-plugin-storage-manager/src/lib.rs:143-150 | two AddVolume diffs for `memory` with two configurations both succeed; the handle left is the second configuration's backend |
| `RuntimeSpec.MemoryVolumeDeletable` | plugins/zenoh-plugin-storage-manager/src/lib.rs:131-140 | DeleteVolume of `memory` succeeds and removes it |
| `RuntimeSpec.StartupKeepsInv` | plugins/zenoh-plugin-storage-manager/src/lib.rs:103-116 | start-up ends in a state satisfying the invariant, whether it succeeds or not |
| `KeyString.KeyBuffer.constructor` | plugins/zenoh-plugin-storage-manager/src/lib.rs:312 | the buffer starts as the given status key |
| `KeyString.KeyBuffer.PushStr` | plugins/zenoh-plugin-storage-manager/src/lib.rs:377 | the suffix is appended |
| `KeyString.KeyBuffer.Truncate` | plugins/zenoh-plugin-storage-manager/src/lib.rs:380 | the buffer keeps its first n characters; a shorter buffer is unchanged |
| `KeyString.KeyBuffer.Extend` | plugins/zenoh-plugin-storage-manager/src/lib.rs:375-378 | returns the prefix length and leaves prefix + every suffix in order |
| `KeyString.KeyBuffer.WithExtendedString` | plugins/zenoh-plugin-storage-manager/src/lib.rs:370-382 | the closure's result is its value on prefix + concatenated suffixes, and the buffer holds the prefix again afterwards |
| `AdminSpace.ResponseKeysUnderRoot` | plugins/zenoh-plugin-storage-manager/src/lib.rs:306-364 | every listed key is root + `/version`, root + `/volumes/<id>`, root + `/volumes/<id>/__path__` or root + `/storages/<name>` for a registered volume or storage, so it starts with the root |
| `AdminSpace.PathEntryListed` | plugins/zenoh-plugin-storage-manager/src/lib.rs:323-333 | a volume's `__path__` entry, valued by its library path, is listed exactly when its key intersects the selector |
| `AdminSpace.PathKeyInjective` | plugins/zenoh-plugin-storage-manager/src/lib.rs:325-326 | two volumes never share a `__path__` key |
| `Runtime.StorageRuntime.New` | plugins/zenoh-plugin-storage-manager/src/lib.rs:78-117 | the new runtime's maps and outcome are those of `Startup`: `memory` first, then every volume, then every storage; the invariant holds |
| `Runtime.StorageRuntime.Update` | plugins/zenoh-plugin-storage-manager/src/lib.rs:118-130 | the loop with early return leaves the maps and returns the outcome of `RuntimeSpec.Update` on the old maps |
| `Runtime.StorageRuntime.KillVolume` | plugins/zenoh-plugin-storage-manager/src/lib.rs:131-140 | the new maps are `RuntimeSpec.KillVolume` of the old ones; `Stop` goes to every handle of the volume |
| `Runtime.StorageRuntime.SpawnVolume` | plugins/zenoh-plugin-storage-manager/src/lib.rs:141-190 | the path loop with `break` leaves the maps and returns the outcome of `RuntimeSpec.SpawnVolume` |
| `Runtime.StorageRuntime.LoadedBackendFromLib` | plugins/zenoh-plugin-storage-manager/src/lib.rs:191-226 | the maps and outcome are those of `RuntimeSpec.LoadedBackendFromLib` |
| `Runtime.StorageRuntime.KillStorage` | plugins/zenoh-plugin-storage-manager/src/lib.rs:227-235 | changes nothing; `Stop` goes to the storage's handle when it is registered |
| `Runtime.StorageRuntime.SpawnStorage` | plugins/zenoh-plugin-storage-manager/src/lib.rs:236-259 | the maps and outcome are those of `RuntimeSpec.SpawnStorage`, with the admin key status key + `/storages/` + name |
| `Runtime.StorageRuntime.AdminspaceGetter` | plugins/zenoh-plugin-storage-manager/src/lib.rs:306-364 | the set of responses is `AdminSpace.Responses` (the version, each volume's path and status entries, each answering storage's entry, for keys intersecting the selector), and the returned sequence holds each such entry exactly once, traced to its origin, in an unspecified order |
| `Runtime.StorageRuntime.ListVolumes` | plugins/zenoh-plugin-storage-manager/src/lib.rs:323-342 | visiting the volumes in any order yields all their path and status entries, each exactly once; the key buffer is restored |
| `Runtime.StorageRuntime.ListVolume` | plugins/zenoh-plugin-storage-manager/src/lib.rs:325-340 | one volume yields `<id>/__path__` valued by its library path and `<id>` valued by its admin status, each once when its key intersects |
| `Runtime.StorageRuntime.ListStorages` | plugins/zenoh-plugin-storage-manager/src/lib.rs:343-362 | visiting every volume's storage map in any order yields every storage entry of every volume exactly once |
| `Runtime.StorageRuntime.ListStorageMap` | plugins/zenoh-plugin-storage-manager/src/lib.rs:345-359 | a storage of the volume is listed once under `/storages/<name>` exactly when its key intersects and its worker answers `GetStatus` |
| `AdminSpace.GetterListsExactly` | plugins/zenoh-plugin-storage-manager/src/lib.rs:311-363 | the version entry, the volume entries and the storage entries appended in that order contain every contributing entry exactly once |
| `AdminSpace.SharedStorageNameListedTwice` | plugins/zenoh-plugin-storage-manager/src/lib.rs:343-359 | storages of one name on two volumes whose workers reply alike put the same response at two positions of the result |

## Findings

| source | as written | input that shows it | evidently intended | confidence | as-written member | corrected member |
|---|---|---|---|---|---|---|
| plugins/zenoh-plugin-storage-manager/src/lib.rs:155-174 | after the first loadable path registers the volume, `break` leaves the loop and the unconditional `bail!` after it returns "Failed to find a suitable library" | a volume other than `memory` with paths `["a.so"]`, where `a.so` loads, exports the entry point and creates a backend | return success once a path has loaded and registered the volume | high; not executed | `RuntimeSpec.ByPathsLoadStillFails` | `RuntimeSpec.SpawnVolumeIntended` |

The corrected definition and its properties are `RuntimeSpec.SpawnVolumeIntended`
and `RuntimeSpec.IntendedByPaths`. The runtime class and `RuntimeSpec.Update`
keep the behaviour as written, because that is what the plugin executes.

## Left out

- Dynamic library loading and FFI (`libloading::Library`, `LibLoader`, symbol lookup): these are the `Host` functions. Platform file-name suffixes (`.so`, `.dll`, `.dylib`) belong to the loader and are not modelled.
- The ownership rule that a library outlives its backend, and `VolumeHandle`'s `Drop` clearing the `stopper` flag: drop order and the cross-thread `AtomicBool` signal are not modelled; `VolumeHandle` carries no stopper.
- Async channels and blocking (`task::block_on`, `join_all`, `Sender::send`): `Stop` sends are not state changes here. `KillVolume` and `KillStorage` return the handles they send `Stop` to. A `GetStatus` reply is the function `storageStatus`, where None stands for a closed channel.
- `create_and_start_storage` is not part of this model: it is the fallible `startStorage`. The interceptors it receives and any change it makes inside the backend object are not modelled.
- `Mutex` and `Arc` around the runtime, and the session, `Runtime` and `Plugin::start` glue: concurrency and I/O.
- Configuration parsing and diffing (`PluginConfig::try_from`, `ConfigDiff::diffs`, `config_checker`) come from modules that are not part of this model. `VolumeConfig` carries the result of `backend_search_method()` directly. The built-in volume's configuration uses a by-name search, which its branch never consults.
- Error messages are typed `Error` values carrying what each message names, not formatted strings.
- `zenoh::utils::key_expr::intersect`, `get_admin_status` and `GIT_VERSION` are the parameters of `Introspection`.
- `KeyString.KeyBuffer.WithExtendedString`: the closure is a pure function of the extended key, so it cannot change the buffer. The getter's nested calls are written out as `Extend`, the body and `Truncate`. The source restores the prefix only when the closure leaves the first `prefix_len` characters in place, which every closure in the getter does.
- Logging (`env_logger`, `log::debug!`, `log::info!`).
- `zenoh/examples/zenoh-net/zn_pub.rs`: a demo publisher (argument parsing, session, publish loop), I/O only.
