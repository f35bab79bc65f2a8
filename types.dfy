/** Values the storage manager works with: configurations, the diffs applied to
    the runtime, the handles it keeps, its errors, and the foreign world
    (library loader, backend entry points, storage workers) it calls into. */
module Types {

  datatype Option<T> = None | Some(value: T)

  /** How a non-built-in volume finds its backend library. */
  datatype BackendSearchMethod =
    | ByPaths(paths: seq<string>)   // explicit library files, tried in order
    | ByName(backendName: string)   // searched for in the backend search directories

  /** A volume's configuration. `search` is what the configuration's
      `backend_search_method()` yields; `rest` holds the backend's own settings. */
  datatype VolumeConfig = VolumeConfig(
    name: string,
    search: BackendSearchMethod,
    required: bool,
    rest: map<string, string>)

  /** A storage's configuration: its name, the volume hosting it and the key
      expression it stores. */
  datatype StorageConfig = StorageConfig(name: string, volumeId: string, keyExpr: string)

  /** One step of a configuration change. */
  datatype ConfigDiff =
    | DeleteVolume(volume: VolumeConfig)
    | AddVolume(volume: VolumeConfig)
    | DeleteStorage(storage: StorageConfig)
    | AddStorage(storage: StorageConfig)

  /** Opaque tokens: a backend instance, a loaded dynamic library, and the
      sending end of a storage worker's control channel. */
  datatype Backend = Backend(id: nat)
  datatype Library = Library(id: nat)
  datatype StorageHandle = StorageHandle(id: nat)

  /** A registered volume: its backend, the library that produced it (none for
      the built-in backend) and that library's path. */
  datatype VolumeHandle = VolumeHandle(backend: Backend, lib: Option<Library>, libPath: string)

  /** A successful library load: the library and the path it was loaded from. */
  datatype Loaded = Loaded(lib: Library, path: string)

  /** The errors the runtime returns; each carries what its message names. */
  datatype Error =
    | MemoryBackendFailed(message: string)
    | NoLibraryInPaths(volumeId: string, paths: seq<string>)
    | NoLibraryByName(volumeId: string, filename: string)
    | EntryPointMissing(volumeId: string, libPath: string)
    | BackendCreateFailed(volumeId: string, libPath: string, message: string)
    | WorkerStartFailed(message: string)
    | VolumeNotFound(volumeId: string)

  datatype Outcome = Ok | Err(error: Error)

  datatype Created<T> = Created(value: T) | Failed(message: string)

  /** The calls the runtime makes into code outside this model, as total
      functions of their arguments:
      - createMemoryBackend: building the built-in in-memory backend;
      - loadFile: `LibLoader::load_file` on one path;
      - searchAndLoad: the loader's search of its directories for a file name;
      - hasEntryPoint: whether the library exports the backend-creation symbol;
      - createBackend: calling that symbol with the volume's configuration;
      - startStorage: starting a storage worker (admin key, configuration, backend). */
  datatype Host = Host(
    createMemoryBackend: VolumeConfig -> Created<Backend>,
    loadFile: string -> Option<Loaded>,
    searchAndLoad: string -> Option<Loaded>,
    hasEntryPoint: Library -> bool,
    createBackend: (Library, VolumeConfig) -> Created<Backend>,
    startStorage: (string, StorageConfig, Backend) -> Created<StorageHandle>)

  /** The runtime's two maps: volume name to handle, and volume name to
      (storage name to control handle). */
  datatype State = State(
    volumes: map<string, VolumeHandle>,
    storages: map<string, map<string, StorageHandle>>)

  /** A state together with the result of the call that produced it. */
  datatype Applied = Applied(state: State, outcome: Outcome)

  const MEMORY_BACKEND_NAME: string := "memory"
  const BACKEND_LIB_PREFIX: string := "zbackend_"
  const STATIC_MEMORY_PATH: string := "<static-memory>"
}
