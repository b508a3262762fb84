/** What the persistent caches share: the world a call sees and changes,
    and the ways a call can fail. */
module CacheState {
  import opened Results
  import Template
  import Paths
  import FileStore
  import Codecs

  datatype CacheError =
      /** `template_dir.format(**self.__dict__)` raised. */
    | TemplateFailure(templateError: Template.TemplateError)
      /** The cache file exists but `json.load` or `pickle.load` raised. */
    | CorruptFile(file: FileStore.FileKey, decodeError: Codecs.DecodeError)
      /** Opening the cache file for writing raised FileNotFoundError. */
    | NoSuchDirectory(dir: Paths.Path)

  /** The filesystem, and how many times the wrapped function has run so far.
      The wrapped function sees that count, so a function whose answer
      changes from one run to the next can be expressed. */
  datatype World<V> = World(fs: FileStore.Fs<V>, invocations: nat)

  /** What a call returns, or raises, and the world after it. */
  datatype Reply<R, V> = Reply(result: Result<R, CacheError>, world: World<V>)
}
