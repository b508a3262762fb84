/** `cache_to_pickle(path)` and `cache_to_json(path)`: one file for every call.
    A missing file reads as `None`; a value other than `None` read from the
    file is returned; otherwise the function runs and its result overwrites
    the file. */
module FixedCache {
  import opened Results
  import FileStore
  import opened Codecs
  import opened CacheState

  /** What the file holds: `None` when it does not exist, its decoded content
      otherwise, or the error reading it raised. */
  function ReadCached<R, V>(codec: Codec<R, V>, key: FileStore.FileKey, fs: FileStore.Fs<V>)
    : (r: Result<Option<R>, CacheError>)
    ensures r == Ok(None) <==> key !in fs.files
    ensures key in fs.files && codec.decode(fs.files[key]).Ok? ==> r == Ok(Some(codec.decode(fs.files[key]).value))
    ensures key in fs.files && codec.decode(fs.files[key]).Err? ==> r == Err(CorruptFile(key, codec.decode(fs.files[key]).error))
  {
    if key !in fs.files then Ok(None)
    else
      match codec.decode(fs.files[key])
      case Ok(x) => Ok(Some(x))
      case Err(e) => Err(CorruptFile(key, e))
  }

  /** A file holding what a round-tripping codec wrote for `x` reads as `x`. */
  lemma ReadCachedReadsBack<R(!new), V>(codec: Codec<R, V>, key: FileStore.FileKey, fs: FileStore.Fs<V>, x: R)
    requires RoundTrips(codec)
    requires key in fs.files && fs.files[key] == codec.encode(x)
    ensures ReadCached(codec, key, fs) == Ok(Some(x))
  {
  }

  /** One call of the wrapped function `op` with `args`, caching in the file `key`. */
  function FixedCall<A, R, V>(codec: Codec<R, V>, key: FileStore.FileKey, op: (A, nat) -> R, args: A, w: World<V>)
    : (reply: Reply<R, V>)
    // No directory is ever made.
    ensures reply.world.fs.dirs == w.fs.dirs
    // A file that does not decode is raised, and nothing runs.
    ensures ReadCached(codec, key, w.fs).Err? ==> reply == Reply(Err(ReadCached(codec, key, w.fs).error), w)
    // A stored value other than None is returned, and nothing runs.
    ensures ReadCached(codec, key, w.fs).Ok? && ReadCached(codec, key, w.fs).value.Some?
         && !codec.isNone(ReadCached(codec, key, w.fs).value.value)
         ==> reply == Reply(Ok(ReadCached(codec, key, w.fs).value.value), w)
    // A missing file or a stored None runs the function once; its result is
    // written if the directory exists, and otherwise the write raises.
    ensures ReadCached(codec, key, w.fs).Ok?
         && (ReadCached(codec, key, w.fs).value.None? || codec.isNone(ReadCached(codec, key, w.fs).value.value))
         ==> && reply.world.invocations == w.invocations + 1
             && (FileStore.DirExists(w.fs, key.dir) ==>
                   && reply.result == Ok(op(args, w.invocations))
                   && reply.world.fs.files == w.fs.files[key := codec.encode(op(args, w.invocations))])
             && (!FileStore.DirExists(w.fs, key.dir) ==>
                   && reply.result == Err(NoSuchDirectory(key.dir))
                   && reply.world.fs == w.fs)
  {
    match ReadCached(codec, key, w.fs)
    case Err(e) => Reply(Err(e), w)
    case Ok(cached) =>
      if cached.Some? && !codec.isNone(cached.value) then Reply(Ok(cached.value), w)
      else
        var result := op(args, w.invocations);
        if FileStore.DirExists(w.fs, key.dir) then
          Reply(Ok(result), World(FileStore.Write(w.fs, key, codec.encode(result)), w.invocations + 1))
        else
          Reply(Err(NoSuchDirectory(key.dir)), World(w.fs, w.invocations + 1))
  }

  /** `@cache_to_pickle(path)`. */
  function CacheToPickle<A, T(!new)>(key: FileStore.FileKey, op: (A, nat) -> Option<T>, args: A, w: World<Option<T>>)
    : (reply: Reply<Option<T>, Option<T>>)
    ensures reply.result.Ok? && reply.world.invocations == w.invocations ==> reply.result.value.Some?
  {
    FixedCall(PickleCodec(), key, op, args, w)
  }

  /** `@cache_to_json(path)`. */
  function CacheToJson<A, V>(key: FileStore.FileKey, op: (A, nat) -> PyJson, args: A, w: World<V>)
    : (reply: Reply<PyJson, V>)
    ensures reply.result.Ok? && reply.world.invocations == w.invocations ==> reply.result.value != Json.Null
  {
    FixedCall(JsonCodec(), key, op, args, w)
  }

  /** Once a call has returned a value other than None, the next call returns
      it again without running the function, and changes nothing. */
  lemma FixedRepeatCallHits<A, R(!new), V>(codec: Codec<R, V>, key: FileStore.FileKey, op: (A, nat) -> R, args1: A, args2: A, w: World<V>)
    requires RoundTrips(codec)
    requires FixedCall(codec, key, op, args1, w).result.Ok?
    requires !codec.isNone(FixedCall(codec, key, op, args1, w).result.value)
    ensures var first := FixedCall(codec, key, op, args1, w);
      FixedCall(codec, key, op, args2, first.world) == first
  {
  }

  /** A stored None is the same as no file at all. */
  lemma StoredNoneIsAMiss<A, R, V>(codec: Codec<R, V>, key: FileStore.FileKey, op: (A, nat) -> R, args: A, w: World<V>)
    requires FileStore.Valid(w.fs)
    requires key in w.fs.files && codec.decode(w.fs.files[key]).Ok?
    requires codec.isNone(codec.decode(w.fs.files[key]).value)
    ensures FixedCall(codec, key, op, args, w)
         == FixedCall(codec, key, op, args, World(FileStore.Fs(w.fs.dirs, w.fs.files - {key}), w.invocations))
  {
    var removed := World(FileStore.Fs(w.fs.dirs, w.fs.files - {key}), w.invocations);
    assert FileStore.DirExists(w.fs, key.dir);
    var r := op(args, w.invocations);
    assert w.fs.files[key := codec.encode(r)] == removed.fs.files[key := codec.encode(r)];
  }

  /** The world after calling the cached function once for each element of `argss`. */
  function Calls<A, R, V>(codec: Codec<R, V>, key: FileStore.FileKey, op: (A, nat) -> R, argss: seq<A>, w: World<V>)
    : World<V>
    decreases |argss|
  {
    if |argss| == 0 then w
    else Calls(codec, key, op, argss[1..], FixedCall(codec, key, op, argss[0], w).world)
  }

  /** What the file holds reads back as None, or there is no file. */
  predicate HoldsNone<R, V>(codec: Codec<R, V>, key: FileStore.FileKey, fs: FileStore.Fs<V>) {
    key in fs.files ==> codec.decode(fs.files[key]).Ok? && codec.isNone(codec.decode(fs.files[key]).value)
  }

  /** A function that returns None is never cached: every call runs it. */
  lemma {:induction false} NoneRunsEveryTime<A, R(!new), V>(
    codec: Codec<R, V>, key: FileStore.FileKey, op: (A, nat) -> R, argss: seq<A>, w: World<V>)
    requires RoundTrips(codec)
    requires forall a, i :: codec.isNone(op(a, i))
    requires HoldsNone(codec, key, w.fs)
    ensures Calls(codec, key, op, argss, w).invocations == w.invocations + |argss|
    decreases |argss|
  {
    if |argss| > 0 {
      var next := FixedCall(codec, key, op, argss[0], w).world;
      assert HoldsNone(codec, key, next.fs);
      NoneRunsEveryTime(codec, key, op, argss[1..], next);
    }
  }
}
