/** `dynamic_cache_to_json` and `dynamic_cache_to_pickle`: the cache file of a
    method call is `<template resolved against the owner>/<method name><ext>`.
    If the file exists its content is returned; otherwise the method runs
    and its result is written there and returned. */
module DynamicCache {
  import opened Results
  import Template
  import opened Paths
  import FileStore
  import opened Codecs
  import opened CacheState
  import Json

  type Attributes = Template.Attributes

  /** Where a call caches its result: it depends on the template, the
      owner's attributes, the method's name and the format, and on nothing else. */
  function CacheKey<R, V>(codec: Codec<R, V>, template: string, funcName: string, owner: Attributes)
    : (r: Result<FileStore.FileKey, Template.TemplateError>)
    ensures r.Err? <==> Template.Resolve(template, owner).Err?
    ensures r.Err? ==> r.error == Template.Resolve(template, owner).error
    ensures r.Ok? ==> Normal(r.value.dir) && r.value.name == funcName + codec.extension
    ensures r.Ok? ==> r.value.dir == ParsePath(Template.Resolve(template, owner).value)
  {
    match Template.Resolve(template, owner)
    case Err(e) => Err(e)
    case Ok(dir) => Ok(FileStore.FileKey(ParsePath(dir), funcName + codec.extension))
  }

  /** One call of the wrapped method `op` on `owner` with `args`. */
  function DynamicCall<A, R, V>(
    codec: Codec<R, V>, template: string, funcName: string,
    op: (Attributes, A, nat) -> R, owner: Attributes, args: A, w: World<V>)
    : (reply: Reply<R, V>)
    // A template that does not resolve changes nothing and runs nothing.
    ensures CacheKey(codec, template, funcName, owner).Err? ==>
      reply == Reply(Err(TemplateFailure(CacheKey(codec, template, funcName, owner).error)), w)
    // Otherwise the directory and all above it exist afterwards, and no other directory is made.
    ensures CacheKey(codec, template, funcName, owner).Ok? ==>
      var key := CacheKey(codec, template, funcName, owner).value;
      && FileStore.DirExists(reply.world.fs, key.dir)
      && (forall a :: a in reply.world.fs.dirs <==> a in w.fs.dirs || IsPrefixDir(a, key.dir))
    // A hit returns what the file decodes to, and neither runs the method nor writes.
    ensures CacheKey(codec, template, funcName, owner).Ok? ==>
      var key := CacheKey(codec, template, funcName, owner).value;
      key in w.fs.files ==>
        && reply.world.invocations == w.invocations
        && reply.world.fs.files == w.fs.files
        && reply.result == match codec.decode(w.fs.files[key])
                           case Ok(x) => Ok(x)
                           case Err(e) => Err(CorruptFile(key, e))
    // A miss runs the method once, writes its result to the cache file only,
    // and returns the result as the method gave it.
    ensures CacheKey(codec, template, funcName, owner).Ok? ==>
      var key := CacheKey(codec, template, funcName, owner).value;
      key !in w.fs.files ==>
        && reply.world.invocations == w.invocations + 1
        && reply.result == Ok(op(owner, args, w.invocations))
        && reply.world.fs.files == w.fs.files[key := codec.encode(op(owner, args, w.invocations))]
  {
    match CacheKey(codec, template, funcName, owner)
    case Err(e) => Reply(Err(TemplateFailure(e)), w)
    case Ok(key) =>
      var fs := FileStore.MakeDirs(w.fs, key.dir);
      if key in fs.files then
        match codec.decode(fs.files[key])
        case Ok(x) => Reply(Ok(x), World(fs, w.invocations))
        case Err(e) => Reply(Err(CorruptFile(key, e)), World(fs, w.invocations))
      else
        var result := op(owner, args, w.invocations);
        Reply(Ok(result), World(FileStore.Write(fs, key, codec.encode(result)), w.invocations + 1))
  }

  /** `@dynamic_cache_to_json(template)` around a method named `funcName`. */
  function DynamicCacheToJson<A, V>(
    template: string, funcName: string,
    op: (Attributes, A, nat) -> PyJson, owner: Attributes, args: A, w: World<V>)
    : (reply: Reply<PyJson, V>)
    // The file is `<method name>.json`, and a miss leaves in it the `json.dump` text of the result.
    ensures CacheKey(JsonCodec<V>(), template, funcName, owner).Ok? ==>
      var key := CacheKey(JsonCodec<V>(), template, funcName, owner).value;
      && key.name == funcName + ".json"
      && (key !in w.fs.files ==>
            && reply.result.Ok?
            && key in reply.world.fs.files
            && reply.world.fs.files[key] == FileStore.Text(Json.Encode(reply.result.value)))
  {
    DynamicCall(JsonCodec(), template, funcName, op, owner, args, w)
  }

  /** `@dynamic_cache_to_pickle(template)` around a method named `funcName`. */
  function DynamicCacheToPickle<A, T(!new)>(
    template: string, funcName: string,
    op: (Attributes, A, nat) -> Option<T>, owner: Attributes, args: A, w: World<Option<T>>)
    : (reply: Reply<Option<T>, Option<T>>)
    // The file is `<method name>.pickle`, and a miss leaves the pickled result in it.
    ensures CacheKey(PickleCodec<T>(), template, funcName, owner).Ok? ==>
      var key := CacheKey(PickleCodec<T>(), template, funcName, owner).value;
      && key.name == funcName + ".pickle"
      && (key !in w.fs.files ==>
            && reply.result.Ok?
            && key in reply.world.fs.files
            && reply.world.fs.files[key] == FileStore.Pickled(reply.result.value))
  {
    DynamicCall(PickleCodec(), template, funcName, op, owner, args, w)
  }

  /** Once a call has returned a value, the next call on the same owner
      returns the same value without running the method, whatever its
      arguments, and leaves the world as it was. */
  lemma RepeatCallHits<A, R(!new), V>(
    codec: Codec<R, V>, template: string, funcName: string,
    op: (Attributes, A, nat) -> R, owner: Attributes, args1: A, args2: A, w: World<V>)
    requires RoundTrips(codec)
    requires DynamicCall(codec, template, funcName, op, owner, args1, w).result.Ok?
    ensures var first := DynamicCall(codec, template, funcName, op, owner, args1, w);
      DynamicCall(codec, template, funcName, op, owner, args2, first.world) == first
  {
    var first := DynamicCall(codec, template, funcName, op, owner, args1, w);
    var key := CacheKey(codec, template, funcName, owner).value;
    var fs := FileStore.MakeDirs(w.fs, key.dir);
    FileStore.MakeDirsIdempotent(w.fs, key.dir);
    if key !in w.fs.files {
      var written := FileStore.Write(fs, key, codec.encode(op(owner, args1, w.invocations)));
      assert FileStore.MakeDirs(written, key.dir) == written by {
        assert FileStore.MakeDirs(written, key.dir).dirs == written.dirs;
      }
    }
  }

  /** A hit does not depend on the call's arguments. */
  lemma HitIgnoresArguments<A, R, V>(
    codec: Codec<R, V>, template: string, funcName: string,
    op: (Attributes, A, nat) -> R, owner: Attributes, args1: A, args2: A, w: World<V>)
    requires CacheKey(codec, template, funcName, owner).Ok?
    requires CacheKey(codec, template, funcName, owner).value in w.fs.files
    ensures DynamicCall(codec, template, funcName, op, owner, args1, w)
         == DynamicCall(codec, template, funcName, op, owner, args2, w)
  {
  }

  /** On a store whose directories and files are consistent, a hit leaves the
      world exactly as it was. */
  lemma HitChangesNothing<A, R, V>(
    codec: Codec<R, V>, template: string, funcName: string,
    op: (Attributes, A, nat) -> R, owner: Attributes, args: A, w: World<V>)
    requires FileStore.Valid(w.fs)
    requires CacheKey(codec, template, funcName, owner).Ok?
    requires CacheKey(codec, template, funcName, owner).value in w.fs.files
    ensures DynamicCall(codec, template, funcName, op, owner, args, w).world == w
  {
    var key := CacheKey(codec, template, funcName, owner).value;
    assert FileStore.MakeDirs(w.fs, key.dir).dirs == w.fs.dirs by {
      forall a | IsPrefixDir(a, key.dir)
        ensures a in w.fs.dirs
      {
        if |key.dir.parts| > 0 {
          assert key.dir in w.fs.dirs;
        }
      }
    }
  }

  /** A call keeps the filesystem consistent. */
  lemma CallKeepsStoreValid<A, R, V>(
    codec: Codec<R, V>, template: string, funcName: string,
    op: (Attributes, A, nat) -> R, owner: Attributes, args: A, w: World<V>)
    requires FileStore.Valid(w.fs)
    ensures FileStore.Valid(DynamicCall(codec, template, funcName, op, owner, args, w).world.fs)
  {
    var key := CacheKey(codec, template, funcName, owner);
    if key.Ok? {
      FileStore.MakeDirsValid(w.fs, key.value.dir);
    }
  }
}
