/** The two on-disk formats of the caches: JSON text and pickled objects. */
module Codecs {
  import opened Results
  import opened Json
  import opened JsonRoundTrip
  import FileStore

  /** A value a Python program can hand to `json.dump`: no dict has a key twice. */
  type PyJson = v: Json | Valid(v) witness Null

  /** Why reading a cache file back fails. */
  datatype DecodeError =
      /** `json.load` rejected the text. */
    | NotJson(reason: JsonError)
      /** `json.load` met a file written in binary mode. */
    | NotText
      /** `pickle.load` met a file written in text mode. */
    | NotPickle

  /** A file format: the file extension, Python's `None` in the format's
      values, and how a value is written and read back. */
  datatype Codec<!R, !V> = Codec(
    extension: string,
    isNone: R -> bool,
    encode: R -> FileStore.Content<V>,
    decode: FileStore.Content<V> -> Result<R, DecodeError>)

  /** Every value reads back as itself. */
  ghost predicate RoundTrips<R(!new), V>(c: Codec<R, V>) {
    forall x :: c.decode(c.encode(x)) == Ok(x)
  }

  /** `json.load` on a file: it succeeds exactly when the file is text that
      parses as JSON, and raises the parser's error otherwise. */
  function ReadJson<V>(c: FileStore.Content<V>): (r: Result<PyJson, DecodeError>)
    ensures c.Pickled? ==> r == Err(NotText)
    ensures c.Text? ==> (r.Ok? <==> Decode(c.text).Ok?)
    ensures c.Text? && r.Ok? ==> Decode(c.text) == Ok(r.value)
    ensures c.Text? && Decode(c.text).Err? ==> r == Err(NotJson(Decode(c.text).error))
  {
    match c
    case Pickled(_) => Err(NotText)
    case Text(t) =>
      match Decode(t)
      case Ok(v) => Ok(v)
      case Err(e) => Err(NotJson(e))
  }

  /** What `json.dump` writes, `json.load` reads back. */
  lemma ReadJsonEncode<V>()
    ensures forall x: PyJson :: ReadJson<V>(FileStore.Text(Encode(x))) == Ok(x)
  {
    forall x: PyJson
      ensures ReadJson<V>(FileStore.Text(Encode(x))) == Ok(x)
    {
      DecodeEncode(x);
    }
  }

  /** `json.dump(result, file)` and `json.load(file)`, for any stored object
      type: every value is written as its JSON text and reads back as itself. */
  function JsonCodec<V>(): (c: Codec<PyJson, V>)
    ensures c.extension == ".json"
    ensures forall x: PyJson :: c.isNone(x) <==> x == Null
    ensures forall x: PyJson :: c.encode(x) == FileStore.Text(Encode(x))
    ensures RoundTrips(c)
  {
    ReadJsonEncode<V>();
    Codec(".json", (x: PyJson) => x == Null, (x: PyJson) => FileStore.Text(Encode(x)), ReadJson)
  }

  /** `pickle.load` on a file. */
  function ReadPickle<T>(c: FileStore.Content<Option<T>>): (r: Result<Option<T>, DecodeError>)
    ensures c.Text? ==> r == Err(NotPickle)
    ensures c.Pickled? ==> r == Ok(c.obj)
  {
    match c
    case Text(_) => Err(NotPickle)
    case Pickled(obj) => Ok(obj)
  }

  /** `pickle.dump(result, file)` and `pickle.load(file)`; a Python object is
      `None` or `Some` value of type `T`. Every object reads back as itself,
      and a JSON text file is never read as a pickle. */
  function PickleCodec<T(!new)>(): (c: Codec<Option<T>, Option<T>>)
    ensures c.extension == ".pickle"
    ensures forall x :: c.isNone(x) <==> x.None?
    ensures forall x :: c.encode(x) == FileStore.Pickled(x)
    ensures RoundTrips(c)
    ensures forall t :: c.decode(FileStore.Text(t)).Err?
  {
    Codec(".pickle", (x: Option<T>) => x.None?, (x: Option<T>) => FileStore.Pickled(x), ReadPickle)
  }
}
