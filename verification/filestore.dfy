/** The part of a filesystem the caches touch: a set of directories and a map
    from file locations to their contents. */
module FileStore {
  import opened Paths

  /** A file: the directory it is in and its name there. */
  datatype FileKey = FileKey(dir: Path, name: string)

  /** What a cache file holds: text written in text mode, or an object
      written with `pickle.dump`, whose byte format is not modelled. */
  datatype Content<V> = Text(text: string) | Pickled(obj: V)

  datatype Fs<V> = Fs(dirs: set<Path>, files: map<FileKey, Content<V>>)

  /** The root and the current directory always exist. */
  predicate DirExists<V>(fs: Fs<V>, d: Path) {
    |d.parts| == 0 || d in fs.dirs
  }

  /** Every directory's parents exist, and every file is in a directory that exists. */
  ghost predicate Valid<V>(fs: Fs<V>) {
    && (forall d, a :: d in fs.dirs && IsPrefixDir(a, d) ==> a in fs.dirs)
    && (forall k :: k in fs.files ==> DirExists(fs, k.dir))
  }

  /** `os.makedirs(d, exist_ok=True)`. */
  function MakeDirs<V>(fs: Fs<V>, d: Path): (r: Fs<V>)
    ensures r.files == fs.files
    ensures forall a :: a in r.dirs <==> a in fs.dirs || IsPrefixDir(a, d)
    ensures DirExists(r, d)
  {
    assert |d.parts| > 0 ==> IsPrefixDir(d, d);
    Fs(fs.dirs + Ancestors(d), fs.files)
  }

  /** Opening `k` for writing and writing `c`: the directory must exist. */
  function Write<V>(fs: Fs<V>, k: FileKey, c: Content<V>): (r: Fs<V>)
    requires DirExists(fs, k.dir)
    ensures r.dirs == fs.dirs
    ensures k in r.files && r.files[k] == c
    ensures forall k' :: k' != k ==> (k' in r.files <==> k' in fs.files)
    ensures forall k' :: k' != k && k' in fs.files ==> r.files[k'] == fs.files[k']
  {
    Fs(fs.dirs, fs.files[k := c])
  }

  /** Making directories twice is making them once. */
  lemma MakeDirsIdempotent<V>(fs: Fs<V>, d: Path)
    ensures MakeDirs(MakeDirs(fs, d), d) == MakeDirs(fs, d)
  {
    var once := MakeDirs(fs, d);
    assert MakeDirs(once, d).dirs == once.dirs;
  }

  /** Making directories leaves every directory's parents in place. */
  lemma MakeDirsValid<V>(fs: Fs<V>, d: Path)
    requires Valid(fs)
    ensures Valid(MakeDirs(fs, d))
  {
    var r := MakeDirs(fs, d);
    forall e, a | e in r.dirs && IsPrefixDir(a, e)
      ensures a in r.dirs
    {
      if IsPrefixDir(e, d) {
        PrefixDirTransitive(a, e, d);
      }
    }
  }

  /** Writing a file into an existing directory keeps the store valid. */
  lemma WriteValid<V>(fs: Fs<V>, k: FileKey, c: Content<V>)
    requires Valid(fs) && DirExists(fs, k.dir)
    ensures Valid(Write(fs, k, c))
  {
  }

  /** After `os.makedirs(d)`, every directory from the top down to `d` exists. */
  lemma MakeDirsAncestors<V>(fs: Fs<V>, d: Path, i: nat)
    requires i <= |d.parts|
    ensures DirExists(MakeDirs(fs, d), Path(d.absolute, d.parts[..i]))
  {
    if i > 0 {
      assert IsPrefixDir(Path(d.absolute, d.parts[..i]), d);
    }
  }
}
