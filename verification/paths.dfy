/** Directory paths as `pathlib.Path` reads them from a string on POSIX: the
    string is split at `/`, empty parts and `.` parts are dropped, and a
    leading `/` makes the path absolute. */
module Paths {

  import opened Strings

  datatype Path = Path(absolute: bool, parts: seq<string>)

  /** A part as `pathlib` keeps it: non-empty, not `.`, without a slash. */
  predicate IsPart(s: string) {
    |s| > 0 && s != "." && forall i :: 0 <= i < |s| ==> s[i] != '/'
  }

  predicate Normal(p: Path) {
    forall i :: 0 <= i < |p.parts| ==> IsPart(p.parts[i])
  }

  /** The parts of `s` between slashes, without the empty ones and `.`. */
  function Components(s: string): (parts: seq<string>)
    ensures forall i :: 0 <= i < |parts| ==> IsPart(parts[i])
    decreases |s|
  {
    var j := Find(s, '/');
    var rest := if j < |s| then Components(s[j + 1..]) else [];
    if j == 0 || s[..j] == "." then rest else [s[..j]] + rest
  }

  /** `Path(s)`. */
  function ParsePath(s: string): (p: Path)
    ensures Normal(p)
    ensures p.absolute <==> |s| > 0 && s[0] == '/'
  {
    Path(|s| > 0 && s[0] == '/', Components(s))
  }

  function JoinParts(parts: seq<string>): string {
    if |parts| == 0 then ""
    else if |parts| == 1 then parts[0]
    else parts[0] + "/" + JoinParts(parts[1..])
  }

  /** `str(p)`: the parts joined by slashes, `.` for the empty relative path. */
  function PathText(p: Path): string {
    if p.absolute then "/" + JoinParts(p.parts)
    else if |p.parts| == 0 then "."
    else JoinParts(p.parts)
  }

  lemma ComponentsOfPart(part: string, rest: string)
    requires IsPart(part)
    ensures Components(part + "/" + rest) == [part] + Components(rest)
  {
    var s := part + "/" + rest;
    assert forall i :: 0 <= i < |part| ==> s[i] == part[i];
    assert Find(s, '/') == |part| by {
      assert s[|part|] == '/';
    }
    assert s[..|part|] == part;
    assert s[|part| + 1..] == rest;
  }

  lemma ComponentsOfLast(part: string)
    requires IsPart(part)
    ensures Components(part) == [part]
  {
    assert Find(part, '/') == |part|;
    assert part[..|part|] == part;
  }

  /** A part, a slash and more: the part is the first component. */
  lemma ComponentsThen(part: string, rest: string)
    requires IsPart(part)
    ensures Components(part + ("/" + rest)) == [part] + Components(rest)
  {
    ComponentsOfPart(part, rest);
    assert part + "/" + rest == part + ("/" + rest);
  }

  /** Splitting joined parts gives the parts back. */
  lemma {:induction false} ComponentsOfJoin(parts: seq<string>)
    requires forall i :: 0 <= i < |parts| ==> IsPart(parts[i])
    ensures Components(JoinParts(parts)) == parts
    decreases |parts|
  {
    if |parts| == 1 {
      ComponentsOfLast(parts[0]);
    } else if |parts| > 1 {
      ComponentsOfJoin(parts[1..]);
      ComponentsOfPart(parts[0], JoinParts(parts[1..]));
      assert [parts[0]] + parts[1..] == parts;
    }
  }

  lemma ComponentsAfterSlash(s: string)
    ensures Components("/" + s) == Components(s)
  {
    assert Find("/" + s, '/') == 0;
    assert ("/" + s)[1..] == s;
  }

  lemma ComponentsOfDot()
    ensures Components(".") == []
  {
    assert Find(".", '/') == 1;
    assert "."[..1] == ".";
  }

  /** Reading back a rendered path gives the path. */
  lemma ParsePathText(p: Path)
    requires Normal(p)
    ensures ParsePath(PathText(p)) == p
  {
    ComponentsOfJoin(p.parts);
    if p.absolute {
      ComponentsAfterSlash(JoinParts(p.parts));
    } else if |p.parts| == 0 {
      ComponentsOfDot();
    } else {
      JoinPartsHead(p.parts);
    }
    hide Components, JoinParts;
  }

  lemma JoinPartsHead(parts: seq<string>)
    requires |parts| > 0 && IsPart(parts[0])
    ensures |JoinParts(parts)| > 0 && JoinParts(parts)[0] == parts[0][0] != '/'
  {
    if |parts| > 1 {
      assert JoinParts(parts) == parts[0] + ("/" + JoinParts(parts[1..]));
    }
  }

  /** `a` is `d` or one of the directories above it, the root excluded. */
  predicate IsPrefixDir(a: Path, d: Path) {
    && a.absolute == d.absolute
    && 0 < |a.parts| <= |d.parts|
    && a.parts == d.parts[..|a.parts|]
  }

  /** The directories `os.makedirs(d)` makes sure of: `d` and every directory
      above it, up to but not including the root or the current directory. */
  function Ancestors(d: Path): (s: set<Path>)
    ensures forall a :: a in s <==> IsPrefixDir(a, d)
  {
    var s := set i | 1 <= i <= |d.parts| :: Path(d.absolute, d.parts[..i]);
    assert forall a :: IsPrefixDir(a, d) ==> a == Path(d.absolute, d.parts[..|a.parts|]);
    s
  }

  lemma PrefixDirTransitive(a: Path, b: Path, c: Path)
    requires IsPrefixDir(a, b) && IsPrefixDir(b, c)
    ensures IsPrefixDir(a, c)
  {
    assert c.parts[..|b.parts|][..|a.parts|] == c.parts[..|a.parts|];
  }
}
