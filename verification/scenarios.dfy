/** The behaviours the repository's own tests look for, stated on concrete
    inputs and derived from the general lemmas. */
module Scenarios {
  import opened Results
  import Json
  import Template
  import Digits
  import opened Paths
  import FileStore
  import opened Codecs
  import opened CacheState
  import opened DynamicCache
  import CountCache
  import Strings

  /** A template `<root>{f1}/{f2}/`, as the tests write `f"{tmp}/{{exchange_name}}/{{market_type}}/"`. */
  function NestedText(root: string, f1: string, f2: string): string {
    root + ("{" + f1 + "}" + ("/" + ("{" + f2 + "}" + "/")))
  }

  predicate NoBraces(s: string) {
    forall i :: 0 <= i < |s| ==> s[i] != '{' && s[i] != '}'
  }

  /** The nested template resolves to `<root><value of f1>/<value of f2>/`,
      or fails on the first of its two fields the owner lacks. */
  lemma NestedResolves(root: string, f1: string, f2: string, attrs: Template.Attributes)
    requires NoBraces(root) && Template.IsName(f1) && Template.IsName(f2)
    ensures Template.Resolve(NestedText(root, f1, f2), attrs)
         == if f1 !in attrs then Err(Template.MissingAttribute(f1))
            else if f2 !in attrs then Err(Template.MissingAttribute(f2))
            else Ok(root + (attrs[f1] + ("/" + (attrs[f2] + "/"))))
  {
    assert Template.Resolve("", attrs) == Ok("");
    hide Template.Resolve;
    var t4 := "{" + f2 + "}" + "/";
    var t3 := "/" + t4;
    var t2 := "{" + f1 + "}" + t3;
    Template.ResolvePlain("/", "", attrs);
    assert "/" + "" == "/";
    Template.ResolveField(f2, "/", attrs);
    Template.ResolvePlain("/", t4, attrs);
    Template.ResolveField(f1, t3, attrs);
    Template.ResolvePlain(root, t2, attrs);
  }

  /** A directory like the one `tempfile.mkdtemp()` returns: absolute, below
      the root, and without braces, so that `format` copies its text. */
  predicate TempDir(root: Path) {
    && root.absolute
    && |root.parts| > 0
    && Normal(root)
    && forall i :: 0 <= i < |root.parts| ==> NoBraces(root.parts[i])
  }

  lemma {:induction false} JoinNoBraces(parts: seq<string>)
    requires forall i :: 0 <= i < |parts| ==> NoBraces(parts[i])
    ensures NoBraces(JoinParts(parts))
    decreases |parts|
  {
    if |parts| > 1 {
      JoinNoBraces(parts[1..]);
      var t := JoinParts(parts[1..]);
      assert JoinParts(parts) == parts[0] + "/" + t;
      assert NoBraces(parts[0]);
      forall i | 0 <= i < |JoinParts(parts)|
        ensures JoinParts(parts)[i] != '{' && JoinParts(parts)[i] != '}'
      {
        if i > |parts[0]| {
          assert JoinParts(parts)[i] == t[i - |parts[0]| - 1];
        }
      }
    }
  }

  /** The text of a temporary directory, followed by a slash, has no braces. */
  lemma RootTextNoBraces(root: Path)
    requires TempDir(root)
    ensures NoBraces(PathText(root) + "/")
  {
    JoinNoBraces(root.parts);
    var j := JoinParts(root.parts);
    assert PathText(root) + "/" == "/" + j + "/";
    forall i | 0 <= i < |"/" + j + "/"|
      ensures ("/" + j + "/")[i] != '{' && ("/" + j + "/")[i] != '}'
    {
      if 0 < i <= |j| {
        assert ("/" + j + "/")[i] == j[i - 1];
      }
    }
  }

  /** Slash-joined parts, a slash, and more: the parts, then the parts of the rest. */
  lemma {:induction false} ComponentsOfJoinThen(parts: seq<string>, rest: string)
    requires |parts| > 0 && forall i :: 0 <= i < |parts| ==> IsPart(parts[i])
    ensures Components(JoinParts(parts) + ("/" + rest)) == parts + Components(rest)
    decreases |parts|
  {
    if |parts| == 1 {
      assert JoinParts(parts) == parts[0];
      hide *;
      ComponentsThen(parts[0], rest);
      assert [parts[0]] == parts;
    } else {
      var tail := JoinParts(parts[1..]);
      JoinThen(parts, rest);
      hide *;
      ComponentsThen(parts[0], tail + ("/" + rest));
      ComponentsOfJoinThen(parts[1..], rest);
      var c := Components(rest);
      Strings.Assoc3([parts[0]], parts[1..], c);
      assert [parts[0]] + parts[1..] == parts;
    }
  }

  lemma JoinThen(parts: seq<string>, rest: string)
    requires |parts| > 1
    ensures JoinParts(parts) + ("/" + rest) == parts[0] + ("/" + (JoinParts(parts[1..]) + ("/" + rest)))
  {
    var tail := JoinParts(parts[1..]);
    var x := "/" + rest;
    assert JoinParts(parts) == (parts[0] + "/") + tail;
    hide *;
    Strings.Assoc3(parts[0] + "/", tail, x);
    Strings.Assoc3(parts[0], "/", tail + x);
  }

  /** `<root>/<v1>/<v2>/` names the directory `root / v1 / v2`. */
  lemma RootedPath(root: Path, v1: string, v2: string)
    requires TempDir(root) && IsPart(v1) && IsPart(v2)
    ensures ParsePath((PathText(root) + "/") + (v1 + ("/" + (v2 + "/"))))
         == Path(true, root.parts + [v1, v2])
  {
    var j := JoinParts(root.parts);
    var rest := v1 + ("/" + (v2 + "/"));
    assert PathText(root) == "/" + j;
    hide Components, JoinParts, PathText;
    Strings.Assoc3("/" + j, "/", rest);
    Strings.Assoc3("/", j, "/" + rest);
    JoinThenTwo(root.parts, v1, v2);
    ComponentsAfterSlash(j + ("/" + rest));
  }

  /** Parts joined by slashes, then `/<v1>/<v2>/`: the parts, then `v1` and `v2`. */
  lemma JoinThenTwo(parts: seq<string>, v1: string, v2: string)
    requires |parts| > 0 && forall i :: 0 <= i < |parts| ==> IsPart(parts[i])
    requires IsPart(v1) && IsPart(v2)
    ensures Components(JoinParts(parts) + ("/" + (v1 + ("/" + (v2 + "/"))))) == parts + [v1, v2]
  {
    var rest := v1 + ("/" + (v2 + "/"));
    TwoParts(v1, v2);
    hide *;
    ComponentsOfJoinThen(parts, rest);
  }

  /** `v1/v2/` has the parts `v1` and `v2`. */
  lemma TwoParts(v1: string, v2: string)
    requires IsPart(v1) && IsPart(v2)
    ensures Components(v1 + ("/" + (v2 + "/"))) == [v1, v2]
  {
    assert Components("") == [];
    hide *;
    ComponentsThen(v2, "");
    assert v2 + ("/" + "") == v2 + "/";
    ComponentsThen(v1, v2 + "/");
  }

  /** Where a method caches under `<root>/{f1}/{f2}/`. */
  lemma RootedKey<V>(root: Path, f1: string, f2: string, funcName: string, owner: Template.Attributes)
    requires TempDir(root) && Template.IsName(f1) && Template.IsName(f2)
    requires f1 in owner && f2 in owner && IsPart(owner[f1]) && IsPart(owner[f2])
    ensures CacheKey(JsonCodec<V>(), NestedText(PathText(root) + "/", f1, f2), funcName, owner)
         == Ok(FileStore.FileKey(Path(true, root.parts + [owner[f1], owner[f2]]), funcName + ".json"))
  {
    RootTextNoBraces(root);
    NestedResolves(PathText(root) + "/", f1, f2, owner);
    RootedPath(root, owner[f1], owner[f2]);
  }

  /** With `root` a directory of a consistent store, the directories above
      `root / v1 / v2`, and itself, are those above `root` and the two new ones. */
  lemma RootedDirs(root: Path, v1: string, v2: string, old_dirs: set<Path>, new_dirs: set<Path>)
    requires root.absolute && |root.parts| > 0 && root in old_dirs
    requires forall a :: IsPrefixDir(a, root) ==> a in old_dirs
    requires forall a :: a in new_dirs <==> a in old_dirs || IsPrefixDir(a, Path(true, root.parts + [v1, v2]))
    ensures new_dirs == old_dirs + {Path(true, root.parts + [v1]), Path(true, root.parts + [v1, v2])}
  {
    var dir := Path(true, root.parts + [v1, v2]);
    var n := |root.parts|;
    assert dir.parts[..n + 1] == root.parts + [v1];
    assert dir.parts[..n + 2] == dir.parts;
    forall a | IsPrefixDir(a, dir)
      ensures a in old_dirs || a == Path(true, root.parts + [v1]) || a == dir
    {
      if |a.parts| <= n {
        assert dir.parts[..|a.parts|] == root.parts[..|a.parts|];
        assert IsPrefixDir(a, root);
      }
    }
    assert IsPrefixDir(Path(true, root.parts + [v1]), dir);
    assert IsPrefixDir(dir, dir);
  }

  /** On the test's temporary directory, the first call makes `<root>/<v1>`
      and `<root>/<v1>/<v2>` and no other directory, runs the method once, and
      writes its result to `<root>/<v1>/<v2>/<funcName>.json` and to no other file. */
  lemma NestedDirectoriesAreMade<A, V>(
    root: Path, f1: string, f2: string, funcName: string,
    op: (Template.Attributes, A, nat) -> PyJson, owner: Template.Attributes, args: A, w: World<V>)
    requires TempDir(root) && Template.IsName(f1) && Template.IsName(f2)
    requires f1 in owner && f2 in owner && IsPart(owner[f1]) && IsPart(owner[f2])
    requires FileStore.Valid(w.fs) && root in w.fs.dirs
    requires FileStore.FileKey(Path(true, root.parts + [owner[f1], owner[f2]]), funcName + ".json") !in w.fs.files
    ensures var first := DynamicCacheToJson(NestedText(PathText(root) + "/", f1, f2), funcName, op, owner, args, w);
      var dir := Path(true, root.parts + [owner[f1], owner[f2]]);
      && first.result == Ok(op(owner, args, w.invocations))
      && first.world.invocations == w.invocations + 1
      && first.world.fs.dirs == w.fs.dirs + {Path(true, root.parts + [owner[f1]]), dir}
      && first.world.fs.files == w.fs.files[FileStore.FileKey(dir, funcName + ".json") := FileStore.Text(Json.Encode(op(owner, args, w.invocations)))]
  {
    var dir := Path(true, root.parts + [owner[f1], owner[f2]]);
    var t := NestedText(PathText(root) + "/", f1, f2);
    RootedKey<V>(root, f1, f2, funcName, owner);
    assert forall a :: IsPrefixDir(a, root) ==> a in w.fs.dirs;
    hide *;
    var first := DynamicCall(JsonCodec<V>(), t, funcName, op, owner, args, w);
    assert DynamicCacheToJson(t, funcName, op, owner, args, w) == first;
    assert forall a :: a in first.world.fs.dirs <==> a in w.fs.dirs || IsPrefixDir(a, dir);
    RootedDirs(root, owner[f1], owner[f2], w.fs.dirs, first.world.fs.dirs);
  }

  function Exchange(name: string): Template.Attributes {
    map["exchange_name" := name, "market_type" := "spot"]
  }

  /** The template of the tests, `<root>/{exchange_name}/{market_type}/`. */
  lemma ExchangeTemplate(root: string)
    ensures NestedText(root + "/", "exchange_name", "market_type") == root + "/{exchange_name}/{market_type}/"
  {
    var tail := "{" + "exchange_name" + "}" + ("/" + ("{" + "market_type" + "}" + "/"));
    assert "/" + tail == "/{exchange_name}/{market_type}/";
    assert NestedText(root + "/", "exchange_name", "market_type") == (root + "/") + tail;
    assert (root + "/") + tail == root + ("/" + tail);
  }

  /** Under `<tmp>/{exchange_name}/{market_type}/`, `get_nested_data` on the
      `test_exchange` spot market caches in `<tmp>/test_exchange/spot/get_nested_data.json`. */
  lemma TestExchangeKey<V>(root: Path)
    requires TempDir(root)
    ensures CacheKey(JsonCodec<V>(), PathText(root) + "/{exchange_name}/{market_type}/", "get_nested_data", Exchange("test_exchange"))
         == Ok(FileStore.FileKey(Path(true, root.parts + ["test_exchange", "spot"]), "get_nested_data.json"))
  {
    ExchangeTemplate(PathText(root));
    TestNames();
    assert IsPart("test_exchange");
    assert Exchange("test_exchange")["exchange_name"] == "test_exchange";
    assert Exchange("test_exchange")["market_type"] == "spot";
    assert "get_nested_data" + ".json" == "get_nested_data.json";
    RootedKey<V>(root, "exchange_name", "market_type", "get_nested_data", Exchange("test_exchange"));
    hide *;
  }

  /** The attribute names of the test templates, and the values the tests give them. */
  lemma TestNames()
    ensures Template.IsName("exchange_name") && Template.IsName("market_type") && Template.IsName("api_version")
    ensures IsPart("spot") && IsPart("v1")
  {
    assert !Digits.IsDecDigit("exchange_name"[0]) && !Digits.IsDecDigit("market_type"[0]);
    assert !Digits.IsDecDigit("api_version"[0]);
  }

  /** The connector of the integration test: its exchange name and API version `v1`. */
  function Connector(name: string): Template.Attributes {
    map["exchange_name" := name, "api_version" := "v1"]
  }

  /** The connector template, `<root>/{exchange_name}/{api_version}/`. */
  lemma ConnectorTemplate(root: string)
    ensures NestedText(root + "/", "exchange_name", "api_version") == root + "/{exchange_name}/{api_version}/"
  {
    var tail := "{" + "exchange_name" + "}" + ("/" + ("{" + "api_version" + "}" + "/"));
    assert "/" + tail == "/{exchange_name}/{api_version}/";
    assert NestedText(root + "/", "exchange_name", "api_version") == (root + "/") + tail;
    assert (root + "/") + tail == root + ("/" + tail);
  }

  /** Under `<tmp>/{exchange_name}/{api_version}/`, a call for the binance
      connector leaves the coinbase connector's cache file as it was. */
  lemma ExchangesDoNotShareFiles<A, V>(root: Path, op: (Template.Attributes, A, nat) -> PyJson, args: A, w: World<V>)
    requires TempDir(root)
    ensures var coinbase := FileStore.FileKey(Path(true, root.parts + ["coinbase", "v1"]), "get_exchange_info.json");
      var after := DynamicCacheToJson(PathText(root) + "/{exchange_name}/{api_version}/", "get_exchange_info", op, Connector("binance"), args, w);
      && (coinbase in after.world.fs.files <==> coinbase in w.fs.files)
      && (coinbase in w.fs.files ==> after.world.fs.files[coinbase] == w.fs.files[coinbase])
  {
    ConnectorTemplate(PathText(root));
    TestNames();
    assert IsPart("binance");
    assert Connector("binance")["exchange_name"] == "binance";
    assert Connector("binance")["api_version"] == "v1";
    assert "get_exchange_info" + ".json" == "get_exchange_info.json";
    RootedKey<V>(root, "exchange_name", "api_version", "get_exchange_info", Connector("binance"));
    assert root.parts + ["binance", "v1"] != root.parts + ["coinbase", "v1"] by {
      assert (root.parts + ["binance", "v1"])[|root.parts|] == "binance";
      assert "binance" != "coinbase";
    }
    hide Template.Resolve, NestedText, CacheKey, PathText;
  }

  /** `format` of the test template for an owner without `market_type`. */
  lemma MissingMarketType()
    ensures Template.Resolve("cache/{exchange_name}/{market_type}/", map["exchange_name" := "binance"])
         == Err(Template.MissingAttribute("market_type"))
  {
    var owner := map["exchange_name" := "binance"];
    assert "cache" + "/" == "cache/";
    assert "cache" + "/{exchange_name}/{market_type}/" == "cache/{exchange_name}/{market_type}/";
    assert NoBraces("cache/");
    assert "exchange_name" in owner && "market_type" !in owner;
    hide *;
    ExchangeTemplate("cache");
    TestNames();
    NestedResolves("cache/", "exchange_name", "market_type", owner);
  }

  /** An owner without `market_type` fails with a KeyError, and nothing happens. */
  lemma MissingAttributeChangesNothing<A, V>(op: (Template.Attributes, A, nat) -> PyJson, args: A, w: World<V>)
    ensures DynamicCacheToJson("cache/{exchange_name}/{market_type}/", "get_data", op, map["exchange_name" := "binance"], args, w)
         == Reply(Err(TemplateFailure(Template.MissingAttribute("market_type"))), w)
  {
    MissingMarketType();
    hide Template.Resolve;
  }

  /** `cache_for_n_calls(3)` around a function that counts its runs: six calls
      return the first run's result three times, then the second run's
      result three times. */
  lemma EveryThirdCallRuns()
    ensures var t := CountCache.Run(3, (u: (), runs: nat) => runs + 1, [(), (), (), (), (), ()], 0);
      && t.results == [Ok(Some(1)), Ok(Some(1)), Ok(Some(1)), Ok(Some(2)), Ok(Some(2)), Ok(Some(2))]
      && t.runs == 2
  {
    var op := (u: (), runs: nat) => runs + 1;
    var argss := [(), (), (), (), (), ()];
    CountCache.RunCycles(3, op, argss, 0);
    CountCache.RunState(3, op, argss, 0);
    var t := CountCache.Run(3, op, argss, 0);
    assert CountCache.CycleNumber(5, 3) == 1;
    assert CountCache.CycleStart(5, 3) == 3;
    assert CountCache.CycleNumber(4, 3) == 1;
    assert CountCache.CycleStart(4, 3) == 3;
    assert CountCache.CycleNumber(3, 3) == 1;
    assert CountCache.CycleStart(3, 3) == 3;
    assert forall i :: 0 <= i < 3 ==> CountCache.CycleNumber(i, 3) == 0 && CountCache.CycleStart(i, 3) == 0;
    assert forall i :: 0 <= i < 6 ==> t.results[i] == Ok(Some(CountCache.CycleNumber(i, 3) + 1));
  }
}
