# Caching decorators, modelled in Dafny

This project models the five caching decorators of `venantvr/tools/caching.py`
and proves properties of the model.

- **`dynamic_cache_to_json(template_dir)`** and **`dynamic_cache_to_pickle(template_dir)`** wrap a method.
  - The keys of the owner's `__dict__` (its instance attributes) fill in `template_dir` through `str.format`. The result becomes a directory path.
  - `os.makedirs` creates that directory.
  - The cache file is `<dir>/<method name>.json` or `<dir>/<method name>.pickle`.
  - If the file exists, its decoded content is returned. Otherwise the method runs and its result is written to the file.
- **`cache_to_json(path)`** and **`cache_to_pickle(path)`** use one fixed file.
  - A missing file reads as `None`.
  - A stored value other than `None` is returned.
  - Otherwise the function runs, and its result overwrites the file.
- **`cache_for_n_calls(n)`** keeps the last result and a call count in the decorator's closure. The function runs on the first call, then whenever the count reaches a multiple of `n`.

## The model

- **Calls.** A call is a pure function from the world before the call to a `Reply`: what the call returned or raised, and the world after it.
- **The world** (`CacheState.World`) holds two things:
  - the files and directories the caches touch (`FileStore.Fs`);
  - the number of times a wrapped function has run.
- **The wrapped function** is a Dafny function value. It is given its owner's attributes, its arguments and that run count. A function whose answer changes from run to run (a counter, a clock) is therefore expressible.
- **Errors** the decorators let escape are values of `CacheState.CacheError`:
  - `format` errors (`TemplateFailure`);
  - undecodable cache files (`CorruptFile`);
  - opening a file for writing in a directory that does not exist (`NoSuchDirectory`).
- **Modules:**
  - `Json`: the text `json.dump` writes and the parser `json.load` uses. Only integers are modelled as numbers.
  - `Template`: `str.format` with keyword arguments.
  - `Paths`: `pathlib.Path` parsing on POSIX.
  - `FileStore`: directories and files.
  - `Codecs`: the JSON and pickle file formats.
  - One module per decorator family: `DynamicCache`, `FixedCache`, `CountCache`.
  - `Scenarios`: the repository's tests restated as lemmas.
- **Pickle** is taken as an opaque, faithful store: the file holds the object itself.
- **The JSON format** is modelled down to the characters:
  - escaping with `ensure_ascii`, including surrogate pairs for characters above U+FFFF;
  - the `", "` and `": "` separators;
  - strict string scanning;
  - `dict` semantics for repeated keys.

  The round trip `Decode(Encode(v)) == Ok(v)` is proved for every value whose dicts have distinct keys.

### Where the code and its documentation differ

This model follows the code.

- **The JSON file content.** The tests read `cached_data["value"]` from the cache file, as though the result were wrapped in an envelope. The code dumps the bare result (lines 47 and 136). The tests also pass a `cache_filename` keyword that the code does not accept.
- **`n == 0`.** `cache_for_n_calls(0)` does not fail when the function is decorated. Every call raises ZeroDivisionError at line 161, and nothing changes.
- **Negative `n`.** `call_count % n` is zero exactly when `n` divides `call_count`, whatever the sign of `n`. So a negative `n` behaves like `|n|`.

## Model

| member | source | states |
|---|---|---|
| Template.Lookup | venantvr/tools/caching.py:28 | a field is replaced exactly when it is a keyword name that is a key of the owner's `__dict__` (an instance attribute), by that value; any other name is a KeyError, class attributes and properties included |
| Template.Resolve | venantvr/tools/caching.py:28 | a template without braces formats to itself and never fails |
| Template.ResolveEscaped | venantvr/tools/caching.py:28 | doubled braces in literal text format to single braces, and formatting continues after them |
| Template.ResolveRender | venantvr/tools/caching.py:28 | formatting a template equals the reference expansion of its literal and field segments, including which error is raised first |
| Template.ExpandSucceeds | venantvr/tools/caching.py:28 | formatting succeeds exactly when every field of the template names an attribute of the owner |
| Template.ExpandFailure | venantvr/tools/caching.py:28 | a failed format is a KeyError naming a field of the template that the owner lacks |
| Template.ExpandIgnoresOtherAttributes | venantvr/tools/caching.py:28 | the directory depends only on the attributes the template names |
| Paths.ParsePath | venantvr/tools/caching.py:28 | the parts of a path have no empty or `.` parts, and the path is absolute exactly when the string starts with `/` |
| Paths.ComponentsOfJoin | venantvr/tools/caching.py:32 | splitting parts joined by `/` gives the parts back |
| Paths.ParsePathText | venantvr/tools/caching.py:28-32 | reading back the text of a path gives the path |
| Paths.Ancestors | venantvr/tools/caching.py:35 | the directories `os.makedirs` ensures are exactly the directory and those above it |
| FileStore.MakeDirs | venantvr/tools/caching.py:35 | `os.makedirs` leaves every file alone, adds exactly the directory and those above it, and the directory exists afterwards |
| FileStore.MakeDirsIdempotent | venantvr/tools/caching.py:35 | with `exist_ok=True`, making the directories a second time changes nothing |
| FileStore.MakeDirsValid | venantvr/tools/caching.py:35 | making directories keeps every directory's parents present |
| FileStore.MakeDirsAncestors | venantvr/tools/caching.py:35 | after `os.makedirs`, every directory from the top down to the cache directory exists |
| FileStore.Write | venantvr/tools/caching.py:46-47 | writing the cache file sets that file and leaves every other file and every directory as it was |
| FileStore.WriteValid | venantvr/tools/caching.py:46-47 | writing into an existing directory keeps the store consistent |
| Json.Encode | venantvr/tools/caching.py:47 | the text `json.dump` writes is non-empty, pure ASCII, and starts a JSON value |
| Json.Insert | venantvr/tools/caching.py:40 | storing a key in a dict keeps the other keys and their values, keeps keys distinct, and leaves the new value as the only one under its key |
| Json.ToDict | venantvr/tools/caching.py:40 | the dict `json.load` builds has distinct keys, and each of its members comes from the text |
| Json.ToDictContents | venantvr/tools/caching.py:40 | every key of the text is in the dict `json.load` builds, with the value of its last occurrence |
| Json.Decode | venantvr/tools/caching.py:40 | a value `json.load` returns has distinct keys in every dict |
| Digits.NatTextValue | venantvr/tools/caching.py:47 | the decimal digits written for an integer denote that integer |
| Digits.HexPadValue | venantvr/tools/caching.py:47 | hex digits written zero-padded to a width, as in a `\u` escape, denote the number written |
| JsonRoundTrip.ScanStringRoundTrip | venantvr/tools/caching.py:40-47 | reading back an escaped string gives the string, with the text after it untouched |
| JsonRoundTrip.NumberRoundTrip | venantvr/tools/caching.py:40-47 | reading back a written integer gives the integer |
| JsonRoundTrip.ArrayRoundTrip | venantvr/tools/caching.py:40-47 | reading back a written list gives the list |
| JsonRoundTrip.ObjectRoundTrip | venantvr/tools/caching.py:40-47 | reading back a written dict gives the dict, in the same key order |
| JsonRoundTrip.ItemsRoundTrip | venantvr/tools/caching.py:40-47 | reading back the comma-separated items of a list gives the items |
| JsonRoundTrip.MembersRoundTrip | venantvr/tools/caching.py:40-47 | reading back the members of a dict gives the members |
| JsonRoundTrip.ToDictIdentity | venantvr/tools/caching.py:40 | members with distinct keys build a dict equal to themselves |
| JsonRoundTrip.DecodeEncode | venantvr/tools/caching.py:40-47 | `json.load` of what `json.dump` wrote gives back the value written |
| Codecs.ReadJson | venantvr/tools/caching.py:39-40 | reading a JSON cache file succeeds exactly when its text parses, giving the parsed value; a parse failure raises the parser's error, and a binary file is rejected |
| Codecs.ReadJsonEncode | venantvr/tools/caching.py:39-47 | `json.load` of the text `json.dump` wrote gives back the value written |
| Codecs.JsonCodec | venantvr/tools/caching.py:31-47 | JSON caches use the `.json` extension, read `null` as None, write the `json.dump` text, and every JSON-native value written reads back as itself |
| Codecs.PickleCodec | venantvr/tools/caching.py:72-89 | pickle caches use the `.pickle` extension, recognise None, store the object itself, read every object back as itself, and reject a text file |
| DynamicCache.CacheKey | venantvr/tools/caching.py:28-32 | the cache directory is the `Path` of the formatted template, the file name is `<method name><extension>`, and a `format` error is passed on unchanged |
| DynamicCache.DynamicCall | venantvr/tools/caching.py:26-49 | a format error changes nothing. Otherwise the directories are made. A hit returns the decoded file without running the method. A miss runs the method once, writes its result to the cache file only, and returns it |
| DynamicCache.DynamicCacheToJson | venantvr/tools/caching.py:31-47 | the JSON decorator caches in `<method name>.json`, and after a miss that file holds the `json.dump` text of the result returned |
| DynamicCache.DynamicCacheToPickle | venantvr/tools/caching.py:72-89 | the pickle decorator caches in `<method name>.pickle`, and after a miss that file holds the result returned |
| DynamicCache.RepeatCallHits | venantvr/tools/caching.py:38-49 | once a call has returned, the next call on the same owner returns the same value, with any arguments, and changes nothing |
| DynamicCache.HitIgnoresArguments | venantvr/tools/caching.py:38-40 | when the cache file exists, the arguments of the call do not matter |
| DynamicCache.HitChangesNothing | venantvr/tools/caching.py:35-40 | on a consistent store, a hit leaves files, directories and run count as they were |
| DynamicCache.CallKeepsStoreValid | venantvr/tools/caching.py:35-47 | a call keeps the store consistent |
| FixedCache.ReadCached | venantvr/tools/caching.py:102-106 | the read gives None exactly when the file is missing; an existing file gives its decoded content, and an undecodable file raises |
| FixedCache.ReadCachedReadsBack | venantvr/tools/caching.py:104-106 | a file holding what the format wrote for a value reads back as that value |
| FixedCache.FixedCall | venantvr/tools/caching.py:101-114 | an undecodable file raises and nothing runs. A stored value other than None is returned and nothing runs. Otherwise the function runs once; its result is written and returned, or the write raises when the directory is missing |
| FixedCache.CacheToPickle | venantvr/tools/caching.py:107-108 | a pickle call that runs nothing returns an object other than None |
| FixedCache.CacheToJson | venantvr/tools/caching.py:130-131 | a JSON call that runs nothing returns a value other than `null` |
| FixedCache.FixedRepeatCallHits | venantvr/tools/caching.py:107-114 | once a call has returned a value other than None, the next call returns it again and changes nothing |
| FixedCache.StoredNoneIsAMiss | venantvr/tools/caching.py:105-110 | a file holding None behaves exactly like a missing file |
| FixedCache.NoneRunsEveryTime | venantvr/tools/caching.py:107-114 | a function that returns None is never served from the cache and runs on every call |
| CountCache.PyMod | venantvr/tools/caching.py:161 | Python's `%` takes the sign of the divisor, and is zero exactly when the divisor divides the dividend |
| CountCache.Call | venantvr/tools/caching.py:157-168 | with `n == 0` a call raises and changes nothing. Otherwise the function runs exactly when the count is a multiple of `n`, after which the count restarts at one; other calls return the cached result and increase the count |
| CountCache.CycleDivMod | venantvr/tools/caching.py:161-166 | with `|n|` calls per cycle, call `i` lies in cycle `i / |n|`, which starts at call `i - i % |n|` |
| CountCache.CycleStep | venantvr/tools/caching.py:161-166 | a call opens a new cycle exactly when the call before it closed the previous one |
| CountCache.RunState | venantvr/tools/caching.py:153-168 | after k calls, the count is the position in the current cycle of `|n|` calls, the function has run once per cycle begun, and the cached value is from the run that opened the current cycle |
| CountCache.RunCycles | venantvr/tools/caching.py:161-168 | every call returns the result of the run that opened its cycle of `|n|` calls |
| CountCache.ZeroAlwaysRaises | venantvr/tools/caching.py:161 | with `n == 0` every call raises ZeroDivisionError and the function never runs |
| CountCache.NegativeIsAbsolute | venantvr/tools/caching.py:161 | `n` and `-n` give the same results on every sequence of calls |
| Scenarios.NestedResolves | venantvr/tools/caching.py:28 | a two-field directory template formats to the two attribute values, or fails on the first one missing |
| Scenarios.NestedDirectoriesAreMade | tests/test_caching.py:132-153 | below an existing absolute temporary directory of a consistent store, the first call makes exactly `<tmp>/<v1>` and `<tmp>/<v1>/<v2>`, runs the method once, and writes one file, `<tmp>/<v1>/<v2>/<method name>.json`, holding the result |
| Scenarios.TestExchangeKey | tests/test_caching.py:140-152 | for any absolute temporary directory `<tmp>`, `<tmp>/{exchange_name}/{market_type}/` caches `get_nested_data` of the `test_exchange` spot market in `<tmp>/test_exchange/spot/get_nested_data.json` |
| Scenarios.ExchangesDoNotShareFiles | tests/test_integration.py:109-148 | under `<tmp>/{exchange_name}/{api_version}/` with `api_version` `v1`, a call for the binance connector leaves the coinbase connector's cache file as it was |
| Scenarios.MissingAttributeChangesNothing | venantvr/tools/caching.py:28 | an owner without `market_type` gets a KeyError, and nothing is created or run |
| Scenarios.EveryThirdCallRuns | tests/test_caching.py:98-130 | with `n = 3`, six calls return the first result three times and then the second result three times, after two runs |

## Left out

- FixedCache.CacheToJson: the file is written as the compact `json.dump` text rather than with `indent=2`. The indented text reads back to the same value, so only the file's whitespace differs.
- Json.Encode: floats, NaN and infinities are not modelled. Python objects `json.dump` cannot serialise are not modelled either, nor the partly written file they leave.
- Codecs.JsonCodec: only JSON-native values are modelled: None, bool, int, str, list, and dict with str keys. `json.dump` also accepts a tuple, which it writes as a list, and dict keys that are int, float, bool or None, which it writes as strings. Such a value reads back as a list or a string-keyed dict. So for a method returning one, the JSON caches return the value itself on a miss and a different value on every later hit.
- Json.Encode: strings holding lone surrogates are not modelled. A Dafny `char` is a Unicode scalar value.
- Json.Encode: CPython's limit of 4300 digits on conversion between `int` and `str` is not modelled. There `json.dump` and `json.load` raise ValueError for a longer integer; the model writes and reads every integer.
- Json.ToDict: the order of the keys (by first occurrence) is stated only for members with distinct keys, by JsonRoundTrip.ToDictIdentity.
- Template.Lookup: attribute and index access, conversions and format specs in a field (`.`, `[`, `!`, `:`) are reported as `UnsupportedField` instead of being evaluated.
- Template.Lookup: attribute values are taken as the text `format` renders them to. `str()` of arbitrary objects is not modelled.
- Paths.ParsePath: a leading `//` and `..` parts are treated like any other parts. Symbolic links are not modelled.
- FixedCache.FixedCall: the `path` argument is taken as already split into directory and file name. A path that names no file (empty, `/`, or ending in a slash) is not modelled.
- FileStore.Fs: a file and a directory with the same name are not modelled, and neither are permissions or full disks.
- FileStore.Fs: paths are not resolved against a current directory. A relative and an absolute spelling of one file are two different files here, so the claims that a call writes only its own cache file, and that two owners' files are apart, hold only between paths spelled alike.
- The pickle byte format is not modelled: a pickle file holds the object itself. Unpicklable results are left out.
- `json.load` of a binary pickle file, and `pickle.load` of a JSON text file, are both taken to raise.
- Exceptions raised by the wrapped function are not modelled: it always returns.
- CountCache.Call: a raising function is not modelled. Line 166 sets the count to 1 before the function runs at line 167. So a call that raises leaves the previous result, or None, to be served for the next `|n| - 1` calls.
- Concurrent calls, and races between `os.path.exists` and `open`, are not modelled.
- `functools.wraps` metadata copying is not modelled.
- `venantvr/tools/logger.py`, `setup.py` and `venantvr/tools/__init__.py` are not part of this model, because they hold no caching logic.
