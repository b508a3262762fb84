/** The JSON text format as the cache files hold it: what `json.dump` writes
    (default separators `", "` and `": "`, `ensure_ascii` escaping) and what
    `json.load` accepts. Only integer numbers are modelled. */
module Json {
  import opened Results
  import opened Digits

  /** A JSON-native Python value: None, bool, int, str, list, or dict. A dict
      is kept as its insertion-ordered members. */
  datatype Json =
    | Null
    | Bool(b: bool)
    | Num(n: int)
    | Str(s: string)
    | Arr(items: seq<Json>)
    | Obj(members: seq<Member>)

  datatype Member = Member(key: string, value: Json)

  predicate UniqueKeys(ms: seq<Member>) {
    forall i, j :: 0 <= i < j < |ms| ==> ms[i].key != ms[j].key
  }

  /** A value a Python program can hold: no dict has a key twice. */
  predicate Valid(v: Json) {
    match v
    case Arr(items) => forall i :: 0 <= i < |items| ==> Valid(items[i])
    case Obj(ms) => UniqueKeys(ms) && forall i :: 0 <= i < |ms| ==> Valid(ms[i].value)
    case _ => true
  }

  predicate IsAscii(s: string) {
    forall i :: 0 <= i < |s| ==> s[i] as int < 128
  }

  lemma AsciiConcat(a: string, b: string)
    requires IsAscii(a) && IsAscii(b)
    ensures IsAscii(a + b)
  {
    assert forall i :: 0 <= i < |a + b| ==> (a + b)[i] == if i < |a| then a[i] else b[i - |a|];
  }

  // ---------------------------------------------------------------------
  // Encoding
  // ---------------------------------------------------------------------

  /** A character that can begin a value: a quote, a bracket, a brace, the
      first letter of a literal, a minus sign or a digit. */
  predicate StartsValue(c: char) {
    c == '"' || c == '[' || c == '{' || c == 'n' || c == 't' || c == 'f' || c == '-' || IsDecDigit(c)
  }

  /** The text `json.dump(v, file)` writes; it is pure ASCII. */
  function Encode(v: Json): (s: string)
    ensures |s| > 0 && IsAscii(s) && StartsValue(s[0])
    decreases v
  {
    match v
    case Null => "null"
    case Bool(b) => if b then "true" else "false"
    case Num(n) => IntText(n)
    case Str(s) => Quote(s)
    case Arr(items) =>
      var inner := EncodeItems(items);
      AsciiConcat("[", inner);
      AsciiConcat("[" + inner, "]");
      "[" + inner + "]"
    case Obj(ms) =>
      var inner := EncodeMembers(ms);
      AsciiConcat("{", inner);
      AsciiConcat("{" + inner, "}");
      "{" + inner + "}"
  }

  /** List items separated by `", "`. */
  function EncodeItems(items: seq<Json>): (s: string)
    ensures IsAscii(s)
    ensures |items| > 0 ==> |s| > 0 && StartsValue(s[0])
    decreases items
  {
    if |items| == 0 then ""
    else if |items| == 1 then Encode(items[0])
    else
      var head := Encode(items[0]);
      var tail := EncodeItems(items[1..]);
      AsciiConcat(head, ", ");
      AsciiConcat(head + ", ", tail);
      head + ", " + tail
  }

  /** Dict members `"key": value` separated by `", "`. */
  function EncodeMembers(ms: seq<Member>): (s: string)
    ensures IsAscii(s)
    ensures |ms| > 0 ==> |s| > 0 && s[0] == '"'
    decreases ms
  {
    if |ms| == 0 then ""
    else
      var first := EncodeMember(ms[0]);
      if |ms| == 1 then first
      else
        var tail := EncodeMembers(ms[1..]);
        AsciiConcat(first, ", ");
        AsciiConcat(first + ", ", tail);
        first + ", " + tail
  }

  function EncodeMember(m: Member): (s: string)
    ensures IsAscii(s) && |s| > 0 && s[0] == '"'
    decreases m
  {
    var k := Quote(m.key);
    var v := Encode(m.value);
    AsciiConcat(k, ": ");
    AsciiConcat(k + ": ", v);
    k + ": " + v
  }

  function Quote(s: string): (q: string)
    ensures IsAscii(q) && |q| >= 2 && q[0] == '"'
  {
    var e := EscapeString(s);
    AsciiConcat("\"", e);
    AsciiConcat("\"" + e, "\"");
    "\"" + e + "\""
  }

  function EscapeString(s: string): (e: string)
    ensures IsAscii(e)
  {
    if |s| == 0 then ""
    else
      var head := EscapeChar(s[0]);
      var tail := EscapeString(s[1..]);
      AsciiConcat(head, tail);
      head + tail
  }

  /** The `\uXXXX` escape of a code unit below 0x10000. */
  function UnicodeEscape(unit: nat): (e: string)
    requires unit < 0x10000
    ensures |e| == 6 && IsAscii(e) && e[..2] == "\\u"
  {
    assert Pow16(4) == 0x10000;
    "\\u" + HexPad(unit, 4)
  }

  /** How `ensure_ascii` writes one character: short escapes for the quote,
      the backslash and five control characters, the character itself for
      the rest of printable ASCII, `\uXXXX` otherwise, and a UTF-16
      surrogate pair above 0xFFFF. */
  function EscapeChar(c: char): (e: string)
    ensures |e| > 0 && IsAscii(e) && e[0] != '"'
  {
    var code := c as int;
    if c == '"' then "\\\""
    else if c == '\\' then "\\\\"
    else if c == '\n' then "\\n"
    else if c == '\r' then "\\r"
    else if c == '\t' then "\\t"
    else if code == 0x08 then "\\b"
    else if code == 0x0C then "\\f"
    else if 0x20 <= code <= 0x7E then [c]
    else if code < 0x10000 then UnicodeEscape(code)
    else SurrogatePairEscape(code)
  }

  /** The two `\uXXXX` escapes of the UTF-16 surrogate pair of a code point
      above 0xFFFF. */
  function SurrogatePairEscape(code: int): (e: string)
    requires 0x10000 <= code < 0x110000
    ensures |e| == 12 && IsAscii(e) && e[0] == '\\'
  {
    var v := code - 0x10000;
    var high := UnicodeEscape(0xD800 + v / 0x400);
    var low := UnicodeEscape(0xDC00 + v % 0x400);
    AsciiConcat(high, low);
    high + low
  }

  // ---------------------------------------------------------------------
  // Decoding
  // ---------------------------------------------------------------------

  datatype JsonError =
    | UnexpectedEnd
    | Unexpected(c: char)
    | InvalidEscape
    | ControlCharacter
    | LoneSurrogate
    | FloatNotModelled
    | ExtraData

  /** A parsed value and the input left after it. */
  datatype Parsed<T> = Parsed(value: T, rest: string)

  predicate IsWs(c: char) {
    c == ' ' || c == '\t' || c == '\n' || c == '\r'
  }

  /** Drops the whitespace the decoder allows between tokens. */
  function SkipWs(s: string): (t: string)
    ensures |t| <= |s| && t == s[|s| - |t|..]
    ensures |t| > 0 ==> !IsWs(t[0])
  {
    if |s| > 0 && IsWs(s[0]) then SkipWs(s[1..]) else s
  }

  /** Four hex digits at the start of `s`, as a `\u` escape needs them. */
  function Hex4(s: string): (r: Option<nat>)
    ensures r.Some? ==> |s| >= 4 && r.value < 0x10000
  {
    if |s| < 4 then None
    else
      var r := HexValue(s[..4]);
      assert Pow16(4) == 0x10000;
      r
  }

  /** The character a `\u` escape denotes (`s` starts after the `u`): a pair
      of surrogate escapes combines into one character; a surrogate that
      pairs with nothing is outside the model's characters. */
  function ScanUnicode(s: string): (r: Result<Parsed<char>, JsonError>)
    ensures r.Ok? ==> |r.value.rest| < |s|
  {
    match Hex4(s)
    case None => Err(InvalidEscape)
    case Some(h) =>
      if 0xD800 <= h <= 0xDBFF then
        if |s| >= 10 && s[4] == '\\' && s[5] == 'u' then
          match Hex4(s[6..])
          case None => Err(InvalidEscape)
          case Some(l) =>
            if 0xDC00 <= l <= 0xDFFF then
              Ok(Parsed((0x10000 + (h - 0xD800) * 0x400 + (l - 0xDC00)) as char, s[10..]))
            else Err(LoneSurrogate)
        else Err(LoneSurrogate)
      else if 0xDC00 <= h <= 0xDFFF then Err(LoneSurrogate)
      else Ok(Parsed(h as char, s[4..]))
  }

  /** One escape sequence; `s` starts after the backslash. */
  function ScanEscape(s: string): (r: Result<Parsed<char>, JsonError>)
    ensures r.Ok? ==> |r.value.rest| < |s|
  {
    if |s| == 0 then Err(UnexpectedEnd)
    else if s[0] == '"' then Ok(Parsed('"', s[1..]))
    else if s[0] == '\\' then Ok(Parsed('\\', s[1..]))
    else if s[0] == '/' then Ok(Parsed('/', s[1..]))
    else if s[0] == 'b' then Ok(Parsed(0x08 as char, s[1..]))
    else if s[0] == 'f' then Ok(Parsed(0x0C as char, s[1..]))
    else if s[0] == 'n' then Ok(Parsed('\n', s[1..]))
    else if s[0] == 'r' then Ok(Parsed('\r', s[1..]))
    else if s[0] == 't' then Ok(Parsed('\t', s[1..]))
    else if s[0] == 'u' then ScanUnicode(s[1..])
    else Err(InvalidEscape)
  }

  /** One character of a string literal: an escape, or a raw character that
      is not a control character. */
  function ScanChar(s: string): (r: Result<Parsed<char>, JsonError>)
    ensures r.Ok? ==> |r.value.rest| < |s|
  {
    if |s| == 0 then Err(UnexpectedEnd)
    else if s[0] == '\\' then
      match ScanEscape(s[1..])
      case Err(e) => Err(e)
      case Ok(p) => Ok(p)
    else if (s[0] as int) < 0x20 then Err(ControlCharacter)
    else Ok(Parsed(s[0], s[1..]))
  }

  /** The body of a string literal up to its closing quote; `s` starts after
      the opening quote. */
  function ScanString(s: string): (r: Result<Parsed<string>, JsonError>)
    ensures r.Ok? ==> |r.value.rest| < |s|
    decreases |s|
  {
    if |s| == 0 then Err(UnexpectedEnd)
    else if s[0] == '"' then Ok(Parsed("", s[1..]))
    else match ScanChar(s)
      case Err(e) => Err(e)
      case Ok(Parsed(c, t)) =>
        match ScanString(t)
        case Err(e) => Err(e)
        case Ok(Parsed(cs, rest)) => Ok(Parsed([c] + cs, rest))
  }

  /** The digits of an integer: `0`, or a digit string without a leading
      zero. A fraction or exponent after them would make a float. */
  function ParseNatural(u: string): (r: Result<Parsed<nat>, JsonError>)
    ensures r.Ok? ==> |r.value.rest| < |u|
  {
    if |u| == 0 then Err(UnexpectedEnd)
    else if !IsDecDigit(u[0]) then Err(Unexpected(u[0]))
    else
      var ds := if u[0] == '0' then "0" else DigitPrefix(u);
      assert ds == u[..|ds|];
      var rest := u[|ds|..];
      if |rest| > 0 && (rest[0] == '.' || rest[0] == 'e' || rest[0] == 'E') then Err(FloatNotModelled)
      else Ok(Parsed(DecValue(ds), rest))
  }

  /** An integer: an optional minus sign, then its digits. */
  function ParseNumber(s: string): (r: Result<Parsed<Json>, JsonError>)
    ensures r.Ok? ==> |r.value.rest| < |s|
  {
    if |s| > 0 && s[0] == '-' then
      match ParseNatural(s[1..])
      case Err(e) => Err(e)
      case Ok(Parsed(n, rest)) => Ok(Parsed(Num(-(n as int)), rest))
    else
      match ParseNatural(s)
      case Err(e) => Err(e)
      case Ok(Parsed(n, rest)) => Ok(Parsed(Num(n), rest))
  }

  predicate StartsWith(s: string, prefix: string) {
    |s| >= |prefix| && s[..|prefix|] == prefix
  }

  /** One value, after optional leading whitespace. Every dict it returns
      has distinct keys. */
  function ParseValue(s: string): (r: Result<Parsed<Json>, JsonError>)
    ensures r.Ok? ==> |r.value.rest| < |s| && Valid(r.value.value)
    decreases |s|, 0
  {
    var t := SkipWs(s);
    if |t| == 0 then Err(UnexpectedEnd)
    else if t[0] == '"' then
      match ScanString(t[1..])
      case Err(e) => Err(e)
      case Ok(Parsed(str, rest)) => Ok(Parsed(Str(str), rest))
    else if t[0] == '{' then ParseObject(t[1..])
    else if t[0] == '[' then ParseArray(t[1..])
    else if t[0] == 'n' && StartsWith(t, "null") then Ok(Parsed(Null, t[4..]))
    else if t[0] == 't' && StartsWith(t, "true") then Ok(Parsed(Bool(true), t[4..]))
    else if t[0] == 'f' && StartsWith(t, "false") then Ok(Parsed(Bool(false), t[5..]))
    else if t[0] == '-' || IsDecDigit(t[0]) then ParseNumber(t)
    else Err(Unexpected(t[0]))
  }

  /** A list; `s` starts after the opening bracket. */
  function ParseArray(s: string): (r: Result<Parsed<Json>, JsonError>)
    ensures r.Ok? ==> |r.value.rest| < |s| && Valid(r.value.value)
    decreases |s|, 2
  {
    var t := SkipWs(s);
    if |t| > 0 && t[0] == ']' then Ok(Parsed(Arr([]), t[1..]))
    else
      match ParseElements(t)
      case Err(e) => Err(e)
      case Ok(Parsed(items, rest)) => Ok(Parsed(Arr(items), rest))
  }

  /** The items of a non-empty list through its closing bracket. */
  function ParseElements(s: string): (r: Result<Parsed<seq<Json>>, JsonError>)
    ensures r.Ok? ==> |r.value.rest| < |s|
    ensures r.Ok? ==> forall i :: 0 <= i < |r.value.value| ==> Valid(r.value.value[i])
    decreases |s|, 1
  {
    match ParseValue(s)
    case Err(e) => Err(e)
    case Ok(Parsed(v, rest)) =>
      var t := SkipWs(rest);
      if |t| == 0 then Err(UnexpectedEnd)
      else if t[0] == ']' then Ok(Parsed([v], t[1..]))
      else if t[0] == ',' then
        match ParseElements(t[1..])
        case Err(e) => Err(e)
        case Ok(Parsed(vs, rest')) => Ok(Parsed([v] + vs, rest'))
      else Err(Unexpected(t[0]))
  }

  /** A dict; `s` starts after the opening brace. */
  function ParseObject(s: string): (r: Result<Parsed<Json>, JsonError>)
    ensures r.Ok? ==> |r.value.rest| < |s| && Valid(r.value.value)
    decreases |s|, 3
  {
    var t := SkipWs(s);
    if |t| > 0 && t[0] == '}' then Ok(Parsed(Obj([]), t[1..]))
    else
      match ParseMembers(t)
      case Err(e) => Err(e)
      case Ok(Parsed(ms, rest)) =>
        var d := ToDict(ms);
        assert forall i :: 0 <= i < |d| ==> d[i] in ms;
        Ok(Parsed(Obj(d), rest))
  }

  /** One `"key": value` pair; `s` starts at the key's opening quote. */
  function ParseMember(s: string): (r: Result<Parsed<Member>, JsonError>)
    ensures r.Ok? ==> |r.value.rest| < |s| && Valid(r.value.value.value)
    decreases |s|, 1
  {
    if |s| == 0 then Err(UnexpectedEnd)
    else if s[0] != '"' then Err(Unexpected(s[0]))
    else match ScanString(s[1..])
      case Err(e) => Err(e)
      case Ok(Parsed(key, afterKey)) =>
        var t := SkipWs(afterKey);
        if |t| == 0 then Err(UnexpectedEnd)
        else if t[0] != ':' then Err(Unexpected(t[0]))
        else match ParseValue(t[1..])
          case Err(e) => Err(e)
          case Ok(Parsed(v, rest)) => Ok(Parsed(Member(key, v), rest))
  }

  /** The members of a non-empty dict through its closing brace. */
  function ParseMembers(s: string): (r: Result<Parsed<seq<Member>>, JsonError>)
    ensures r.Ok? ==> |r.value.rest| < |s|
    ensures r.Ok? ==> forall m :: m in r.value.value ==> Valid(m.value)
    decreases |s|, 2
  {
    match ParseMember(s)
    case Err(e) => Err(e)
    case Ok(Parsed(m, rest)) =>
      var u := SkipWs(rest);
      if |u| == 0 then Err(UnexpectedEnd)
      else if u[0] == '}' then Ok(Parsed([m], u[1..]))
      else if u[0] == ',' then
        match ParseMembers(SkipWs(u[1..]))
        case Err(e) => Err(e)
        case Ok(Parsed(ms, rest')) => Ok(Parsed([m] + ms, rest'))
      else Err(Unexpected(u[0]))
  }

  /** `d[m.key] = m.value` on a Python dict: an existing key keeps its
      position and takes the new value; a new key goes last. */
  function Insert(d: seq<Member>, m: Member): (r: seq<Member>)
    ensures forall x :: x in r ==> x in d || x == m
    ensures m in r
    ensures forall x :: x in d && x.key != m.key ==> x in r
    ensures UniqueKeys(d) ==> UniqueKeys(r)
    ensures UniqueKeys(d) ==> forall x :: x in r && x.key == m.key ==> x == m
  {
    if |d| == 0 then [m]
    else if d[0].key == m.key then
      var r := [m] + d[1..];
      assert UniqueKeys(d) ==> forall i :: 1 <= i < |d| ==> d[i].key != m.key;
      r
    else
      var r := [d[0]] + Insert(d[1..], m);
      assert forall x :: x in d[1..] && x.key != m.key ==> x in r;
      r
  }

  /** The value the last member with key `k` gives, if any. */
  function LastValue(ms: seq<Member>, k: string): Option<Json> {
    if |ms| == 0 then None
    else if ms[|ms| - 1].key == k then Some(ms[|ms| - 1].value)
    else LastValue(ms[..|ms| - 1], k)
  }

  /** The dict that `dict(pairs)` builds; `ToDictContents` states which
      members it keeps. */
  function ToDict(ms: seq<Member>): (d: seq<Member>)
    ensures UniqueKeys(d)
    ensures forall x :: x in d ==> x in ms
  {
    if |ms| == 0 then []
    else Insert(ToDict(ms[..|ms| - 1]), ms[|ms| - 1])
  }

  /** `dict(pairs)` holds every key of the pairs, with the value of its last pair. */
  lemma ToDictContents(ms: seq<Member>)
    ensures forall m :: m in ms ==> exists x :: x in ToDict(ms) && x.key == m.key
    ensures forall x :: x in ToDict(ms) ==> LastValue(ms, x.key) == Some(x.value)
  {
    ToDictKeys(ms);
    ToDictLastValues(ms);
  }

  lemma {:induction false} ToDictKeys(ms: seq<Member>)
    ensures forall m :: m in ms ==> exists x :: x in ToDict(ms) && x.key == m.key
  {
    if |ms| > 0 {
      var init, last := ms[..|ms| - 1], ms[|ms| - 1];
      var prev := ToDict(init);
      var d := ToDict(ms);
      assert d == Insert(prev, last);
      ToDictKeys(init);
      assert ms == init + [last];
      hide *;
      forall m | m in ms
        ensures exists x :: x in d && x.key == m.key
      {
        if m != last {
          assert m in init;
          var y :| y in prev && y.key == m.key;
          if y.key != last.key {
            assert y in d;
          } else {
            assert last in d;
          }
        } else {
          assert last in d;
        }
      }
    }
  }

  lemma {:induction false} ToDictLastValues(ms: seq<Member>)
    ensures forall x :: x in ToDict(ms) ==> LastValue(ms, x.key) == Some(x.value)
  {
    if |ms| > 0 {
      var init, last := ms[..|ms| - 1], ms[|ms| - 1];
      var prev := ToDict(init);
      var d := ToDict(ms);
      assert d == Insert(prev, last);
      ToDictLastValues(init);
      forall x | x in d
        ensures LastValue(ms, x.key) == Some(x.value)
      {
        if x.key != last.key {
          assert x in prev;
        }
      }
    }
  }

  /** `json.loads`: one value, surrounded by optional whitespace and nothing else. */
  function Decode(text: string): (r: Result<Json, JsonError>)
    ensures r.Ok? ==> Valid(r.value)
  {
    match ParseValue(text)
    case Err(e) => Err(e)
    case Ok(Parsed(v, rest)) => if |SkipWs(rest)| == 0 then Ok(v) else Err(ExtraData)
  }
}
