/** Reading back what the encoder writes: for every value a Python program
    can hold, `json.loads(json.dumps(v)) == v`. */
module JsonRoundTrip {
  import opened Results
  import opened Digits
  import opened Json

  /** What may follow a value in encoded text without changing how the value
      is read: the end, a separator, a closing bracket or brace. */
  predicate Terminates(rest: string) {
    |rest| == 0 || (!IsDecDigit(rest[0]) && rest[0] != '.' && rest[0] != 'e' && rest[0] != 'E')
  }

  lemma Hex4OfPad(n: nat, t: string)
    requires n < 0x10000
    ensures Hex4(HexPad(n, 4) + t) == Some(n)
  {
    assert Pow16(4) == 0x10000;
    assert (HexPad(n, 4) + t)[..4] == HexPad(n, 4);
    HexPadValue(n, 4);
  }

  lemma ScanUnicodeBmp(code: nat, t: string)
    requires code < 0x10000 && !(0xD800 <= code <= 0xDFFF)
    ensures ScanUnicode(HexPad(code, 4) + t) == Ok(Parsed(code as char, t))
  {
    Hex4OfPad(code, t);
    assert (HexPad(code, 4) + t)[4..] == t;
  }

  /** The two halves of a surrogate pair, and how they recombine. */
  lemma SurrogateHalves(code: int)
    requires 0x10000 <= code < 0x110000
    ensures var v := code - 0x10000;
      var hi := 0xD800 + v / 0x400;
      var lo := 0xDC00 + v % 0x400;
      && 0xD800 <= hi <= 0xDBFF && 0xDC00 <= lo <= 0xDFFF
      && 0x10000 + (hi - 0xD800) * 0x400 + (lo - 0xDC00) == code
      && SurrogatePairEscape(code) == "\\u" + HexPad(hi, 4) + ("\\u" + HexPad(lo, 4))
  {
  }

  /** Two `\\uXXXX` escapes of a high and a low surrogate read back as one character. */
  lemma ScanUnicodeHalves(hi: nat, lo: nat, t: string)
    requires 0xD800 <= hi <= 0xDBFF && 0xDC00 <= lo <= 0xDFFF
    requires 0x10000 + (hi - 0xD800) * 0x400 + (lo - 0xDC00) < 0x110000
    ensures ScanUnicode(HexPad(hi, 4) + ("\\u" + (HexPad(lo, 4) + t)))
         == Ok(Parsed((0x10000 + (hi - 0xD800) * 0x400 + (lo - 0xDC00)) as char, t))
  {
    var h1 := HexPad(hi, 4);
    var h2 := HexPad(lo, 4);
    var w := "\\u" + (h2 + t);
    var u := h1 + w;
    Hex4OfPad(hi, w);
    Hex4OfPad(lo, t);
    assert u[4] == '\\' && u[5] == 'u';
    assert u[6..] == h2 + t;
    assert (h2 + t)[4..] == t;
    assert u[10..] == t;
  }

  lemma ScanUnicodePair(code: int, t: string)
    requires 0x10000 <= code < 0x110000
    ensures ScanUnicode(SurrogatePairEscape(code)[2..] + t) == Ok(Parsed(code as char, t))
  {
    var v := code - 0x10000;
    var hi := 0xD800 + v / 0x400;
    var lo := 0xDC00 + v % 0x400;
    SurrogateHalves(code);
    var h1 := HexPad(hi, 4);
    var h2 := HexPad(lo, 4);
    hide ScanUnicode, HexPad, SurrogatePairEscape;
    var rest := h1 + ("\\u" + h2);
    Assoc("\\u", h1, "\\u" + h2);
    assert SurrogatePairEscape(code) == "\\u" + rest;
    DropFront("\\u", rest);
    assert SurrogatePairEscape(code)[2..] == rest;
    Assoc(h1, "\\u" + h2, t);
    Assoc("\\u", h2, t);
    assert rest + t == h1 + ("\\u" + (h2 + t));
    ScanUnicodeHalves(hi, lo, t);
  }

  /** A backslash escape whose letter follows reads through `ScanEscape`. */
  lemma ScanCharEscape(e: string, t: string)
    requires |e| >= 2 && e[0] == '\\'
    ensures ScanChar(e + t) == ScanEscape(e[1..] + t)
  {
    assert (e + t)[1..] == e[1..] + t;
  }

  /** Every escape the encoder writes reads back as the character escaped. */
  lemma EscapeCharScan(c: char, t: string)
    ensures ScanChar(EscapeChar(c) + t) == Ok(Parsed(c, t))
  {
    var code := c as int;
    var e := EscapeChar(c);
    if c == '"' || c == '\\' || c == '\n' || c == '\r' || c == '\t' || code == 0x08 || code == 0x0C {
      ScanCharEscape(e, t);
      assert (e[1..] + t)[1..] == t;
    } else if 0x20 <= code <= 0x7E {
      assert (e + t)[1..] == t;
    } else if code < 0x10000 {
      ScanCharEscape(e, t);
      assert e[1..] + t == "u" + (HexPad(code, 4) + t);
      ScanUnicodeBmp(code, t);
    } else {
      ScanCharEscape(e, t);
      assert e[1..] + t == "u" + (e[2..] + t);
      ScanUnicodePair(code, t);
    }
  }

  /** A quoted string reads back as the string quoted. */
  lemma {:induction false} ScanStringRoundTrip(s: string, rest: string)
    ensures ScanString(EscapeString(s) + "\"" + rest) == Ok(Parsed(s, rest))
  {
    if |s| == 0 {
      assert EscapeString(s) + "\"" + rest == "\"" + rest;
    } else {
      var head := EscapeChar(s[0]);
      var tail := EscapeString(s[1..]) + "\"" + rest;
      assert EscapeString(s) + "\"" + rest == head + tail;
      EscapeCharScan(s[0], tail);
      ScanStringRoundTrip(s[1..], rest);
      assert [s[0]] + s[1..] == s;
    }
  }

  lemma QuoteRoundTrip(s: string, rest: string)
    ensures ScanString((Quote(s) + rest)[1..]) == Ok(Parsed(s, rest))
  {
    assert (Quote(s) + rest)[1..] == EscapeString(s) + "\"" + rest;
    ScanStringRoundTrip(s, rest);
  }

  lemma NaturalRoundTrip(m: nat, rest: string)
    requires Terminates(rest)
    ensures ParseNatural(NatText(m) + rest) == Ok(Parsed(m, rest))
  {
    var ds := NatText(m);
    var u := ds + rest;
    NatTextValue(m);
    if m == 0 {
      assert ds == "0";
    } else {
      DigitPrefixOfDigits(ds, rest);
    }
    assert u[|ds|..] == rest;
  }

  lemma NegativeRoundTrip(m: nat, rest: string)
    requires Terminates(rest) && m > 0
    ensures ParseNumber("-" + (NatText(m) + rest)) == Ok(Parsed(Num(-(m as int)), rest))
  {
    var u := NatText(m) + rest;
    assert ("-" + u)[1..] == u;
    NaturalRoundTrip(m, rest);
  }

  lemma NonNegativeRoundTrip(m: nat, rest: string)
    requires Terminates(rest)
    ensures ParseNumber(NatText(m) + rest) == Ok(Parsed(Num(m), rest))
  {
    var u := NatText(m) + rest;
    assert u[0] == NatText(m)[0] && u[0] != '-';
    NaturalRoundTrip(m, rest);
  }

  lemma NumberRoundTrip(n: int, rest: string)
    requires Terminates(rest)
    ensures ParseNumber(IntText(n) + rest) == Ok(Parsed(Num(n), rest))
  {
    if n < 0 {
      var m: nat := -n;
      assert IntText(n) + rest == "-" + (NatText(m) + rest);
      NegativeRoundTrip(m, rest);
    } else {
      NonNegativeRoundTrip(n, rest);
    }
  }

  predicate AllWs(ws: string) {
    forall i :: 0 <= i < |ws| ==> IsWs(ws[i])
  }

  // Sequence facts, called explicitly so that the proofs below stay cheap.

  lemma Assoc(a: string, b: string, c: string)
    ensures (a + b) + c == a + (b + c)
  {
  }

  lemma DropFront(a: string, b: string)
    ensures (a + b)[|a|..] == b
  {
  }

  lemma TakeFront(a: string, b: string)
    ensures (a + b)[..|a|] == a
  {
  }

  /** The separators `", "` and `": "` split into their two characters. */
  lemma CommaSpace(y: string)
    ensures ", " + y == "," + (" " + y)
  {
  }

  lemma ColonSpace(y: string)
    ensures ": " + y == ":" + (" " + y)
  {
  }

  /** Skipping whitespace stops at the first character that is not. */
  lemma {:induction false} SkipWsPrefix(ws: string, x: string)
    requires AllWs(ws)
    requires |x| > 0 && !IsWs(x[0])
    ensures SkipWs(ws + x) == x
  {
    if |ws| > 0 {
      assert (ws + x)[1..] == ws[1..] + x;
      SkipWsPrefix(ws[1..], x);
    } else {
      assert ws + x == x;
    }
  }

  lemma NoWs(x: string)
    requires |x| > 0 && !IsWs(x[0])
    ensures SkipWs(x) == x
  {
  }

  // One-step unfoldings of the parser. The composite proofs below hide the
  // encoder and parser definitions and work from these facts alone.

  lemma ValueStepNull(s: string)
    requires StartsWith(SkipWs(s), "null")
    ensures ParseValue(s) == Ok(Parsed(Null, SkipWs(s)[4..]))
  {
    hide ParseObject, ParseArray, ParseNumber, ScanString, SkipWs, Valid;
    assert SkipWs(s)[..4][0] == 'n';
  }

  lemma ValueStepTrue(s: string)
    requires StartsWith(SkipWs(s), "true")
    ensures ParseValue(s) == Ok(Parsed(Bool(true), SkipWs(s)[4..]))
  {
    hide ParseObject, ParseArray, ParseNumber, ScanString, SkipWs, Valid;
    assert SkipWs(s)[..4][0] == 't';
  }

  lemma ValueStepFalse(s: string)
    requires StartsWith(SkipWs(s), "false")
    ensures ParseValue(s) == Ok(Parsed(Bool(false), SkipWs(s)[5..]))
  {
    hide ParseObject, ParseArray, ParseNumber, ScanString, SkipWs, Valid;
    assert SkipWs(s)[..5][0] == 'f';
  }

  lemma ValueStepString(s: string, str: string, rest: string)
    requires |SkipWs(s)| > 0 && SkipWs(s)[0] == '"'
    requires ScanString(SkipWs(s)[1..]) == Ok(Parsed(str, rest))
    ensures ParseValue(s) == Ok(Parsed(Str(str), rest))
  {
  }

  lemma ValueStepNumber(s: string)
    requires |SkipWs(s)| > 0 && (SkipWs(s)[0] == '-' || IsDecDigit(SkipWs(s)[0]))
    ensures ParseValue(s) == ParseNumber(SkipWs(s))
  {
    var t := SkipWs(s);
    assert t[0] != '"' && t[0] != '{' && t[0] != '[' && t[0] != 'n' && t[0] != 't' && t[0] != 'f';
  }

  lemma ValueOpensArray(s: string)
    requires |SkipWs(s)| > 0 && SkipWs(s)[0] == '['
    ensures ParseValue(s) == ParseArray(SkipWs(s)[1..])
  {
    hide ParseArray, ParseObject, ScanString, ParseNumber, SkipWs, StartsWith;
  }

  lemma ValueOpensObject(s: string)
    requires |SkipWs(s)| > 0 && SkipWs(s)[0] == '{'
    ensures ParseValue(s) == ParseObject(SkipWs(s)[1..])
  {
    hide ParseArray, ParseObject, ScanString, ParseNumber, SkipWs, StartsWith;
  }

  /** After whitespace, an opening bracket hands the rest to the list reader. */
  lemma ValueStepArray(ws: string, body: string)
    requires AllWs(ws)
    ensures ParseValue(ws + ("[" + body)) == ParseArray(body)
  {
    var x := "[" + body;
    assert x[0] == '[' && x[1..] == body;
    SkipWsPrefix(ws, x);
    ValueOpensArray(ws + x);
  }

  lemma ValueStepObject(ws: string, body: string)
    requires AllWs(ws)
    ensures ParseValue(ws + ("{" + body)) == ParseObject(body)
  {
    var x := "{" + body;
    assert x[0] == '{' && x[1..] == body;
    SkipWsPrefix(ws, x);
    ValueOpensObject(ws + x);
  }

  lemma ArrayStepEmpty(rest: string)
    ensures ParseArray("]" + rest) == Ok(Parsed(Arr([]), rest))
  {
    NoWs("]" + rest);
    DropFront("]", rest);
  }

  lemma ArrayStepItems(inner: string, tail: string, items: seq<Json>, rest: string)
    requires |inner| > 0 && StartsValue(inner[0])
    requires ParseElements(inner + tail) == Ok(Parsed(items, rest))
    ensures ParseArray(inner + tail) == Ok(Parsed(Arr(items), rest))
  {
    NoWs(inner + tail);
    hide ParseElements, SkipWs;
    assert (inner + tail)[0] == inner[0];
  }

  lemma ElementsStepLast(s: string, v: Json, rest: string)
    requires ParseValue(s) == Ok(Parsed(v, "]" + rest))
    ensures ParseElements(s) == Ok(Parsed([v], rest))
  {
    NoWs("]" + rest);
    DropFront("]", rest);
  }

  lemma ElementsStepMore(s: string, v: Json, more: string, vs: seq<Json>, rest: string)
    requires ParseValue(s) == Ok(Parsed(v, "," + more))
    requires ParseElements(more) == Ok(Parsed(vs, rest))
    ensures ParseElements(s) == Ok(Parsed([v] + vs, rest))
  {
    NoWs("," + more);
    DropFront(",", more);
  }

  lemma ObjectStepEmpty(rest: string)
    ensures ParseObject("}" + rest) == Ok(Parsed(Obj([]), rest))
  {
    NoWs("}" + rest);
    DropFront("}", rest);
  }

  lemma ObjectStepMembers(inner: string, tail: string, ms: seq<Member>, rest: string)
    requires |inner| > 0 && inner[0] == '"'
    requires ParseMembers(inner + tail) == Ok(Parsed(ms, rest))
    ensures ParseObject(inner + tail) == Ok(Parsed(Obj(ToDict(ms)), rest))
  {
    NoWs(inner + tail);
  }

  lemma MemberStep(q: string, key: string, t: string, v: Json, rest: string)
    requires |q| > 0 && q[0] == '"'
    requires ScanString((q + (":" + t))[1..]) == Ok(Parsed(key, ":" + t))
    requires ParseValue(t) == Ok(Parsed(v, rest))
    ensures ParseMember(q + (":" + t)) == Ok(Parsed(Member(key, v), rest))
  {
    NoWs(":" + t);
    DropFront(":", t);
  }

  lemma MembersStepLast(s: string, m: Member, rest: string)
    requires ParseMember(s) == Ok(Parsed(m, "}" + rest))
    ensures ParseMembers(s) == Ok(Parsed([m], rest))
  {
    NoWs("}" + rest);
    DropFront("}", rest);
  }

  lemma MembersStepMore(s: string, m: Member, tail: string, ms: seq<Member>, rest: string)
    requires ParseMember(s) == Ok(Parsed(m, "," + (" " + tail)))
    requires |tail| > 0 && tail[0] == '"'
    requires ParseMembers(tail) == Ok(Parsed(ms, rest))
    ensures ParseMembers(s) == Ok(Parsed([m] + ms, rest))
  {
    NoWs("," + (" " + tail));
    DropFront(",", " " + tail);
    SkipWsPrefix(" ", tail);
  }

  // How the encoder lays out containers, with every concatenation nested
  // to the right.

  lemma ArrayShape(items: seq<Json>, rest: string)
    ensures Encode(Arr(items)) + rest == "[" + (EncodeItems(items) + ("]" + rest))
    ensures |items| == 0 ==> EncodeItems(items) == ""
    ensures |items| == 1 ==> EncodeItems(items) == Encode(items[0])
  {
    Assoc("[" + EncodeItems(items), "]", rest);
    Assoc("[", EncodeItems(items), "]" + rest);
  }

  lemma ObjectShape(ms: seq<Member>, rest: string)
    ensures Encode(Obj(ms)) + rest == "{" + (EncodeMembers(ms) + ("}" + rest))
    ensures |ms| == 0 ==> EncodeMembers(ms) == ""
    ensures |ms| == 1 ==> EncodeMembers(ms) == EncodeMember(ms[0])
  {
    Assoc("{" + EncodeMembers(ms), "}", rest);
    Assoc("{", EncodeMembers(ms), "}" + rest);
  }

  lemma ItemsShape(items: seq<Json>, close: string)
    requires |items| > 1
    ensures EncodeItems(items) + close
         == Encode(items[0]) + ("," + (" " + (EncodeItems(items[1..]) + close)))
  {
    var head := Encode(items[0]);
    var tail := EncodeItems(items[1..]);
    Assoc(head + ", ", tail, close);
    Assoc(head, ", ", tail + close);
    CommaSpace(tail + close);
  }

  lemma MembersShape(ms: seq<Member>, close: string)
    requires |ms| > 1
    ensures EncodeMembers(ms) + close
         == EncodeMember(ms[0]) + ("," + (" " + (EncodeMembers(ms[1..]) + close)))
  {
    var first := EncodeMember(ms[0]);
    var tail := EncodeMembers(ms[1..]);
    Assoc(first + ", ", tail, close);
    Assoc(first, ", ", tail + close);
    CommaSpace(tail + close);
  }

  lemma MemberShape(m: Member, rest: string)
    ensures EncodeMember(m) + rest == Quote(m.key) + (":" + (" " + (Encode(m.value) + rest)))
  {
    var k := Quote(m.key);
    var v := Encode(m.value);
    Assoc(k + ": ", v, rest);
    Assoc(k, ": ", v + rest);
    ColonSpace(v + rest);
  }

  /** Every value reads back from its encoding, whatever whitespace precedes
      it and whatever properly follows it. */
  lemma ValueRoundTrip(v: Json, ws: string, rest: string)
    requires Valid(v) && AllWs(ws) && Terminates(rest)
    ensures ParseValue(ws + (Encode(v) + rest)) == Ok(Parsed(v, rest))
    decreases v, 3
  {
    match v
    case Arr(items) => ArrayRoundTrip(items, ws, rest);
    case Obj(ms) => ObjectRoundTrip(ms, ws, rest);
    case _ => ScalarRoundTrip(v, ws, rest);
  }

  lemma ScalarRoundTrip(v: Json, ws: string, rest: string)
    requires !v.Arr? && !v.Obj?
    requires AllWs(ws) && Terminates(rest)
    ensures ParseValue(ws + (Encode(v) + rest)) == Ok(Parsed(v, rest))
  {
    match v
    case Num(n) => NumberValueRoundTrip(n, ws, rest);
    case Str(str) => StringValueRoundTrip(str, ws, rest);
    case _ => LiteralRoundTrip(v, ws, rest);
  }

  lemma LiteralRoundTrip(v: Json, ws: string, rest: string)
    requires v.Null? || v.Bool?
    requires AllWs(ws)
    ensures ParseValue(ws + (Encode(v) + rest)) == Ok(Parsed(v, rest))
  {
    var e := Encode(v);
    var x := ws + (e + rest);
    SkipWsPrefix(ws, e + rest);
    TakeFront(e, rest);
    DropFront(e, rest);
    if v.Null? {
      ValueStepNull(x);
    } else if v.b {
      ValueStepTrue(x);
    } else {
      ValueStepFalse(x);
    }
  }

  lemma NumberValueRoundTrip(n: int, ws: string, rest: string)
    requires AllWs(ws) && Terminates(rest)
    ensures ParseValue(ws + (Encode(Num(n)) + rest)) == Ok(Parsed(Num(n), rest))
  {
    var e := Encode(Num(n));
    SkipWsPrefix(ws, e + rest);
    ValueStepNumber(ws + (e + rest));
    NumberRoundTrip(n, rest);
  }

  lemma StringValueRoundTrip(str: string, ws: string, rest: string)
    requires AllWs(ws)
    ensures ParseValue(ws + (Encode(Str(str)) + rest)) == Ok(Parsed(Str(str), rest))
  {
    var e := Encode(Str(str));
    SkipWsPrefix(ws, e + rest);
    QuoteRoundTrip(str, rest);
    ValueStepString(ws + (e + rest), str, rest);
  }

  lemma ArrayRoundTrip(items: seq<Json>, ws: string, rest: string)
    requires forall i :: 0 <= i < |items| ==> Valid(items[i])
    requires AllWs(ws)
    ensures ParseValue(ws + (Encode(Arr(items)) + rest)) == Ok(Parsed(Arr(items), rest))
    decreases items, 2
  {
    hide Encode, EncodeItems, ParseValue, ParseArray, ParseElements;
    ArrayShape(items, rest);
    var inner := EncodeItems(items);
    ValueStepArray(ws, inner + ("]" + rest));
    if |items| == 0 {
      assert inner + ("]" + rest) == "]" + rest;
      assert items == [];
      ArrayStepEmpty(rest);
    } else {
      ItemsRoundTrip(items, "", rest);
      assert "" + (inner + ("]" + rest)) == inner + ("]" + rest);
      ArrayStepItems(inner, "]" + rest, items, rest);
    }
  }

  lemma ObjectRoundTrip(ms: seq<Member>, ws: string, rest: string)
    requires UniqueKeys(ms) && forall i :: 0 <= i < |ms| ==> Valid(ms[i].value)
    requires AllWs(ws)
    ensures ParseValue(ws + (Encode(Obj(ms)) + rest)) == Ok(Parsed(Obj(ms), rest))
    decreases ms, 2
  {
    hide Encode, EncodeMembers, ParseValue, ParseObject, ParseMembers, ToDict;
    ObjectShape(ms, rest);
    var inner := EncodeMembers(ms);
    ValueStepObject(ws, inner + ("}" + rest));
    if |ms| == 0 {
      assert inner + ("}" + rest) == "}" + rest;
      assert ms == [];
      ObjectStepEmpty(rest);
    } else {
      MembersRoundTrip(ms, rest);
      ObjectStepMembers(inner, "}" + rest, ms, rest);
      ToDictIdentity(ms);
    }
  }

  /** The items of a non-empty list read back up to and past the closing bracket. */
  lemma {:induction false} ItemsRoundTrip(items: seq<Json>, ws: string, rest: string)
    requires |items| > 0 && AllWs(ws)
    requires forall i :: 0 <= i < |items| ==> Valid(items[i])
    ensures ParseElements(ws + (EncodeItems(items) + ("]" + rest))) == Ok(Parsed(items, rest))
    decreases items, 1
  {
    hide Encode, EncodeItems, ParseValue, ParseElements;
    var close := "]" + rest;
    var x := ws + (EncodeItems(items) + close);
    if |items| == 1 {
      ArrayShape(items, rest);
      ValueRoundTrip(items[0], ws, close);
      ElementsStepLast(x, items[0], rest);
      assert [items[0]] == items;
    } else {
      var tail := EncodeItems(items[1..]);
      var more := " " + (tail + close);
      ItemsShape(items, close);
      ValueRoundTrip(items[0], ws, "," + more);
      ItemsRoundTrip(items[1..], " ", rest);
      ElementsStepMore(x, items[0], more, items[1..], rest);
      assert [items[0]] + items[1..] == items;
    }
  }

  /** The members of a non-empty dict read back up to and past the closing brace. */
  lemma {:induction false} MembersRoundTrip(ms: seq<Member>, rest: string)
    requires |ms| > 0 && UniqueKeys(ms)
    requires forall i :: 0 <= i < |ms| ==> Valid(ms[i].value)
    ensures ParseMembers(EncodeMembers(ms) + ("}" + rest)) == Ok(Parsed(ms, rest))
    decreases ms, 1
  {
    hide EncodeMember, EncodeMembers, ParseMember, ParseMembers;
    var close := "}" + rest;
    var x := EncodeMembers(ms) + close;
    if |ms| == 1 {
      ObjectShape(ms, rest);
      MemberRoundTrip(ms[0], close);
      MembersStepLast(x, ms[0], rest);
      assert [ms[0]] == ms;
    } else {
      var tail := EncodeMembers(ms[1..]);
      MembersShape(ms, close);
      MemberRoundTrip(ms[0], "," + (" " + (tail + close)));
      assert UniqueKeys(ms[1..]);
      MembersRoundTrip(ms[1..], rest);
      MembersStepMore(x, ms[0], tail + close, ms[1..], rest);
      assert [ms[0]] + ms[1..] == ms;
    }
  }

  lemma MemberRoundTrip(m: Member, rest: string)
    requires Valid(m.value)
    requires |rest| > 0 && (rest[0] == ',' || rest[0] == '}')
    ensures ParseMember(EncodeMember(m) + rest) == Ok(Parsed(m, rest))
    decreases m, 0
  {
    hide Encode, EncodeMember, Quote, ParseValue, ParseMember, ScanString;
    var t := " " + (Encode(m.value) + rest);
    MemberShape(m, rest);
    QuoteRoundTrip(m.key, ":" + t);
    ValueRoundTrip(m.value, " ", rest);
    MemberStep(Quote(m.key), m.key, t, m.value, rest);
  }

  lemma {:induction false} InsertNewKey(d: seq<Member>, m: Member)
    requires forall i :: 0 <= i < |d| ==> d[i].key != m.key
    ensures Insert(d, m) == d + [m]
  {
    if |d| > 0 {
      assert d[0].key != m.key;
      InsertNewKey(d[1..], m);
      assert [d[0]] + (d[1..] + [m]) == d + [m];
    }
  }

  /** Building a dict from pairs whose keys are distinct keeps the pairs as they are. */
  lemma {:induction false} ToDictIdentity(ms: seq<Member>)
    requires UniqueKeys(ms)
    ensures ToDict(ms) == ms
  {
    if |ms| > 0 {
      var init := ms[..|ms| - 1];
      assert UniqueKeys(init);
      ToDictIdentity(init);
      InsertNewKey(init, ms[|ms| - 1]);
      assert init + [ms[|ms| - 1]] == ms;
    }
  }

  /** `json.loads(json.dumps(v)) == v` for every value a Python program can hold. */
  lemma DecodeEncode(v: Json)
    requires Valid(v)
    ensures Decode(Encode(v)) == Ok(v)
  {
    ValueRoundTrip(v, "", "");
    assert "" + (Encode(v) + "") == Encode(v);
  }
}
