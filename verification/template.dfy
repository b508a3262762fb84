/** Resolving a directory template against the owner's attributes, as
    `template.format(**owner.__dict__)` does: text is copied left to right,
    `{{` and `}}` stand for single braces, and `{name}` is replaced by the
    attribute `name`. The owner's attribute values are taken as the text
    `format` renders them to. */
module Template {
  import opened Results
  import opened Digits
  import opened Strings

  type Attributes = map<string, string>

  /** How `str.format` fails on a template. */
  datatype TemplateError =
      /** A KeyError: the owner has no attribute of that name. */
    | MissingAttribute(name: string)
      /** An IndexError: `{}` or `{0}` asks for a positional argument and
          there are none. */
    | PositionalField(field: string)
      /** A ValueError: a single `}`, a `{` that is never closed, or a `{`
          inside a field name. */
    | MalformedTemplate
      /** Attribute or index access, a conversion or a format spec
          (`.`, `[`, `!`, `:` in a field), which this model does not cover. */
    | UnsupportedField(field: string)

  predicate IsSpecial(c: char) {
    c == '.' || c == '[' || c == '!' || c == ':'
  }

  /** A field name that `format` looks up as a keyword argument. */
  predicate IsName(field: string) {
    && |field| > 0
    && !AllDecDigits(field)
    && forall i :: 0 <= i < |field| ==> field[i] != '{' && field[i] != '}' && !IsSpecial(field[i])
  }

  /** The value of one field, or why `format` rejects it. */
  function Lookup(field: string, attrs: Attributes): (r: Result<string, TemplateError>)
    requires forall i :: 0 <= i < |field| ==> field[i] != '}'
    ensures r.Ok? <==> IsName(field) && field in attrs
    ensures r.Ok? ==> r.value == attrs[field]
    ensures r == Err(MissingAttribute(field)) <==> IsName(field) && field !in attrs
  {
    if exists i :: 0 <= i < |field| && IsSpecial(field[i]) then Err(UnsupportedField(field))
    else if exists i :: 0 <= i < |field| && field[i] == '{' then Err(MalformedTemplate)
    else if |field| == 0 || AllDecDigits(field) then Err(PositionalField(field))
    else if field in attrs then Ok(attrs[field])
    else Err(MissingAttribute(field))
  }

  /** `p` followed by what `r` resolved to, or `r`'s error. */
  function Prepend(p: string, r: Result<string, TemplateError>): Result<string, TemplateError> {
    match r
    case Ok(s) => Ok(p + s)
    case Err(e) => Err(e)
  }

  /** `t.format(**attrs)`, read left to right; the first error met is the one raised. */
  function Resolve(t: string, attrs: Attributes): (r: Result<string, TemplateError>)
    ensures (forall i :: 0 <= i < |t| ==> t[i] != '{' && t[i] != '}') ==> r == Ok(t)
    decreases |t|
  {
    if |t| == 0 then Ok("")
    else if t[0] == '{' then
      if |t| > 1 && t[1] == '{' then Prepend("{", Resolve(t[2..], attrs))
      else
        var j := Find(t[1..], '}');
        if j == |t| - 1 then Err(MalformedTemplate)
        else
          match Lookup(t[1..j + 1], attrs)
          case Err(e) => Err(e)
          case Ok(v) => Prepend(v, Resolve(t[j + 2..], attrs))
    else if t[0] == '}' then
      if |t| > 1 && t[1] == '}' then Prepend("}", Resolve(t[2..], attrs))
      else Err(MalformedTemplate)
    else
      var r := Resolve(t[1..], attrs);
      assert r.Ok? ==> Prepend([t[0]], r).value == [t[0]] + r.value;
      assert (forall i :: 0 <= i < |t| ==> t[i] != '{' && t[i] != '}') ==> (forall i :: 0 <= i < |t[1..]| ==> t[1..][i] != '{' && t[1..][i] != '}');
      assert t == [t[0]] + t[1..];
      Prepend([t[0]], r)
  }

  // A reference reading of templates: a template is a sequence of literal
  // texts and named fields.

  datatype Segment = Lit(text: string) | Field(name: string)

  /** The template text for the segments: braces in literals are doubled. */
  function Render(segs: seq<Segment>): string {
    if |segs| == 0 then ""
    else
      match segs[0]
      case Lit(text) => EscapeBraces(text) + Render(segs[1..])
      case Field(name) => "{" + name + "}" + Render(segs[1..])
  }

  function EscapeBraces(text: string): (e: string)
    ensures |e| >= |text|
  {
    if |text| == 0 then "" else EscapeBrace(text[0]) + EscapeBraces(text[1..])
  }

  /** Text without braces is its own escape. */
  lemma {:induction false} EscapePlain(text: string)
    requires forall i :: 0 <= i < |text| ==> text[i] != '{' && text[i] != '}'
    ensures EscapeBraces(text) == text
    decreases |text|
  {
    if |text| > 0 {
      EscapePlain(text[1..]);
      assert [text[0]] + text[1..] == text;
    }
  }

  function EscapeBrace(c: char): (e: string)
    ensures |e| >= 1 && e[0] == c
  {
    if c == '{' || c == '}' then [c, c] else [c]
  }

  /** What the segments mean: the literals and the attribute values in order,
      or the first field whose attribute is missing. */
  function Expand(segs: seq<Segment>, attrs: Attributes): (r: Result<string, TemplateError>) {
    if |segs| == 0 then Ok("")
    else
      match segs[0]
      case Lit(text) => Prepend(text, Expand(segs[1..], attrs))
      case Field(name) =>
        if name in attrs then Prepend(attrs[name], Expand(segs[1..], attrs))
        else Err(MissingAttribute(name))
  }

  predicate NamedFields(segs: seq<Segment>) {
    forall i :: 0 <= i < |segs| && segs[i].Field? ==> IsName(segs[i].name)
  }

  /** The names of the fields, in order. */
  function FieldNames(segs: seq<Segment>): (names: seq<string>)
    ensures forall n :: n in names <==> exists i :: 0 <= i < |segs| && segs[i] == Field(n)
  {
    if |segs| == 0 then []
    else
      var rest := FieldNames(segs[1..]);
      assert forall n :: (exists i :: 0 <= i < |segs[1..]| && segs[1..][i] == Field(n))
                     <==> (exists i :: 1 <= i < |segs| && segs[i] == Field(n));
      match segs[0]
      case Lit(_) => rest
      case Field(name) => [name] + rest
  }

  lemma PrependAssoc(a: string, b: string, r: Result<string, TemplateError>)
    ensures Prepend(a, Prepend(b, r)) == Prepend(a + b, r)
  {
    if r.Ok? {
      assert a + (b + r.value) == (a + b) + r.value;
    }
  }

  /** One literal character, doubled if it is a brace, resolves to itself. */
  lemma ResolveChar(c: char, rest: string, attrs: Attributes)
    ensures Resolve(EscapeBrace(c) + rest, attrs) == Prepend([c], Resolve(rest, attrs))
  {
    var t := EscapeBrace(c) + rest;
    if c == '{' || c == '}' {
      assert t[0] == c && t[1] == c;
      assert t[2..] == rest;
    } else {
      assert t[0] == c;
      assert t[1..] == rest;
    }
  }

  /** An escaped literal resolves to itself, then the rest resolves. */
  lemma {:induction false} ResolveEscaped(text: string, rest: string, attrs: Attributes)
    ensures Resolve(EscapeBraces(text) + rest, attrs) == Prepend(text, Resolve(rest, attrs))
    decreases |text|
  {
    hide Resolve;
    if |text| == 0 {
      assert EscapeBraces(text) + rest == rest;
      match Resolve(rest, attrs)
      case Ok(s) => assert "" + s == s;
      case Err(_) =>
    } else {
      var c := text[0];
      var tail := EscapeBraces(text[1..]) + rest;
      assert EscapeBraces(text) + rest == EscapeBrace(c) + tail;
      ResolveChar(c, tail, attrs);
      ResolveEscaped(text[1..], rest, attrs);
      PrependAssoc([c], text[1..], Resolve(rest, attrs));
      assert [c] + text[1..] == text;
    }
  }

  /** Text without braces resolves to itself, then the rest resolves. */
  lemma ResolvePlain(text: string, rest: string, attrs: Attributes)
    requires forall i :: 0 <= i < |text| ==> text[i] != '{' && text[i] != '}'
    ensures Resolve(text + rest, attrs) == Prepend(text, Resolve(rest, attrs))
  {
    EscapePlain(text);
    ResolveEscaped(text, rest, attrs);
  }

  /** A named field resolves to its attribute, then the rest resolves. */
  lemma ResolveField(name: string, rest: string, attrs: Attributes)
    requires IsName(name)
    ensures Resolve("{" + name + "}" + rest, attrs)
         == if name in attrs then Prepend(attrs[name], Resolve(rest, attrs))
            else Err(MissingAttribute(name))
  {
    var t := "{" + name + "}" + rest;
    assert t[1..] == name + "}" + rest;
    assert t[1..][..|name|] == name;
    assert t[1..][|name|] == '}';
    var j := Find(t[1..], '}');
    assert j == |name| by {
      assert forall i :: 0 <= i < |name| ==> t[1..][i] == name[i];
    }
    assert t[1..j + 1] == name;
    assert t[j + 2..] == rest;
  }

  /** Resolving a rendered template is expanding its segments: it succeeds
      exactly when every field names an attribute, and otherwise fails on
      the first field that does not. */
  lemma {:induction false} ResolveRender(segs: seq<Segment>, attrs: Attributes)
    requires NamedFields(segs)
    ensures Resolve(Render(segs), attrs) == Expand(segs, attrs)
    decreases |segs|
  {
    if |segs| > 0 {
      assert NamedFields(segs[1..]) by {
        assert forall i :: 0 <= i < |segs[1..]| ==> segs[1..][i] == segs[i + 1];
      }
      ResolveRender(segs[1..], attrs);
      match segs[0]
      case Lit(text) =>
        ResolveEscaped(text, Render(segs[1..]), attrs);
      case Field(name) =>
        assert IsName(segs[0].name);
        ResolveField(name, Render(segs[1..]), attrs);
    }
  }

  /** Expansion succeeds exactly when every field's attribute is present. */
  lemma {:induction false} ExpandSucceeds(segs: seq<Segment>, attrs: Attributes)
    ensures Expand(segs, attrs).Ok? <==> forall n :: n in FieldNames(segs) ==> n in attrs
    decreases |segs|
  {
    if |segs| > 0 {
      ExpandSucceeds(segs[1..], attrs);
    }
  }

  /** A failed expansion names a field of the template whose attribute is missing. */
  lemma {:induction false} ExpandFailure(segs: seq<Segment>, attrs: Attributes)
    requires Expand(segs, attrs).Err?
    ensures Expand(segs, attrs).error.MissingAttribute?
    ensures Expand(segs, attrs).error.name in FieldNames(segs)
    ensures Expand(segs, attrs).error.name !in attrs
    decreases |segs|
  {
    if segs[0].Lit? || segs[0].name in attrs {
      ExpandFailure(segs[1..], attrs);
    }
  }

  /** Only the attributes a template names matter to it. */
  lemma {:induction false} ExpandIgnoresOtherAttributes(segs: seq<Segment>, a: Attributes, b: Attributes)
    requires forall n :: n in FieldNames(segs) ==> (n in a <==> n in b) && (n in a ==> a[n] == b[n])
    ensures Expand(segs, a) == Expand(segs, b)
    decreases |segs|
  {
    if |segs| > 0 {
      ExpandIgnoresOtherAttributes(segs[1..], a, b);
    }
  }
}
