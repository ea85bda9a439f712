/** The part of zod the actions rely on: an object schema whose fields are
    string rules (a minimum length, or the UUID shape), `safeParse` on the
    values read from a form, and `flatten().fieldErrors`, which collects the
    failing fields. */
module Validation {
  import opened Base
  import Forms

  predicate IsHexDigit(c: char)
  {
    '0' <= c <= '9' || 'a' <= c <= 'f' || 'A' <= c <= 'F'
  }

  /** zod's `.uuid()` shape: 8-4-4-4-12 hexadecimal digits separated by hyphens. */
  predicate IsUuid(s: string)
  {
    |s| == 36 &&
    forall i :: 0 <= i < |s| ==>
      if i == 8 || i == 13 || i == 18 || i == 23 then s[i] == '-' else IsHexDigit(s[i])
  }

  /** JavaScript's `.length` of a string: its UTF-16 code units, two for a
      character outside the Basic Multilingual Plane. */
  function Utf16Length(s: string): (n: nat)
    ensures |s| <= n <= 2 * |s|
    ensures n == |s| <==> forall i :: 0 <= i < |s| ==> s[i] as int <= 0xFFFF
  {
    if s == [] then 0
    else
      var tail := s[1..];
      assert forall i :: 0 <= i < |tail| ==> tail[i] == s[i + 1];
      (if s[0] as int <= 0xFFFF then 1 else 2) + Utf16Length(tail)
  }

  /** A title of a letter and an emoji is three code units long, so it meets
      the board title's three-character minimum. */
  lemma AstralCharCountsTwice()
    ensures Accepts(MinLength("title", 3, "Title must be at least 3 characters long."), "a\U{1F600}")
  {
  }

  /** zod's message when a string schema is given `null` (an absent form field). */
  const ExpectedString := "Expected string, received null"

  /** One field of an object schema: `z.string().min(min, { message })` or
      `z.string().uuid({ message })`. */
  datatype Rule =
    | MinLength(name: string, min: nat, message: string)
    | Uuid(name: string, message: string)

  /** The string values the rule accepts; `.min` counts UTF-16 code units. */
  predicate Accepts(rule: Rule, s: string)
  {
    match rule
    case MinLength(_, min, _) => Utf16Length(s) >= min
    case Uuid(_, _) => IsUuid(s)
  }

  /** The issue the rule raises for a form value, if any. */
  function Issue(rule: Rule, v: Option<string>): (issue: Option<string>)
    ensures issue == None <==> v.Some? && Accepts(rule, v.value)
    ensures v == None ==> issue == Some(ExpectedString)
    ensures v.Some? && !Accepts(rule, v.value) ==> issue == Some(rule.message)
  {
    match v
    case None => Some(ExpectedString)
    case Some(s) => if Accepts(rule, s) then None else Some(rule.message)
  }

  /** A field name paired with the issue its schema raised, if any. */
  type Checked = (string, Option<string>)

  predicate AllValid(checks: seq<Checked>)
  {
    forall i :: 0 <= i < |checks| ==> checks[i].1 == None
  }

  /** `safeParse(...).error.flatten().fieldErrors`: each failing field with its messages,
      in the order zod reports them. */
  function FlattenErrors(checks: seq<Checked>): (errors: FieldErrors)
    ensures forall k :: k in errors <==>
      exists i :: 0 <= i < |checks| && checks[i].0 == k && checks[i].1.Some?
    ensures forall k :: k in errors ==> errors[k] != []
    ensures errors == map[] <==> AllValid(checks)
  {
    if checks == [] then map[]
    else
      var rest := FlattenErrors(checks[1..]);
      assert forall i :: 1 <= i < |checks| ==> checks[i] == checks[1..][i - 1];
      match checks[0].1
      case None => rest
      case Some(m) =>
        var k := checks[0].0;
        rest[k := [m] + (if k in rest then rest[k] else [])]
  }

  /** Each field of the schema with what its rule says about `formData.get(name)`. */
  function Checks(form: Forms.Entries, schema: seq<Rule>): (checks: seq<Checked>)
    ensures |checks| == |schema|
    ensures forall i :: 0 <= i < |schema| ==>
      checks[i] == (schema[i].name, Issue(schema[i], Forms.Get(form, schema[i].name)))
  {
    if schema == [] then []
    else [(schema[0].name, Issue(schema[0], Forms.Get(form, schema[0].name)))] + Checks(form, schema[1..])
  }

  /** The outcome of `safeParse`: the flattened field errors, or the parsed values
      (one per schema field, in schema order). */
  datatype Parse = Failure(errors: FieldErrors) | Success(data: seq<string>)

  /** The values of the schema's fields, once every one of them is present. */
  function Values(form: Forms.Entries, schema: seq<Rule>): (data: seq<string>)
    requires forall i :: 0 <= i < |schema| ==> Forms.Get(form, schema[i].name).Some?
    ensures |data| == |schema|
    ensures forall i :: 0 <= i < |schema| ==> Forms.Get(form, schema[i].name) == Some(data[i])
  {
    if schema == [] then []
    else
      var tail := schema[1..];
      assert forall i :: 0 <= i < |tail| ==> tail[i] == schema[i + 1];
      var rest := Values(form, tail);
      var data := [Forms.Get(form, schema[0].name).value] + rest;
      assert forall i :: 1 <= i < |data| ==> data[i] == rest[i - 1];
      data
  }

  /** `Schema.safeParse({ name: formData.get(name), ... })`. It succeeds exactly when
      every field is present and accepted, and then yields the form's values. */
  function SafeParse(form: Forms.Entries, schema: seq<Rule>): (r: Parse)
    ensures r.Success? <==> forall i :: 0 <= i < |schema| ==>
      (Forms.Get(form, schema[i].name).Some? && Accepts(schema[i], Forms.Get(form, schema[i].name).value))
    ensures r.Success? ==> |r.data| == |schema|
    ensures r.Success? ==> forall i :: 0 <= i < |schema| ==>
      (Forms.Get(form, schema[i].name) == Some(r.data[i]) && Accepts(schema[i], r.data[i]))
    ensures r.Failure? ==> r.errors == FlattenErrors(Checks(form, schema)) && r.errors != map[]
  {
    var checks := Checks(form, schema);
    if AllValid(checks) then
      assert forall i :: 0 <= i < |schema| ==> checks[i].1 == None;
      Success(Values(form, schema))
    else
      Failure(FlattenErrors(checks))
  }

  /** A field whose value is absent from the form is reported with zod's
      "received null" message, under its own name. */
  lemma {:induction false} MissingFieldReported(form: Forms.Entries, schema: seq<Rule>, i: nat)
    requires i < |schema|
    requires Forms.Get(form, schema[i].name) == None
    requires forall j :: 0 <= j < |schema| && j != i ==> schema[j].name != schema[i].name
    ensures SafeParse(form, schema).Failure?
    ensures SafeParse(form, schema).errors[schema[i].name] == [ExpectedString]
  {
    var checks := Checks(form, schema);
    FlattenSingle(checks, i);
  }

  /** When only one check carries a name, the flattened errors hold exactly its issue. */
  lemma {:induction false} FlattenSingle(checks: seq<Checked>, i: nat)
    requires i < |checks| && checks[i].1.Some?
    requires forall j :: 0 <= j < |checks| && j != i ==> checks[j].0 != checks[i].0
    ensures FlattenErrors(checks)[checks[i].0] == [checks[i].1.value]
  {
    var rest := checks[1..];
    assert forall j :: 1 <= j < |checks| ==> checks[j] == rest[j - 1];
    if i == 0 {
      assert checks[0].0 !in FlattenErrors(rest);
    } else {
      FlattenSingle(rest, i - 1);
    }
  }
}
