/**
 * The zod building blocks the controllers' schemas are made of.  A schema
 * either yields a typed value, fails with a list of issues (a `ZodError`,
 * which the controllers answer with 400), or throws some other error from
 * inside a transform (which the controllers answer with 500).
 */
module Schema {
  import opened Wrappers
  import opened Js

  /** One entry of a ZodError's `errors` list: where and what. */
  datatype Issue = Issue(path: seq<string>, message: string)

  /** The outcome of `schema.parse(body)`. */
  datatype Parsed<+T> = Parsed(value: T) | ZodError(issues: seq<Issue>) | Thrown(message: string)

  /** The outcome of checking one field. */
  datatype Check<+T> = Pass(value: T) | Fail(issues: seq<Issue>)

  /** zod's message for a violated `.min(1)` on a string without a custom message. */
  const MinOneMessage := "String must contain at least 1 character(s)"

  /** zod's issue for a value of the wrong type ("Required" when it is missing). */
  function Mismatch(path: seq<string>, expected: string, v: Value): Issue {
    Issue(path, if v.Undefined? then "Required" else "Expected " + expected + ", received " + TypeName(v))
  }

  function IssuesOf<T>(c: Check<T>): seq<Issue> {
    if c.Fail? then c.issues else []
  }

  /** `z.object({...})` itself: the body must be a plain object. */
  function AsObject(body: Value): (r: Check<Fields>)
    ensures r.Pass? <==> body.Obj?
    ensures r.Pass? ==> r.value == body.fields
  {
    if body.Obj? then Pass(body.fields) else Fail([Mismatch([], "object", body)])
  }

  /** `z.string()` */
  function StringField(o: Fields, key: string): (r: Check<string>)
    ensures r.Pass? <==> Get(o, key).Str?
    ensures r.Pass? ==> r.value == Get(o, key).s
    ensures r.Fail? ==> r.issues == [Mismatch([key], "string", Get(o, key))]
  {
    var v := Get(o, key);
    if v.Str? then Pass(v.s) else Fail([Mismatch([key], "string", v)])
  }

  /** `z.string().min(1, message)` */
  function NonEmptyString(o: Fields, key: string, message: string): (r: Check<string>)
    ensures r.Pass? <==> (Get(o, key).Str? && Get(o, key).s != "")
    ensures r.Pass? ==> r.value == Get(o, key).s
    ensures r.Fail? ==> |r.issues| == 1 && r.issues[0].path == [key]
  {
    var v := Get(o, key);
    if !v.Str? then Fail([Mismatch([key], "string", v)])
    else if v.s == "" then Fail([Issue([key], message)])
    else Pass(v.s)
  }

  /** `z.string().optional()`: absent, or a string (null is refused). */
  function OptionalString(o: Fields, key: string): (r: Check<Option<string>>)
    ensures r.Pass? <==> (Get(o, key).Undefined? || Get(o, key).Str?)
    ensures r.Pass? ==> r.value == if Get(o, key).Str? then Some(Get(o, key).s) else None
  {
    var v := Get(o, key);
    if v.Undefined? then Pass(None)
    else if v.Str? then Pass(Some(v.s))
    else Fail([Mismatch([key], "string", v)])
  }

  /** `z.boolean().default(false)` */
  function BoolDefaultFalse(o: Fields, key: string): (r: Check<bool>)
    ensures r.Pass? <==> (Get(o, key).Undefined? || Get(o, key).Bool?)
    ensures r.Pass? ==> r.value == (Get(o, key).Bool? && Get(o, key).b)
  {
    var v := Get(o, key);
    if v.Undefined? then Pass(false)
    else if v.Bool? then Pass(v.b)
    else Fail([Issue([key], "Expected boolean, received " + TypeName(v))])
  }

  /** The issues of `z.number()` applied to each element of an array, from index `from` on. */
  function ElementIssues(key: string, items: seq<Value>, from: nat): (r: seq<Issue>)
    requires from <= |items|
    ensures r == [] <==> forall i :: from <= i < |items| ==> items[i].Num?
    decreases |items| - from
  {
    if from == |items| then []
    else
      (if items[from].Num? then [] else [Mismatch([key, IntToString(from)], "number", items[from])])
      + ElementIssues(key, items, from + 1)
  }

  /** `z.array(z.number()).optional()` */
  function OptionalNumbers(o: Fields, key: string): (r: Check<Option<seq<int>>>)
    ensures r.Pass? <==> (Get(o, key).Undefined?
                          || (Get(o, key).Arr? && forall i :: 0 <= i < |Get(o, key).items| ==> Get(o, key).items[i].Num?))
    ensures r.Pass? && Get(o, key).Arr? ==>
              r.value.Some? && |r.value.value| == |Get(o, key).items|
              && forall i :: 0 <= i < |r.value.value| ==> Get(o, key).items[i] == Num(r.value.value[i])
    ensures r.Pass? && Get(o, key).Undefined? ==> r.value.None?
  {
    var v := Get(o, key);
    if v.Undefined? then Pass(None)
    else if !v.Arr? then Fail([Mismatch([key], "array", v)])
    else
      var issues := ElementIssues(key, v.items, 0);
      if issues != [] then Fail(issues)
      else Pass(Some(seq(|v.items|, i requires 0 <= i < |v.items| => v.items[i].n)))
  }

  /** `z.number().int().positive(message)` (the model's numbers are integers). */
  function PositiveInt(o: Fields, key: string, message: string): (r: Check<int>)
    ensures r.Pass? <==> (Get(o, key).Num? && Get(o, key).n > 0)
    ensures r.Pass? ==> r.value == Get(o, key).n
    ensures r.Fail? ==> |r.issues| == 1 && r.issues[0].path == [key]
  {
    var v := Get(o, key);
    if !v.Num? then Fail([Mismatch([key], "number", v)])
    else if v.n <= 0 then Fail([Issue([key], message)])
    else Pass(v.n)
  }

  /** `z.object({ name: z.string().min(1) })`, the schema of both categories and skills. */
  function NameSchema(body: Value): (r: Check<string>)
    ensures r.Pass? <==> body.Obj? && Get(body.fields, "name").Str? && Get(body.fields, "name").s != ""
    ensures r.Pass? ==> r.value == Get(body.fields, "name").s
    ensures r.Fail? && body.Obj? ==> |r.issues| == 1 && r.issues[0].path == ["name"]
  {
    match AsObject(body)
    case Fail(issues) => Fail(issues)
    case Pass(o) => NonEmptyString(o, "name", MinOneMessage)
  }

  /**
   * `new Date(str)`, as milliseconds since the epoch; None is an Invalid Date
   * (still a Date object, so truthy).  Date-string syntax is not modelled:
   * the parser is a parameter.
   */
  type DateParser = string -> Option<int>

  /** `z.string().transform(str => new Date(str))` */
  function DateString(o: Fields, key: string, parse: DateParser): (r: Check<Option<int>>)
    ensures r.Pass? <==> Get(o, key).Str?
    ensures r.Pass? ==> r.value == parse(Get(o, key).s)
    ensures r.Fail? ==> r.issues == [Mismatch([key], "string", Get(o, key))]
  {
    var v := Get(o, key);
    if v.Str? then Pass(parse(v.s)) else Fail([Mismatch([key], "string", v)])
  }

  /** `z.string().optional().transform(str => str ? new Date(str) : undefined)`: None when absent or empty. */
  function OptionalDateString(o: Fields, key: string, parse: DateParser): (r: Check<Option<Option<int>>>)
    ensures r.Pass? <==> Get(o, key).Undefined? || Get(o, key).Str?
    ensures r.Pass? ==> (r.value.None? <==> Get(o, key).Undefined? || Get(o, key) == Str(""))
    ensures r.Pass? && r.value.Some? ==> r.value.value == parse(Get(o, key).s)
    ensures r.Fail? ==> r.issues == [Mismatch([key], "string", Get(o, key))]
  {
    var v := Get(o, key);
    if v.Undefined? then Pass(None)
    else if !v.Str? then Fail([Mismatch([key], "string", v)])
    else if v.s == "" then Pass(None)
    else Pass(Some(parse(v.s)))
  }
}
