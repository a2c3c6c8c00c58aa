/**
 * Request bodies as the server receives them (parsed JSON) and the issue lists
 * the schema library reports when a body is rejected. The string, number and
 * optional-field checks below are the building blocks every schema of the
 * server is made of.
 */
module Json {
  import opened Wrappers
  import opened Text

  datatype Json =
    | JNull
    | JBool(b: bool)
    | JNumber(n: real)
    | JString(s: string)
    | JArray(items: seq<Json>)
    | JObject(fields: map<string, Json>)

  datatype PathSegment = Key(key: string) | Index(index: nat)

  datatype IssueCode = InvalidType | TooSmall | TooBig | NotInteger | InvalidUrl | Custom

  /** One reason a body was rejected: where, what kind, and the schema's own message if it has one. */
  datatype Issue = Issue(path: seq<PathSegment>, code: IssueCode, message: Option<string>)

  type Issues = seq<Issue>

  /** The issues of a failed check, none for a passed one. */
  function IssuesOf<T>(r: Result<T, Issues>): Issues {
    match r
    case Ok(_) => []
    case Err(e) => e
  }

  /** Prefixes every issue's path with a segment (the field or index it was found under). */
  function Under(seg: PathSegment, issues: Issues): (r: Issues)
    ensures |r| == |issues|
  {
    seq(|issues|, i requires 0 <= i < |issues| => Issue([seg] + issues[i].path, issues[i].code, issues[i].message))
  }

  /**
   * `z.string().min(min).max(max)` applied to a present value. Every failed
   * bound is reported, not only the first.
   */
  function CheckString(j: Json, min: nat, max: Option<nat>, minMessage: Option<string>, maxMessage: Option<string>): (r: Result<string, Issues>)
    ensures r.Ok? <==> j.JString? && min <= |j.s| && (max.None? || |j.s| <= max.value)
    ensures r.Ok? ==> r.value == j.s
    ensures r.Err? ==> r.error != []
  {
    match j
    case JString(s) =>
      var issues := (if |s| < min then [Issue([], TooSmall, minMessage)] else [])
                    + (if max.Some? && |s| > max.value then [Issue([], TooBig, maxMessage)] else []);
      if issues == [] then Ok(s) else Err(issues)
    case _ => Err([Issue([], InvalidType, None)])
  }

  /**
   * `z.number().int().min(min).max(max)` applied to a present value. The
   * integer check and both bounds are all reported when they fail.
   */
  function CheckInt(j: Json, min: Option<int>, max: Option<int>, minMessage: Option<string>, maxMessage: Option<string>): (r: Result<int, Issues>)
    ensures r.Ok? <==> j.JNumber? && IsInteger(j.n)
                       && (min.None? || min.value as real <= j.n)
                       && (max.None? || j.n <= max.value as real)
    ensures r.Ok? ==> r.value as real == j.n
    ensures r.Err? ==> r.error != []
  {
    match j
    case JNumber(n) =>
      var issues := (if !IsInteger(n) then [Issue([], NotInteger, None)] else [])
                    + (if min.Some? && n < min.value as real then [Issue([], TooSmall, minMessage)] else [])
                    + (if max.Some? && max.value as real < n then [Issue([], TooBig, maxMessage)] else []);
      if issues == [] then Ok(n.Floor) else Err(issues)
    case _ => Err([Issue([], InvalidType, None)])
  }

  /**
   * `z.number().int().positive(message)` applied to a present value: both the
   * integer check and the sign check are reported when they fail.
   */
  function CheckPositiveInt(j: Json, message: Option<string>): (r: Result<int, Issues>)
    ensures r.Ok? <==> j.JNumber? && IsInteger(j.n) && j.n > 0.0
    ensures r.Ok? ==> r.value > 0 && r.value as real == j.n
    ensures r.Err? ==> r.error != []
  {
    match j
    case JNumber(n) =>
      var issues := (if !IsInteger(n) then [Issue([], NotInteger, None)] else [])
                    + (if n <= 0.0 then [Issue([], TooSmall, message)] else []);
      if issues == [] then Ok(n.Floor) else Err(issues)
    case _ => Err([Issue([], InvalidType, None)])
  }

  /**
   * `z.array(element).min(min)` applied to a present value: every element's
   * issues under its index, and the length issue.
   */
  function CheckArray<T>(j: Json, element: Json -> Result<T, Issues>, min: nat): (r: Result<seq<T>, Issues>)
    ensures r.Ok? <==> j.JArray? && |j.items| >= min && forall i :: 0 <= i < |j.items| ==> element(j.items[i]).Ok?
    ensures r.Ok? ==> |r.value| == |j.items| && forall i :: 0 <= i < |j.items| ==> r.value[i] == element(j.items[i]).value
    ensures r.Err? && (j.JArray? ==> forall i :: 0 <= i < |j.items| ==> element(j.items[i]).Err? ==> element(j.items[i]).error != [])
            ==> r.error != []
  {
    match j
    case JArray(items) =>
      var elements := CheckElements(items, element, 0);
      if elements.Ok? && |items| >= min then Ok(elements.value)
      else Err(IssuesOf(elements) + (if |items| < min then [Issue([], TooSmall, None)] else []))
    case _ => Err([Issue([], InvalidType, None)])
  }

  /** The elements of an array checked one by one, `offset` being the index of the first. */
  function CheckElements<T>(items: seq<Json>, element: Json -> Result<T, Issues>, offset: nat): (r: Result<seq<T>, Issues>)
    ensures r.Ok? <==> forall i :: 0 <= i < |items| ==> element(items[i]).Ok?
    ensures r.Ok? ==> |r.value| == |items| && forall i :: 0 <= i < |items| ==> r.value[i] == element(items[i]).value
    ensures r.Err? && (forall i :: 0 <= i < |items| ==> element(items[i]).Err? ==> element(items[i]).error != []) ==> r.error != []
    decreases |items|
  {
    if items == [] then Ok([])
    else
      var first := element(items[0]);
      var rest := CheckElements(items[1..], element, offset + 1);
      if first.Ok? && rest.Ok? then Ok([first.value] + rest.value)
      else Err(Under(Index(offset), IssuesOf(first)) + IssuesOf(rest))
  }

  /** A required field: missing is an `InvalidType` issue ("Required"), found issues are placed under the key. */
  function Required<T>(fields: map<string, Json>, key: string, check: Json -> Result<T, Issues>): (r: Result<T, Issues>)
    ensures key !in fields ==> r.Err?
    ensures key in fields ==> (r.Ok? <==> check(fields[key]).Ok?)
    ensures key in fields && r.Ok? ==> r.value == check(fields[key]).value
    ensures r.Err? && (key in fields ==> check(fields[key]).error != []) ==> r.error != []
  {
    if key !in fields then Err([Issue([Key(key)], InvalidType, None)])
    else match check(fields[key])
      case Ok(v) => Ok(v)
      case Err(e) => Err(Under(Key(key), e))
  }

  /** An `.optional()` field: missing is accepted as `None`. */
  function Optional<T>(fields: map<string, Json>, key: string, check: Json -> Result<T, Issues>): (r: Result<Option<T>, Issues>)
    ensures key !in fields ==> r == Ok(None)
    ensures key in fields ==> (r.Ok? <==> check(fields[key]).Ok?)
    ensures key in fields && r.Ok? ==> r.value == Some(check(fields[key]).value)
    ensures r.Err? && (key in fields ==> check(fields[key]).error != []) ==> r.error != []
  {
    if key !in fields then Ok(None)
    else match check(fields[key])
      case Ok(v) => Ok(Some(v))
      case Err(e) => Err(Under(Key(key), e))
  }
}
