/** Optional values and the three ways an operation can end under the retry policy. */
module Outcomes {

  datatype Option<+T> = None | Some(value: T)

  /** How an awaited operation ends: with a value, with a transport or timeout
      failure the retry policy retries (Playwright `Error`, `asyncio.TimeoutError`),
      or with any other exception, which is never retried. */
  datatype Outcome<+T> = Ok(value: T) | Retryable(reason: string) | Fatal(reason: string)
}

/** Parsed JSON as Python's `json.loads` returns it, and the parts of Python's
    dynamic typing the extractors depend on: truthiness, `dict.get`, hashability
    and `str()` rendering. Floating-point numbers are not modelled: a number is an
    integer. */
module Json {
  import opened Outcomes
  import Text

  datatype Json =
    | JNull
    | JBool(b: bool)
    | JNum(n: int)
    | JStr(s: string)
    | JArr(items: seq<Json>)
    | JObj(fields: map<string, Json>)

  /** Python truthiness: `None`, `False`, `0`, `""`, `[]` and `{}` are false. */
  predicate Truthy(j: Json) {
    match j
    case JNull => false
    case JBool(b) => b
    case JNum(n) => n != 0
    case JStr(s) => s != []
    case JArr(items) => items != []
    case JObj(fields) => fields != map[]
  }

  /** `d.get(key)` on a dict. */
  function Get(d: map<string, Json>, key: string): (r: Option<Json>)
    ensures r.Some? <==> key in d
    ensures r.Some? ==> r.value == d[key]
  {
    if key in d then Some(d[key]) else None
  }

  /** `d.get(key, default)` on a dict. */
  function GetOr(d: map<string, Json>, key: string, default: Json): (r: Json)
    ensures key in d ==> r == d[key]
    ensures key !in d ==> r == default
  {
    if key in d then d[key] else default
  }

  /** Lists and dicts cannot be members of a Python set. */
  predicate Hashable(j: Json) {
    !j.JArr? && !j.JObj?
  }

  /** A hashable value as a Python set or dict tells it apart from others:
      `True == 1` and `False == 0` hash alike, so booleans stand for their
      integers; every other hashable value stands for itself. */
  function PyKey(j: Json): Json {
    if j.JBool? then JNum(if j.b then 1 else 0) else j
  }

  /** Python's `==` between two hashable values, case by case: booleans and
      integers compare as numbers, anything else compares equal only to the
      same kind of value with the same contents. */
  predicate PyEq(a: Json, b: Json) {
    match (a, b)
    case (JBool(x), JBool(y)) => x == y
    case (JBool(x), JNum(m)) => m == (if x then 1 else 0)
    case (JNum(n), JBool(y)) => n == (if y then 1 else 0)
    case (JNum(n), JNum(m)) => n == m
    case (JNull, JNull) => true
    case (JStr(x), JStr(y)) => x == y
    case _ => false
  }

  /** Two hashable values fall on the same key exactly when Python finds them
      equal, so membership of `PyKey(j)` is Python's `j in s`. */
  lemma PyKeyEq(a: Json, b: Json)
    requires Hashable(a) && Hashable(b)
    ensures PyKey(a) == PyKey(b) <==> PyEq(a, b)
  {
  }

  /** The operations the model treats as given functions rather than
      reimplementing them: `json.loads` (None when it raises), `re.search(p, s)`
      reduced to the text of group 0 of the first match, and Python's `repr` of a
      list or dict. */
  datatype Env = Env(
    parse: string -> Option<Json>,
    search: (string, string) -> Option<string>,
    reprComposite: Json -> string)

  /** `f"{j}"`: a string renders as itself, a number in decimal, booleans and
      null as `True`, `False`, `None`. */
  function Show(env: Env, j: Json): (r: string)
    ensures j.JStr? ==> r == j.s
  {
    match j
    case JStr(s) => s
    case JNum(n) => Text.IntToString(n)
    case JBool(b) => if b then "True" else "False"
    case JNull => "None"
    case _ => env.reprComposite(j)
  }
}
