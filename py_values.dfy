/** The Python values the backend passes around without looking inside them: the object
    `json.loads` returns, its truthiness, and the exceptions that reach the endpoint. */
module PyValues {

  /** A value produced by `json.loads`: dict, list, str, int, float, bool or None. */
  datatype Json =
    | JObject(fields: map<string, Json>)
    | JArray(items: seq<Json>)
    | JString(text: string)
    | JInt(i: int)
    | JFloat(r: real)
    | JBool(b: bool)
    | JNull

  /** The `{}` the handler returns whenever it gives up. */
  const EmptyObject: Json := JObject(map[])

  /** Python's `bool(v)`: empty containers, "", 0, 0.0, False and None are falsy. */
  predicate Truthy(v: Json) {
    match v
    case JObject(m) => |m| > 0
    case JArray(xs) => |xs| > 0
    case JString(t) => |t| > 0
    case JInt(i) => i != 0
    case JFloat(r) => r != 0.0
    case JBool(b) => b
    case JNull => false
  }

  /** `type(v).__name__` */
  function TypeName(v: Json): string {
    match v
    case JObject(_) => "dict"
    case JArray(_) => "list"
    case JString(_) => "str"
    case JInt(_) => "int"
    case JFloat(_) => "float"
    case JBool(_) => "bool"
    case JNull => "NoneType"
  }

  /** `d.get(k, default)` on a dict. */
  function Get(m: map<string, Json>, k: string, default: Json): Json {
    if k in m then m[k] else default
  }

  /** The exceptions that can reach the endpoint's `except` clauses, and those that pass
      them by: a `BaseException` that is not an `Exception` (`SystemExit`, `KeyboardInterrupt`,
      `GeneratorExit`) is caught by no `except Exception`. */
  datatype PyError =
    | EmptyDataError                                  // pandas.errors.EmptyDataError
    | HttpException(statusCode: nat, detail: string)  // fastapi.HTTPException
    | TypeError(message: string)
    | AttributeError(message: string)
    | OtherError(message: string)                     // anything else, with its str(e)
    | BaseExceptionOnly(typeName: string, message: string)

  /** A decimal digit for `0 <= d < 10`. */
  function Digit(d: nat): char
    requires d < 10
  {
    "0123456789"[d]
  }

  /** `str(n)` for a natural number. */
  function NatToString(n: nat): (s: string)
    ensures |s| > 0
    ensures forall k :: 0 <= k < |s| ==> '0' <= s[k] <= '9'
  {
    if n < 10 then [Digit(n)] else NatToString(n / 10) + [Digit(n % 10)]
  }

  /** The value of a string of decimal digits (`int(s)`). */
  function DecimalValue(s: string): nat
    requires forall k :: 0 <= k < |s| ==> '0' <= s[k] <= '9'
  {
    if |s| == 0 then 0
    else DecimalValue(s[..|s| - 1]) * 10 + (s[|s| - 1] as int - '0' as int)
  }

  /** `int(str(n)) == n` */
  lemma {:induction false} NatToStringRoundTrip(n: nat)
    ensures DecimalValue(NatToString(n)) == n
  {
    var s := NatToString(n);
    if n >= 10 {
      NatToStringRoundTrip(n / 10);
      assert s[..|s| - 1] == NatToString(n / 10);
    }
  }

  /** `str(e)`. For an HTTPException this is "<status>: <detail>", as Starlette renders it. */
  function Str(e: PyError): string {
    match e
    case EmptyDataError => "No columns to parse from file"
    case HttpException(code, detail) => NatToString(code) + ": " + detail
    case TypeError(m) => m
    case AttributeError(m) => m
    case OtherError(m) => m
    case BaseExceptionOnly(_, m) => m
  }

  /** A pandas DataFrame, seen only through what the backend reads off it: its column names,
      its number of rows and its renderings (`head(3).to_string(index=False)`, `info()`,
      `to_csv(index=False)`). */
  datatype Table = Table(columns: seq<string>, rowCount: nat, head: string, info: string, csv: string)

  /** `df.empty`: no rows or no columns. */
  predicate IsEmptyTable(t: Table) {
    t.rowCount == 0 || |t.columns| == 0
  }
}
