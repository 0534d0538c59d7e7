/**
 * Decoded JSON values as Python's `json` module hands them to the report
 * generator (section 3 of RFC 8259: null, booleans, numbers, strings, arrays,
 * objects), with the Python operations the generator applies to them:
 * truthiness, `dict.get`, and `str()`.
 */
module JsonValue {
  import opened Wrappers
  import opened PyText

  /** An object keeps its members in document order, as a Python `dict` keeps
      insertion order. Numbers are integers (Python `int`). */
  datatype Json =
    | JNull
    | JBool(b: bool)
    | JInt(i: int)
    | JString(s: string)
    | JArray(elems: seq<Json>)
    | JObject(fields: seq<(string, Json)>)

  /** Python truthiness: `None`, `False`, `0`, `""`, `[]` and `{}` are false. */
  predicate Truthy(v: Json) {
    match v
    case JNull => false
    case JBool(b) => b
    case JInt(i) => i != 0
    case JString(s) => s != []
    case JArray(es) => es != []
    case JObject(fs) => fs != []
  }

  /** `k` is the position of the last member named `key`. */
  predicate LastEntry(fields: seq<(string, Json)>, key: string, k: int) {
    && 0 <= k < |fields|
    && fields[k].0 == key
    && forall m :: k < m < |fields| ==> fields[m].0 != key
  }

  predicate HasKey(fields: seq<(string, Json)>, key: string) {
    exists k :: 0 <= k < |fields| && fields[k].0 == key
  }

  /** Python's `d.get(key)` on a decoded object. When the JSON text repeats a
      name, the decoder keeps the last value, so the last member named `key`
      is the one found. */
  function Get(fields: seq<(string, Json)>, key: string): (r: Option<Json>)
    ensures r.None? <==> !HasKey(fields, key)
    ensures forall k :: LastEntry(fields, key, k) ==> r == Some(fields[k].1)
    ensures r.Some? ==> exists k :: LastEntry(fields, key, k)
  {
    if fields == [] then None
    else if fields[|fields| - 1].0 == key then
      assert LastEntry(fields, key, |fields| - 1);
      Some(fields[|fields| - 1].1)
    else
      DropOtherLast(fields, key);
      Get(fields[..|fields| - 1], key)
  }

  /** Dropping a last member with another name changes neither whether `key`
      is present nor where its last member is. */
  lemma DropOtherLast(fields: seq<(string, Json)>, key: string)
    requires fields != [] && fields[|fields| - 1].0 != key
    ensures HasKey(fields, key) <==> HasKey(fields[..|fields| - 1], key)
    ensures forall k :: LastEntry(fields[..|fields| - 1], key, k) ==> LastEntry(fields, key, k)
    ensures forall k :: LastEntry(fields, key, k) ==> k < |fields| - 1 && fields[k] == fields[..|fields| - 1][k]
  {
    var pre := fields[..|fields| - 1];
    assert forall k :: 0 <= k < |pre| ==> pre[k] == fields[k];
  }

  /** Python's `repr()` of a decoded JSON value. */
  function Repr(v: Json): (r: string)
    ensures v.JNull? ==> r == "None"
    ensures v.JBool? ==> r == if v.b then "True" else "False"
    ensures v.JInt? ==> ParseInt(r) == Some(v.i)
    ensures v.JString? ==> Unquote(r) == Some(v.s)
    ensures v.JArray? ==> |r| >= 2 && r[0] == '[' && r[|r| - 1] == ']'
    ensures v.JObject? ==> |r| >= 2 && r[0] == '{' && r[|r| - 1] == '}'
    decreases v, 1
  {
    match v
    case JNull => "None"
    case JBool(b) => if b then "True" else "False"
    case JInt(i) => IntToStringRoundTrip(i); IntToString(i)
    case JString(s) => QuoteStringRoundTrip(s); QuoteString(s)
    case JArray(es) => "[" + ReprElems(es) + "]"
    case JObject(fs) => "{" + ReprFields(fs) + "}"
  }

  /** The elements of a list, each by `repr`, separated by ", ". */
  function ReprElems(es: seq<Json>): string
    decreases es, 0
  {
    if es == [] then ""
    else if |es| == 1 then Repr(es[0])
    else Repr(es[0]) + ", " + ReprElems(es[1..])
  }

  /** The members of a dict, each as "repr(key): repr(value)", separated by ", ". */
  function ReprFields(fs: seq<(string, Json)>): string
    decreases fs, 0
  {
    if fs == [] then ""
    else
      var (name, value) := fs[0];
      assert value < fs[0];
      var member := QuoteString(name) + ": " + Repr(value);
      if |fs| == 1 then member else member + ", " + ReprFields(fs[1..])
  }

  /** Python's `str()` (and so `f"{v}"`) of a decoded JSON value: a string is
      itself, everything else is its `repr`. */
  function Str(v: Json): (r: string)
    ensures v.JString? ==> r == v.s
    ensures v.JNull? ==> r == "None"
    ensures v.JBool? ==> r == if v.b then "True" else "False"
    ensures v.JInt? ==> ParseInt(r) == Some(v.i)
    ensures v.JArray? ==> |r| >= 2 && r[0] == '[' && r[|r| - 1] == ']'
    ensures v.JObject? ==> |r| >= 2 && r[0] == '{' && r[|r| - 1] == '}'
  {
    match v
    case JString(s) => s
    case _ => Repr(v)
  }
}
