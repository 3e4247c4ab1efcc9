/**
 * The values `JSON.parse` hands the loaders, and the JavaScript operations
 * the loaders apply to them: property access (`e.text`), element access
 * (`list[i]`), `typeof x === 'string'`, `Array.isArray` and truthiness.
 * Numbers are integers here; fractional numbers are not modelled.
 */
module Json {
  import opened Wrappers
  import Text

  datatype Json =
    | JNull
    | JBool(b: bool)
    | JNum(n: int)
    | JStr(s: string)
    | JArr(items: seq<Json>)
    | JObj(fields: map<string, Json>)

  /** `j.key`: a present property of an object, `None` for `undefined`. */
  function Prop(j: Json, key: string): (r: Option<Json>)
    ensures r.Some? <==> j.JObj? && key in j.fields
    ensures r.Some? ==> r.value == j.fields[key]
  {
    if j.JObj? && key in j.fields then Some(j.fields[key]) else None
  }

  /**
   * `j[i]` for a non-negative index: an element of an array, the property
   * named by the decimal index of an object, a one-character string of a
   * string; `undefined` otherwise.
   */
  function Elem(j: Json, i: nat): (r: Option<Json>)
    ensures j.JArr? ==> (r.Some? <==> i < |j.items|)
    ensures j.JArr? && i < |j.items| ==> r == Some(j.items[i])
    ensures j.JNull? || j.JBool? || j.JNum? ==> r.None?
  {
    match j
    case JArr(items) => if i < |items| then Some(items[i]) else None
    case JObj(fields) => if Text.NatToString(i) in fields then Some(fields[Text.NatToString(i)]) else None
    case JStr(s) => if i < |s| then Some(JStr([s[i]])) else None
    case _ => None
  }

  /** `typeof v === 'string'` for a possibly missing value, giving the string. */
  function AsString(v: Option<Json>): (r: Option<string>)
    ensures r.Some? <==> v.Some? && v.value.JStr?
    ensures r.Some? ==> v.value == JStr(r.value)
  {
    if v.Some? && v.value.JStr? then Some(v.value.s) else None
  }

  /** `typeof v === 'number'`, giving the number. */
  function AsNumber(v: Option<Json>): (r: Option<int>)
    ensures r.Some? <==> v.Some? && v.value.JNum?
    ensures r.Some? ==> v.value == JNum(r.value)
  {
    if v.Some? && v.value.JNum? then Some(v.value.n) else None
  }

  /** `Boolean(v)`: JavaScript truthiness of a possibly missing value. */
  predicate Truthy(v: Option<Json>) {
    match v
    case None => false
    case Some(JNull) => false
    case Some(JBool(b)) => b
    case Some(JNum(n)) => n != 0
    case Some(JStr(s)) => s != []
    case Some(_) => true
  }

  /** `x && typeof x === 'object'`: a non-null object or array. */
  predicate IsObjectLike(j: Json) {
    j.JObj? || j.JArr?
  }

  /** `Array.isArray(v)` on a possibly missing value, giving the items. */
  function AsArray(v: Option<Json>): (r: Option<seq<Json>>)
    ensures r.Some? <==> v.Some? && v.value.JArr?
    ensures r.Some? ==> v.value == JArr(r.value)
  {
    if v.Some? && v.value.JArr? then Some(v.value.items) else None
  }

  /** `arr.filter((u) => typeof u === 'string')`. */
  function Strings(items: seq<Json>): (r: seq<string>)
    ensures |r| <= |items|
    ensures forall k :: 0 <= k < |r| ==> JStr(r[k]) in items
  {
    if items == [] then []
    else if items[0].JStr? then [items[0].s] + Strings(items[1..])
    else Strings(items[1..])
  }

  /** A string survives the filter exactly when it is a string element of the array. */
  lemma {:induction false} StringsMembers(items: seq<Json>)
    ensures forall s :: s in Strings(items) <==> JStr(s) in items
  {
    if items != [] {
      StringsMembers(items[1..]);
      assert items == [items[0]] + items[1..];
    }
  }

  /** Filtering a joined array filters each part in turn. */
  lemma {:induction false} StringsAppend(a: seq<Json>, b: seq<Json>)
    ensures Strings(a + b) == Strings(a) + Strings(b)
  {
    if a != [] {
      assert (a + b)[1..] == a[1..] + b;
      StringsAppend(a[1..], b);
    } else {
      assert a + b == b;
    }
  }

  /** Strings written out with `JSON.stringify` come back from the filter unchanged. */
  lemma {:induction false} StringsOfStrings(ss: seq<string>)
    ensures Strings(seq(|ss|, k requires 0 <= k < |ss| => JStr(ss[k]))) == ss
  {
    var js := seq(|ss|, k requires 0 <= k < |ss| => JStr(ss[k]));
    if ss != [] {
      assert js[1..] == seq(|ss[1..]|, k requires 0 <= k < |ss[1..]| => JStr(ss[1..][k]));
      StringsOfStrings(ss[1..]);
    }
  }
}
