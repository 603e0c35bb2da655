/**
 * An already-decoded JSON value, as `response.json()` hands it to the client:
 * objects become dicts, arrays lists, numbers int or float.
 */
module Json {

  datatype Json =
    | JNull
    | JBool(b: bool)
    | JInt(i: int)
    | JFloat(r: real)          // finite floats only; NaN and infinities are not modelled
    | JStr(s: string)
    | JArr(items: seq<Json>)
    | JObj(fields: map<string, Json>)

  /** `d.get(key, default)` on a dict. */
  function Get(fields: map<string, Json>, key: string, default: Json): Json
  {
    if key in fields then fields[key] else default
  }

  /** Python's `v == n` for a JSON value and an int literal: ints and floats compare
      numerically, and a bool is the int 0 or 1; every other value is unequal. */
  predicate EqualsInt(v: Json, n: int): (b: bool)
    ensures v.JInt? ==> (b <==> v.i == n)
    ensures v.JBool? ==> (b <==> n == (if v.b then 1 else 0))
    ensures v.JNull? || v.JStr? || v.JArr? || v.JObj? ==> !b
  {
    match v
    case JInt(i) => i == n
    case JFloat(r) => r == n as real
    case JBool(b) => (if b then 1 else 0) == n
    case _ => false
  }

  /** Python's `needle in hay` on two strings: a substring test. */
  predicate IsSubstring(needle: string, hay: string): (b: bool)
    ensures b <==> exists i :: 0 <= i <= |hay| && needle <= hay[i..]
    decreases |hay|
  {
    if needle <= hay then assert hay[0..] == hay; true
    else if |hay| == 0 then false
    else
      assert (exists i :: 0 <= i <= |hay| && needle <= hay[i..])
          ==> exists j :: 0 <= j <= |hay[1..]| && needle <= hay[1..][j..] by {
        if i :| 0 <= i <= |hay| && needle <= hay[i..] {
          assert hay[i..] == hay[1..][i - 1..];
        }
      }
      assert forall j :: 0 <= j <= |hay[1..]| ==> hay[1..][j..] == hay[j + 1..];
      IsSubstring(needle, hay[1..])
  }
}
