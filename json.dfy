/** Decoded JSON values and the few Python operations the services apply to them:
    `dict.get`, truthiness, the `in` operator and `str()` formatting. */
module Json {

  /** A value as `json.loads` returns it (objects are Python dicts; a number
      with a fraction or an exponent is a float). */
  datatype Json =
    | JNull
    | JBool(b: bool)
    | JInt(i: int)
    | JFloat(r: real)
    | JStr(s: string)
    | JArr(items: seq<Json>)
    | JObj(fields: map<string, Json>)

  /** What `json.loads` makes of a text: a `JSONDecodeError`, or a value. The
      parser itself is not modelled; the services receive its verdict. */
  datatype Parse = Malformed | Parsed(value: Json)

  /** `d.get(k, default)`. */
  function GetOr(d: map<string, Json>, k: string, default: Json): (r: Json)
    ensures k in d ==> r == d[k]
    ensures k !in d ==> r == default
  {
    if k in d then d[k] else default
  }

  /** `d.get(k)`: a missing key reads as `None`. */
  function Get(d: map<string, Json>, k: string): (r: Json)
    ensures k in d ==> r == d[k]
    ensures k !in d ==> r == JNull
  {
    GetOr(d, k, JNull)
  }

  /** Python truthiness of a decoded value. */
  predicate Truthy(v: Json)
  {
    match v
    case JNull => false
    case JBool(b) => b
    case JInt(i) => i != 0
    case JFloat(r) => r != 0.0
    case JStr(s) => s != ""
    case JArr(xs) => xs != []
    case JObj(m) => m != map[]
  }

  /** `p` occurs in `s` starting at index `i`. */
  ghost predicate OccursAt(p: string, s: string, i: int)
  {
    0 <= i && i + |p| <= |s| && s[i..i + |p|] == p
  }

  /** Python's `p in s` on two strings: case-sensitive substring containment. */
  function Contains(s: string, p: string): bool
    decreases |s|
  {
    if |p| > |s| then false
    else if s[..|p|] == p then true
    else Contains(s[1..], p)
  }

  /** `Contains` finds exactly the occurrences of `p` in `s`. */
  lemma {:induction false} ContainsIffOccurs(s: string, p: string)
    ensures Contains(s, p) <==> exists i :: OccursAt(p, s, i)
    decreases |s|
  {
    if |p| > |s| {
      forall i | OccursAt(p, s, i) ensures false { }
    } else if s[..|p|] == p {
      assert OccursAt(p, s, 0);
    } else {
      ContainsIffOccurs(s[1..], p);
      if Contains(s[1..], p) {
        var i :| OccursAt(p, s[1..], i);
        assert s[1..][i..i + |p|] == s[i + 1..i + 1 + |p|];
        assert OccursAt(p, s, i + 1);
      } else {
        forall i | OccursAt(p, s, i) ensures false {
          if i > 0 {
            assert s[1..][i - 1..i - 1 + |p|] == s[i..i + |p|];
            assert OccursAt(p, s[1..], i - 1);
          }
        }
      }
    }
  }

  /** The result of a Python expression that can raise `TypeError`. */
  datatype Checked<T> = Value(v: T) | TypeError

  /** Python's `needle in container` for a string needle: substring test on a
      string, element test on a list, key test on a dict, `TypeError` otherwise. */
  function In(needle: string, container: Json): (r: Checked<bool>)
    ensures r.TypeError? <==> (container.JNull? || container.JBool? || container.JInt? || container.JFloat?)
    ensures container.JStr? ==> r == Value(Contains(container.s, needle))
  {
    match container
    case JStr(s) => Value(Contains(s, needle))
    case JArr(xs) => Value(JStr(needle) in xs)
    case JObj(m) => Value(needle in m)
    case _ => TypeError
  }

  /** Decimal digits of a natural number, as `str()` writes them. */
  function Digits(n: nat): (r: string)
    ensures |r| > 0
    decreases n
  {
    var d := ['0', '1', '2', '3', '4', '5', '6', '7', '8', '9'][n % 10];
    if n < 10 then [d] else Digits(n / 10) + [d]
  }

  /** `str(v)` as an f-string renders it: exactly for strings, None, booleans
      and integers; floats, lists and dicts as a fixed placeholder per kind
      (their Python repr is not modelled). */
  function Display(v: Json): string
  {
    match v
    case JStr(s) => s
    case JNull => "None"
    case JBool(b) => if b then "True" else "False"
    case JInt(i) => if i < 0 then "-" + Digits(-i) else Digits(i)
    case JFloat(_) => "<float>"
    case JArr(_) => "<list>"
    case JObj(_) => "<dict>"
  }
}
