// JSON values as JavaScript sees them: truthiness, object spread, and what a storage slot yields
// when it is read back.
module JsValues {
  import opened Text

  /** A JSON value; numbers are integers here. */
  datatype Json = JNull | JBool(b: bool) | JNum(n: int) | JStr(s: string) | JArr(items: seq<Json>) | JObj(fields: map<string, Json>)

  /** A plain object, by its own enumerable properties. */
  type Object = map<string, Json>

  /** JavaScript truthiness: `null`, `false`, `0` and `""` are falsy, everything else truthy. */
  predicate Truthy(v: Json) {
    match v
    case JNull => false
    case JBool(b) => b
    case JNum(n) => n != 0
    case JStr(s) => s != []
    case _ => true
  }

  /** `v && typeof v === 'object'`: an array or an object. */
  predicate IsObject(v: Json) {
    v.JArr? || v.JObj?
  }

  /**
   * `o[k]`; a missing key reads as `undefined`, which every test made of it here treats like
   * `null`.
   */
  function Field(o: Object, k: string): Json {
    if k in o then o[k] else JNull
  }

  /** Distinct indices have distinct decimal names. */
  lemma IndexNamesDistinct()
    ensures forall i: nat, j: nat :: NatToString(i) == NatToString(j) ==> i == j
  {
    forall i: nat, j: nat | NatToString(i) == NatToString(j) ensures i == j {
      NatToStringRoundTrip(i);
      NatToStringRoundTrip(j);
    }
  }

  /** The elements of `xs` under their decimal indices. */
  function Indexed(xs: seq<Json>): (r: Object)
    ensures forall i: nat :: i < |xs| ==> NatToString(i) in r && r[NatToString(i)] == xs[i]
    ensures forall k :: k in r ==> exists i: nat :: i < |xs| && k == NatToString(i)
  {
    if xs == [] then map[]
    else
      var n := |xs| - 1;
      IndexNamesDistinct();
      Indexed(xs[..n])[NatToString(n) := xs[n]]
  }

  /** Each character as a one-character string. */
  function Characters(s: string): (r: seq<Json>)
    ensures |r| == |s| && forall i :: 0 <= i < |s| ==> r[i] == JStr([s[i]])
  {
    if s == [] then [] else [JStr([s[0]])] + Characters(s[1..])
  }

  /**
   * The properties `{...v}` copies: an object's fields; an array's elements, or a string's
   * characters, under their decimal indices; nothing for `null`, booleans and numbers.
   */
  function OwnFields(v: Json): (r: Object)
    ensures v.JObj? ==> r == v.fields
    ensures v.JArr? ==> forall i: nat :: i < |v.items| ==> NatToString(i) in r && r[NatToString(i)] == v.items[i]
    ensures v.JStr? ==> forall i: nat :: i < |v.s| ==> NatToString(i) in r && r[NatToString(i)] == JStr([v.s[i]])
    ensures v.JNull? || v.JBool? || v.JNum? ==> r == map[]
  {
    match v
    case JObj(m) => m
    case JArr(xs) => Indexed(xs)
    case JStr(s) => Indexed(Characters(s))
    case _ => map[]
  }

  /**
   * A storage slot read back: nothing there (or an empty string, which every reader here skips
   * the same way), something that cannot be read or parsed, or the parsed value.
   */
  datatype Stored = Absent | Unreadable | Parsed(value: Json)

  /** What `JSON.stringify` of a plain object writes, read back with `JSON.parse`. */
  function Persisted(o: Object): Stored {
    Parsed(JObj(o))
  }
}
