/**
 * Python values as they appear in SWIS records and in object attributes:
 * None, booleans, integers and strings, together with Python's notion of
 * truthiness, on which most of the library's checks are written.
 */
module PyValue {
  import Text
  import opened Wrappers

  /** A scalar Python value; `Null` is Python's None. */
  datatype Value = Null | Bool(b: bool) | Int(i: int) | Str(s: string)

  /** A property dictionary: SWIS column name to value. */
  type Props = map<string, Value>

  /** Python's `bool(v)`. */
  predicate Truthy(v: Value)
  {
    match v
    case Null => false
    case Bool(b) => b
    case Int(i) => i != 0
    case Str(s) => s != ""
  }

  /** Python's `v or None`: every falsy value becomes None. */
  function OrNull(v: Value): (r: Value)
    ensures Truthy(v) ==> r == v
    ensures !Truthy(v) ==> r == Null
    ensures Truthy(r) == Truthy(v)
  {
    if Truthy(v) then v else Null
  }

  /** Python's `v or ""`: every falsy value becomes the empty string. */
  function OrEmpty(v: Value): (r: Value)
    ensures Truthy(v) ==> r == v
    ensures !Truthy(v) ==> r == Str("")
    ensures Truthy(r) == Truthy(v)
  {
    if Truthy(v) then v else Str("")
  }

  /** Python's `a or b`. */
  function Or(a: Value, b: Value): (r: Value)
    ensures Truthy(a) ==> r == a
    ensures !Truthy(a) ==> r == b
  {
    if Truthy(a) then a else b
  }

  /** Python's `v == n` for an integer `n`: booleans compare as 0 and 1. */
  predicate EqualsInt(v: Value, n: int)
  {
    v == Int(n) || (v.Bool? && (if v.b then 1 else 0) == n)
  }

  /** Python's `m.get(k)`: None for an absent key. */
  function Get(m: Props, k: string): (r: Value)
    ensures k in m ==> r == m[k]
    ensures k !in m ==> r == Null
  {
    if k in m then m[k] else Null
  }

  /** Python's `m.get(k, d)`. */
  function GetOr(m: Props, k: string, d: Value): (r: Value)
    ensures k in m ==> r == m[k]
    ensures k !in m ==> r == d
  {
    if k in m then m[k] else d
  }

  /** Python's `bool(d)` for a dictionary. */
  predicate NonEmpty<K, V>(m: map<K, V>)
  {
    |m| != 0
  }

  /** Python's `a.update(b)`: entries of `b` win. */
  function Update(a: Props, b: Props): (r: Props)
    ensures r.Keys == a.Keys + b.Keys
    ensures forall k :: k in b ==> r[k] == b[k]
    ensures forall k :: k in a && k !in b ==> r[k] == a[k]
  {
    a + b
  }

  /** `{k: v for k, v in m.items() if k not in exclude}`. */
  function Without(m: Props, exclude: set<string>): (r: Props)
    ensures r.Keys == m.Keys - exclude
    ensures forall k :: k in r ==> r[k] == m[k]
  {
    map k | k in m && k !in exclude :: m[k]
  }

  /** Putting one excluded key back. */
  lemma WithoutStep(m: Props, exclude: set<string>, k: string)
    requires k in exclude && k in m
    ensures Without(m, exclude - {k}) == Without(m, exclude)[k := m[k]]
  {
    assert Without(m, exclude - {k}).Keys == Without(m, exclude)[k := m[k]].Keys;
  }

  /** `str(v)`. */
  function StrOf(v: Value): (r: string)
    ensures v.Str? ==> r == v.s
    ensures v.Int? ==> r == Text.IntText(v.i)
  {
    match v
    case Null => "None"
    case Bool(b) => if b then "True" else "False"
    case Int(i) => Text.IntText(i)
    case Str(s) => s
  }

  /** Two values agree after `or None` exactly when they are equal or both falsy. */
  lemma OrNullAgree(a: Value, b: Value)
    ensures OrNull(a) == OrNull(b) <==> (a == b || (!Truthy(a) && !Truthy(b)))
  {
  }

  /** A sequence position for Python's `xs[n]`, negative positions counting from the end. */
  function PyIndex(n: int, length: nat): (r: Option<nat>)
    ensures r.Some? <==> -(length as int) <= n < length
    ensures r.Some? ==> r.value < length && r.value as int == (if n < 0 then n + length else n)
  {
    if -(length as int) <= n < length then Some((if n < 0 then n + length else n) as nat) else None
  }
}
