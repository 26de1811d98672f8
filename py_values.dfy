/**
 * Python values as the agents see them: a tagged union of the built-in types they
 * test for with `isinstance`, insertion-ordered dictionaries, truthiness and slicing.
 */
module PyValues {
  import opened Wrappers
  import Text

  /** One key/value slot of an insertion-ordered dictionary. */
  datatype Pair<K, V> = Pair(key: K, val: V)

  /** A Python `float`, kept as what comparisons and truthiness need; no arithmetic. */
  datatype FloatVal = Finite(r: real) | Infinity(negative: bool) | NaN

  /**
   * A Python value. `Dict` is a `dict` with string keys in insertion order, `List` a
   * `list`, `PyNone` is `None`. Any other object (a set, a bytearray, an instance of a
   * user class, a user subclass of a built-in type among them) is `Other`: an identity,
   * the names of its class and of the classes it derives from (its own first), whether it
   * can be hashed and whether `bool` holds for it. Its contents are not kept.
   */
  datatype Value =
    | Str(s: string)
    | Int(i: int)
    | Float(f: FloatVal)
    | Bool(b: bool)
    | Dict(entries: seq<Pair<string, Value>>)
    | List(items: seq<Value>)
    | PyNone
    | Other(id: nat, classes: seq<string>, hashable: bool, truthy: bool)

  /** A `dict` whose keys are strings, such as a keyword-argument dictionary. */
  type PyDict = seq<Pair<string, Value>>

  // ---------------------------------------------------------------- ordered dictionaries

  function Keys<K, V>(d: seq<Pair<K, V>>): (ks: seq<K>)
    ensures |ks| == |d| && forall i :: 0 <= i < |d| ==> ks[i] == d[i].key
  {
    if d == [] then [] else [d[0].key] + Keys(d[1..])
  }

  /** The invariant of every Python `dict`: no key twice. */
  predicate DistinctKeys<K(==), V>(d: seq<Pair<K, V>>) {
    forall i, j :: 0 <= i < j < |d| ==> d[i].key != d[j].key
  }

  /** `d.get(k)`: the value stored under `k`, or `None`. */
  function Get<K(==), V>(d: seq<Pair<K, V>>, k: K): Option<V> {
    if d == [] then None
    else if d[0].key == k then Some(d[0].val)
    else Get(d[1..], k)
  }

  /** `get` finds a value exactly for the keys of `d`, and what it finds is stored there. */
  lemma {:induction false} GetSpec<K, V>(d: seq<Pair<K, V>>, k: K)
    ensures Get(d, k).None? <==> k !in Keys(d)
    ensures Get(d, k).Some? ==> Pair(k, Get(d, k).value) in d
  {
    if d != [] && d[0].key != k {
      GetSpec(d[1..], k);
    }
  }

  /** In a dictionary without repeated keys, `Get` returns the one slot holding the key. */
  lemma GetAt<K, V>(d: seq<Pair<K, V>>, i: nat)
    requires DistinctKeys(d) && i < |d|
    ensures Get(d, d[i].key) == Some(d[i].val)
  {
    if i > 0 {
      assert d[0].key != d[i].key;
      GetAt(d[1..], i - 1);
    }
  }

  /** `d[k] = v`: an existing key keeps its place, a new key goes last. */
  function Put<K(==), V>(d: seq<Pair<K, V>>, k: K, v: V): seq<Pair<K, V>> {
    if d == [] then [Pair(k, v)]
    else if d[0].key == k then [Pair(k, v)] + d[1..]
    else [d[0]] + Put(d[1..], k, v)
  }

  /** After `d[k] = v`, `k` maps to `v` and every other key to what it mapped to before. */
  lemma {:induction false} PutGet<K, V>(d: seq<Pair<K, V>>, k: K, v: V, k': K)
    ensures Get(Put(d, k, v), k') == if k' == k then Some(v) else Get(d, k')
  {
    if d != [] && d[0].key != k {
      PutGet(d[1..], k, v, k');
    }
  }

  /** `d[k] = v` keeps the key order; a new key is appended. */
  lemma {:induction false} PutKeys<K, V>(d: seq<Pair<K, V>>, k: K, v: V)
    ensures Keys(Put(d, k, v)) == if k in Keys(d) then Keys(d) else Keys(d) + [k]
  {
    if d != [] && d[0].key != k {
      PutKeys(d[1..], k, v);
      assert Keys(Put(d, k, v)) == [d[0].key] + Keys(Put(d[1..], k, v));
      assert Keys(d) == [d[0].key] + Keys(d[1..]);
    } else if d != [] {
      assert Keys(Put(d, k, v)) == [k] + Keys(d[1..]);
    }
  }

  /** `d[k] = v` keeps a dictionary's keys distinct. */
  lemma PutDistinct<K, V>(d: seq<Pair<K, V>>, k: K, v: V)
    requires DistinctKeys(d)
    ensures DistinctKeys(Put(d, k, v))
  {
    PutKeys(d, k, v);
    var r := Put(d, k, v);
    var ks := Keys(r);
    forall i, j | 0 <= i < j < |r| ensures r[i].key != r[j].key {
      assert ks[i] == r[i].key && ks[j] == r[j].key;
      assert Keys(d)[i] == d[i].key;
      if j < |d| {
        assert Keys(d)[j] == d[j].key;
      }
    }
  }

  /** `del d[k]` (when present): every slot holding `k` goes, the rest keep their order. */
  function Remove<K(==), V>(d: seq<Pair<K, V>>, k: K): (r: seq<Pair<K, V>>)
    ensures |r| <= |d|
  {
    if d == [] then []
    else if d[0].key == k then Remove(d[1..], k)
    else [d[0]] + Remove(d[1..], k)
  }

  /** After `del d[k]`, `k` is gone and every other key maps to what it mapped to before. */
  lemma {:induction false} RemoveGet<K, V>(d: seq<Pair<K, V>>, k: K, k': K)
    ensures Get(Remove(d, k), k') == if k' == k then None else Get(d, k')
  {
    if d != [] {
      RemoveGet(d[1..], k, k');
    }
  }

  /** Removing keeps the remaining slots in order, so a dictionary stays one. */
  lemma {:induction false} RemoveDistinct<K, V>(d: seq<Pair<K, V>>, k: K)
    requires DistinctKeys(d)
    ensures DistinctKeys(Remove(d, k))
    ensures forall p :: p in Remove(d, k) ==> p in d
  {
    if d != [] {
      RemoveDistinct(d[1..], k);
      var rest := Remove(d[1..], k);
      if d[0].key != k {
        forall p | p in rest ensures p.key != d[0].key {
          assert p in d[1..];
        }
      }
    }
  }

  // ---------------------------------------------------------------- value semantics

  /** Python's `bool(v)`: zero, empty and `None` are false; other objects say for themselves. */
  predicate Truthy(v: Value) {
    match v
    case Str(s) => |s| > 0
    case Int(i) => i != 0
    case Float(f) => f != Finite(0.0)
    case Bool(b) => b
    case Dict(es) => |es| > 0
    case List(xs) => |xs| > 0
    case PyNone => false
    case Other(_, _, _, truthy) => truthy
  }

  /** The text an f-string shows for a string, integer, boolean or `None`; other values
      are shown as a placeholder. */
  function Display(v: Value): string {
    match v
    case Str(s) => s
    case Int(i) => if i < 0 then "-" + Text.NatToString(-i) else Text.NatToString(i)
    case Bool(b) => if b then "True" else "False"
    case PyNone => "None"
    case _ => "<object>"
  }

  // ---------------------------------------------------------------- slicing

  /** How Python reads a slice bound against a length `n`: negatives count from the end,
      and the result is clamped to `0..n`. */
  function SliceBound(i: int, n: nat): (r: nat)
    ensures r <= n
  {
    if i < 0 then (if i + n < 0 then 0 else i + n)
    else if i > n then n
    else i
  }

  /** `s[a:b]` for any integers `a` and `b`. */
  function Slice<T>(s: seq<T>, a: int, b: int): (r: seq<T>)
    ensures 0 <= a <= b <= |s| ==> r == s[a..b]
    ensures |r| <= |s|
  {
    var lo := SliceBound(a, |s|);
    var hi := SliceBound(b, |s|);
    if lo < hi then s[lo..hi] else []
  }

  /** `s[:k]`: for `k >= 0` the first `k` elements (or all); for negative `k` all but the last `-k`. */
  lemma SlicePrefix<T>(s: seq<T>, k: int)
    ensures 0 <= k ==> Slice(s, 0, k) == s[..if k < |s| then k else |s|]
    ensures k < 0 ==> Slice(s, 0, k) == s[..if -k < |s| then |s| + k else 0]
  {
  }
}
