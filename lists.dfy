/** The array rewrites the screens apply to their local lists:
    `xs.map(f)`, `xs.map(e => key(e) === k ? x : e)` and
    `xs.filter(e => key(e) !== k)`.
 */
module Lists {

  /** `s.map(f)`. */
  function Map<A, B>(s: seq<A>, f: A -> B): (r: seq<B>)
    ensures |r| == |s|
    ensures forall i :: 0 <= i < |s| ==> r[i] == f(s[i])
  {
    if s == [] then [] else [f(s[0])] + Map(s[1..], f)
  }

  /** `s.map(e => key(e) === k ? x : e)`: every entry whose key is `k` becomes
      `x`; every other entry stays where it was, unchanged. */
  function ReplaceWhere<T, K(==)>(s: seq<T>, key: T -> K, k: K, x: T): (r: seq<T>)
    ensures |r| == |s|
    ensures forall i :: 0 <= i < |s| && key(s[i]) == k ==> r[i] == x
    ensures forall i :: 0 <= i < |s| && key(s[i]) != k ==> r[i] == s[i]
  {
    if s == [] then []
    else [if key(s[0]) == k then x else s[0]] + ReplaceWhere(s[1..], key, k, x)
  }

  /** `s.filter(e => key(e) !== k)`: exactly the entries whose key is not `k`
      survive, and the result is never longer. */
  function FilterOut<T, K(==)>(s: seq<T>, key: T -> K, k: K): (r: seq<T>)
    ensures |r| <= |s|
    ensures forall i :: 0 <= i < |r| ==> r[i] in s && key(r[i]) != k
    ensures forall i :: 0 <= i < |s| && key(s[i]) != k ==> s[i] in r
  {
    if s == [] then []
    else if key(s[0]) == k then FilterOut(s[1..], key, k)
    else [s[0]] + FilterOut(s[1..], key, k)
  }

  /** The number of entries of `s` whose key is `k`. */
  function Matches<T, K(==)>(s: seq<T>, key: T -> K, k: K): nat {
    if s == [] then 0 else (if key(s[0]) == k then 1 else 0) + Matches(s[1..], key, k)
  }

  /** Filtering works entry by entry, so it distributes over concatenation:
      the survivors keep their relative order. */
  lemma {:induction false} FilterOutConcat<T, K>(a: seq<T>, b: seq<T>, key: T -> K, k: K)
    ensures FilterOut(a + b, key, k) == FilterOut(a, key, k) + FilterOut(b, key, k)
  {
    if a == [] {
      assert a + b == b;
    } else {
      assert (a + b)[0] == a[0];
      assert (a + b)[1..] == a[1..] + b;
      FilterOutConcat(a[1..], b, key, k);
    }
  }

  /** Filtering removes exactly the matching entries: one per match. */
  lemma {:induction false} FilterOutLength<T, K>(s: seq<T>, key: T -> K, k: K)
    ensures |FilterOut(s, key, k)| == |s| - Matches(s, key, k)
  {
    if s != [] {
      FilterOutLength(s[1..], key, k);
    }
  }

  /** When no entry matches, filtering is the identity. */
  lemma {:induction false} FilterOutNoMatch<T, K>(s: seq<T>, key: T -> K, k: K)
    requires forall i :: 0 <= i < |s| ==> key(s[i]) != k
    ensures FilterOut(s, key, k) == s
  {
    if s != [] {
      FilterOutNoMatch(s[1..], key, k);
      assert [s[0]] + s[1..] == s;
    }
  }

  /** Removing the same key twice removes nothing more. */
  lemma {:induction false} FilterOutIdempotent<T, K>(s: seq<T>, key: T -> K, k: K)
    ensures FilterOut(FilterOut(s, key, k), key, k) == FilterOut(s, key, k)
  {
    var r := FilterOut(s, key, k);
    FilterOutNoMatch(r, key, k);
  }
}
