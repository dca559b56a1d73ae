/** Array.prototype.filter over JavaScript arrays, modelled on sequences. */
module JsArray {

  /** `s.filter(keep)`. */
  function Filter<T>(s: seq<T>, keep: T -> bool): (r: seq<T>)
    ensures |r| <= |s|
    decreases |s|
  {
    if s == [] then []
    else if keep(s[0]) then [s[0]] + Filter(s[1..], keep)
    else Filter(s[1..], keep)
  }

  /** a can be obtained from b by deleting elements. */
  predicate IsSubsequence<T(==)>(a: seq<T>, b: seq<T>)
    decreases |b|
  {
    a == [] || (b != [] && ((a[0] == b[0] && IsSubsequence(a[1..], b[1..])) || IsSubsequence(a, b[1..])))
  }

  /** A filter returns exactly the elements that pass, in their input order,
      each as often as it occurs in the input: every element returned passes,
      every passing element is returned, multiplicities are those of the
      input, and the result is a subsequence of the input. */
  lemma {:induction false} FilterExact<T>(s: seq<T>, keep: T -> bool)
    ensures var r := Filter(s, keep);
      && (forall x :: x in r ==> keep(x))
      && (forall x :: x in s && keep(x) ==> x in r)
      && (forall x :: multiset(r)[x] == (if keep(x) then multiset(s)[x] else 0))
      && IsSubsequence(r, s)
    decreases |s|
  {
    if s != [] {
      var rest := Filter(s[1..], keep);
      FilterExact(s[1..], keep);
      assert s == [s[0]] + s[1..];
      assert multiset(s) == multiset{s[0]} + multiset(s[1..]);
      if keep(s[0]) {
        var r := [s[0]] + rest;
        assert r[1..] == rest;
        assert multiset(r) == multiset{s[0]} + multiset(rest);
      } else {
        assert rest != [] ==> IsSubsequence(rest, s);
      }
    }
  }

  /** Filtering twice by the same test is filtering once. */
  lemma {:induction false} FilterIdempotent<T>(s: seq<T>, keep: T -> bool)
    ensures Filter(Filter(s, keep), keep) == Filter(s, keep)
    decreases |s|
  {
    if s != [] {
      FilterIdempotent(s[1..], keep);
      var rest := Filter(s[1..], keep);
      if keep(s[0]) {
        assert ([s[0]] + rest)[1..] == rest;
      }
    }
  }

  /** A filter works element by element: filtering a + b is filtering a,
      then b, and concatenating. */
  lemma {:induction false} FilterConcat<T>(a: seq<T>, b: seq<T>, keep: T -> bool)
    ensures Filter(a + b, keep) == Filter(a, keep) + Filter(b, keep)
    decreases |a|
  {
    if a == [] {
      assert a + b == b;
    } else {
      assert (a + b)[1..] == a[1..] + b;
      assert (a + b)[0] == a[0];
      FilterConcat(a[1..], b, keep);
    }
  }

  /** Indexing into a concatenation. */
  lemma ConcatAt<T>(x: seq<T>, y: seq<T>, i: int)
    requires 0 <= i < |x| + |y|
    ensures (x + y)[i] == if i < |x| then x[i] else y[i - |x|]
  {
  }
}
