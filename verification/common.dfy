/** Small shared vocabulary: optional values, results, and sums over sequences. */
module Common {

  /** A value that may be absent (`undefined` / `null` in the application). */
  datatype Option<T> = None | Some(value: T)

  /** The outcome of an operation that can be rejected. */
  datatype Result<T, E> = Ok(value: T) | Err(error: E)

  /** Sum of `f` over the elements of `xs`, the shape of every `reduce((sum, x) => sum + f(x), 0)`. */
  function SumOf<T>(xs: seq<T>, f: T -> int): int
  {
    if xs == [] then 0 else f(xs[0]) + SumOf(xs[1..], f)
  }

  lemma {:induction false} SumOfAppend<T>(a: seq<T>, b: seq<T>, f: T -> int)
    ensures SumOf(a + b, f) == SumOf(a, f) + SumOf(b, f)
  {
    if a == [] {
      assert a + b == b;
    } else {
      assert (a + b)[1..] == a[1..] + b;
      SumOfAppend(a[1..], b, f);
    }
  }

  /** Taking one element out of a sequence takes its value out of the sum. */
  lemma SumOfRemove<T>(b: seq<T>, i: int, f: T -> int)
    requires 0 <= i < |b|
    ensures SumOf(b, f) == f(b[i]) + SumOf(b[..i] + b[i+1..], f)
  {
    var p, x, q := b[..i], b[i], b[i+1..];
    assert b == p + ([x] + q);
    SumOfAppend(p, [x] + q, f);
    assert ([x] + q)[1..] == q;
    assert SumOf([x] + q, f) == f(x) + SumOf(q, f);
    SumOfAppend(p, q, f);
  }

  /** Summing is insensitive to the order of the elements. */
  lemma {:induction false} SumOfPermutation<T>(a: seq<T>, b: seq<T>, f: T -> int)
    requires multiset(a) == multiset(b)
    ensures SumOf(a, f) == SumOf(b, f)
  {
    if a == [] {
      assert |b| == |multiset(b)| == 0;
    } else {
      var x := a[0];
      assert x in multiset(b);
      var i :| 0 <= i < |b| && b[i] == x;
      var rest := b[..i] + b[i+1..];
      MultisetRemove(b, i);
      assert a == [x] + a[1..];
      assert multiset(a[1..]) == multiset(a) - multiset{x};
      SumOfPermutation(a[1..], rest, f);
      SumOfRemove(b, i, f);
    }
  }

  lemma MultisetRemove<T>(b: seq<T>, i: int)
    requires 0 <= i < |b|
    ensures multiset(b[..i] + b[i+1..]) == multiset(b) - multiset{b[i]}
  {
    assert b == b[..i] + [b[i]] + b[i+1..];
  }

  /** `[x] + (u + v) == ([x] + u) + v`, kept apart so inductive steps over
      sequences stay small. */
  lemma PrependAssoc<T>(x: T, u: seq<T>, v: seq<T>)
    ensures [x] + (u + v) == ([x] + u) + v
  {
  }
}
