/**
 * Order-free reductions over sequences.
 *
 * The source reduces lists of directory entries with rayon's parallel
 * iterators (`into_par_iter().map(..).sum()` and `.collect()`).  Here a
 * reduction is a left-to-right fold, and the lemmas below show that a sum
 * does not depend on the order of its operands, and that a flat-map
 * applied to a permutation yields a permutation.  Together they justify
 * modelling the parallel reductions sequentially.
 */
module Folds {

  /** The sum of `f(x)` over every element `x` of `s`. */
  function SumOf<T>(f: T -> nat, s: seq<T>): nat
  {
    if s == [] then 0 else f(s[0]) + SumOf(f, s[1..])
  }

  /** The concatenation of `f(x)` over every element `x` of `s`, in order. */
  function FlatMap<A, B>(f: A -> seq<B>, s: seq<A>): seq<B>
  {
    if s == [] then [] else f(s[0]) + FlatMap(f, s[1..])
  }

  lemma {:induction false} SumOfAppend<T>(f: T -> nat, a: seq<T>, b: seq<T>)
    ensures SumOf(f, a + b) == SumOf(f, a) + SumOf(f, b)
  {
    if a == [] {
      assert a + b == b;
    } else {
      assert (a + b)[0] == a[0];
      assert (a + b)[1..] == a[1..] + b;
      SumOfAppend(f, a[1..], b);
    }
  }

  lemma {:induction false} FlatMapAppend<A, B>(f: A -> seq<B>, a: seq<A>, b: seq<A>)
    ensures FlatMap(f, a + b) == FlatMap(f, a) + FlatMap(f, b)
  {
    if a == [] {
      assert a + b == b;
    } else {
      assert (a + b)[0] == a[0];
      assert (a + b)[1..] == a[1..] + b;
      FlatMapAppend(f, a[1..], b);
    }
  }

  /**
   * Any permutation `t` of a non-empty `s` can be split around one
   * occurrence of `s[0]`, leaving a permutation of `s[1..]`.
   */
  lemma SplitAtHead<T>(s: seq<T>, t: seq<T>) returns (k: nat)
    requires multiset(s) == multiset(t) && s != []
    ensures k < |t| && t[k] == s[0]
    ensures t == t[..k] + [s[0]] + t[k + 1..]
    ensures multiset(s[1..]) == multiset(t[..k] + t[k + 1..])
  {
    assert s[0] in multiset(t);
    k :| 0 <= k < |t| && t[k] == s[0];
    assert t == t[..k] + [s[0]] + t[k + 1..];
    assert s == [s[0]] + s[1..];
    calc {
      multiset(s[1..]);
      multiset(s) - multiset{s[0]};
      multiset(t) - multiset{s[0]};
      multiset(t[..k]) + multiset(t[k + 1..]);
      multiset(t[..k] + t[k + 1..]);
    }
  }

  /** A sum does not depend on the order of its operands. */
  lemma {:induction false} SumOfPermutation<T>(f: T -> nat, s: seq<T>, t: seq<T>)
    requires multiset(s) == multiset(t)
    ensures SumOf(f, s) == SumOf(f, t)
    decreases |s|
  {
    if s == [] {
      assert |t| == |multiset(t)| == 0;
    } else {
      var k := SplitAtHead(s, t);
      var rest := t[..k] + t[k + 1..];
      SumOfPermutation(f, s[1..], rest);
      SumOfAppend(f, t[..k], [s[0]] + t[k + 1..]);
      SumOfAppend(f, t[..k], t[k + 1..]);
      assert ([s[0]] + t[k + 1..])[1..] == t[k + 1..];
      assert t[..k] + [s[0]] + t[k + 1..] == t[..k] + ([s[0]] + t[k + 1..]);
    }
  }

  /** Flat-mapping around one element splits off that element's part. */
  lemma FlatMapAround<A, B>(f: A -> seq<B>, t: seq<A>, k: nat)
    requires k < |t|
    ensures multiset(FlatMap(f, t)) == multiset(f(t[k])) + multiset(FlatMap(f, t[..k] + t[k + 1..]))
  {
    assert t == t[..k] + ([t[k]] + t[k + 1..]);
    FlatMapAppend(f, t[..k], [t[k]] + t[k + 1..]);
    FlatMapAppend(f, t[..k], t[k + 1..]);
    assert ([t[k]] + t[k + 1..])[1..] == t[k + 1..];
    assert FlatMap(f, [t[k]] + t[k + 1..]) == f(t[k]) + FlatMap(f, t[k + 1..]);
  }

  /** A flat-map of a permutation is a permutation of the flat-map. */
  lemma {:induction false} FlatMapPermutation<A, B>(f: A -> seq<B>, s: seq<A>, t: seq<A>)
    requires multiset(s) == multiset(t)
    ensures multiset(FlatMap(f, s)) == multiset(FlatMap(f, t))
    decreases |s|
  {
    if s == [] {
      assert |t| == |multiset(t)| == 0;
    } else {
      var k := SplitAtHead(s, t);
      FlatMapPermutation(f, s[1..], t[..k] + t[k + 1..]);
      FlatMapAround(f, t, k);
    }
  }
}
