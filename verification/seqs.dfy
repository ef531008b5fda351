/** Small sequence vocabulary: sums, filters and counts used by every component. */
module Seqs {

  function Min(a: int, b: int): int {
    if a <= b then a else b
  }

  function Max(a: int, b: int): int {
    if a >= b then a else b
  }

  function RMin(a: real, b: real): real {
    if a <= b then a else b
  }

  function RMax(a: real, b: real): real {
    if a >= b then a else b
  }

  function RAbs(x: real): real {
    if x < 0.0 then -x else x
  }

  /** `Math.round` for the non-negative values the sources round. */
  function Round(x: real): int {
    (x + 0.5).Floor
  }

  /** The first `k` elements, or all of them when there are fewer (`slice(0, k)`). */
  function Take<T>(xs: seq<T>, k: nat): seq<T> {
    if k <= |xs| then xs[..k] else xs
  }

  function Sum(xs: seq<int>): int {
    if |xs| == 0 then 0 else xs[0] + Sum(xs[1..])
  }

  function SumNat(xs: seq<nat>): nat {
    if |xs| == 0 then 0 else xs[0] + SumNat(xs[1..])
  }

  function SumReal(xs: seq<real>): real {
    if |xs| == 0 then 0.0 else xs[0] + SumReal(xs[1..])
  }

  /** `f` applied to every element of `xs` (`Array.prototype.map`). */
  function Map<A, B>(f: A -> B, xs: seq<A>): (r: seq<B>)
    ensures |r| == |xs|
    ensures forall k :: 0 <= k < |xs| ==> r[k] == f(xs[k])
  {
    seq(|xs|, k requires 0 <= k < |xs| => f(xs[k]))
  }

  /** The elements of `xs` that satisfy `p`, in their original order (`Array.prototype.filter`). */
  function Filter<T>(p: T -> bool, xs: seq<T>): seq<T> {
    if |xs| == 0 then [] else (if p(xs[0]) then [xs[0]] else []) + Filter(p, xs[1..])
  }

  /** How many elements of `xs` satisfy `p`. */
  function CountIf<T>(p: T -> bool, xs: seq<T>): nat {
    if |xs| == 0 then 0 else (if p(xs[0]) then 1 else 0) + CountIf(p, xs[1..])
  }

  /** Concatenation of a sequence of sequences (`Array.prototype.flat`). */
  function Flatten<T>(xss: seq<seq<T>>): seq<T> {
    if |xss| == 0 then [] else xss[0] + Flatten(xss[1..])
  }

  /** The distinct elements of `xs` (`new Set(xs)`). */
  function Distinct<T>(xs: seq<T>): set<T> {
    set x | x in xs
  }

  /** A sequence has at most as many distinct elements as elements, and at
      least one when it is not empty. */
  lemma {:induction false} DistinctBound<T>(xs: seq<T>)
    ensures |Distinct(xs)| <= |xs|
    ensures |xs| > 0 ==> |Distinct(xs)| > 0
  {
    if |xs| > 0 {
      DistinctBound(xs[1..]);
      assert Distinct(xs) == Distinct(xs[1..]) + {xs[0]};
    }
  }

  lemma {:induction false} FilterLength<T>(p: T -> bool, xs: seq<T>)
    ensures |Filter(p, xs)| == CountIf(p, xs) <= |xs|
  {
    if |xs| > 0 {
      FilterLength(p, xs[1..]);
    }
  }

  lemma {:induction false} FilterAppend<T>(p: T -> bool, xs: seq<T>, ys: seq<T>)
    ensures Filter(p, xs + ys) == Filter(p, xs) + Filter(p, ys)
  {
    if |xs| == 0 {
      assert xs + ys == ys;
    } else {
      var h := if p(xs[0]) then [xs[0]] else [];
      assert (xs + ys)[0] == xs[0];
      assert (xs + ys)[1..] == xs[1..] + ys;
      assert Filter(p, xs + ys) == h + Filter(p, xs[1..] + ys);
      FilterAppend(p, xs[1..], ys);
      assert Filter(p, xs) == h + Filter(p, xs[1..]);
    }
  }

  lemma {:induction false} CountIfAppend<T>(p: T -> bool, xs: seq<T>, ys: seq<T>)
    ensures CountIf(p, xs + ys) == CountIf(p, xs) + CountIf(p, ys)
  {
    FilterAppend(p, xs, ys);
    FilterLength(p, xs);
    FilterLength(p, ys);
    FilterLength(p, xs + ys);
  }

  lemma {:induction false} FilterMembers<T>(p: T -> bool, xs: seq<T>)
    ensures forall x :: x in Filter(p, xs) <==> x in xs && p(x)
  {
    if |xs| > 0 {
      FilterMembers(p, xs[1..]);
      assert xs == [xs[0]] + xs[1..];
    }
  }

  lemma {:induction false} FlattenAppend<T>(xss: seq<seq<T>>, yss: seq<seq<T>>)
    ensures Flatten(xss + yss) == Flatten(xss) + Flatten(yss)
  {
    if |xss| == 0 {
      assert xss + yss == yss;
    } else {
      assert (xss + yss)[1..] == xss[1..] + yss;
      FlattenAppend(xss[1..], yss);
    }
  }

  lemma {:induction false} SumNatAppend(xs: seq<nat>, ys: seq<nat>)
    ensures SumNat(xs + ys) == SumNat(xs) + SumNat(ys)
  {
    if |xs| == 0 {
      assert xs + ys == ys;
    } else {
      assert (xs + ys)[1..] == xs[1..] + ys;
      SumNatAppend(xs[1..], ys);
    }
  }

  lemma {:induction false} SumAppend(xs: seq<int>, ys: seq<int>)
    ensures Sum(xs + ys) == Sum(xs) + Sum(ys)
  {
    if |xs| == 0 {
      assert xs + ys == ys;
    } else {
      assert (xs + ys)[1..] == xs[1..] + ys;
      SumAppend(xs[1..], ys);
    }
  }

  lemma {:induction false} SumRealAppend(xs: seq<real>, ys: seq<real>)
    ensures SumReal(xs + ys) == SumReal(xs) + SumReal(ys)
  {
    if |xs| == 0 {
      assert xs + ys == ys;
    } else {
      assert (xs + ys)[1..] == xs[1..] + ys;
      SumRealAppend(xs[1..], ys);
    }
  }

  /** `a` is `b` with some elements left out, the others in their order. */
  ghost predicate Subseq<T>(a: seq<T>, b: seq<T>)
    decreases |b|
  {
    |a| == 0 || (|b| > 0 && ((a[0] == b[0] && Subseq(a[1..], b[1..])) || Subseq(a, b[1..])))
  }

  /** Keeping or dropping the next element extends a subsequence. */
  lemma SubseqCons<T>(a: seq<T>, b: seq<T>, x: T)
    requires Subseq(a, b)
    ensures Subseq(a, [x] + b) && Subseq([x] + a, [x] + b)
  {
    assert ([x] + b)[1..] == b;
    assert ([x] + a)[1..] == a;
  }

  /** What a filter keeps is a subsequence of its input. */
  lemma {:induction false} FilterSubseq<T>(p: T -> bool, xs: seq<T>)
    ensures Subseq(Filter(p, xs), xs)
  {
    if |xs| > 0 {
      FilterSubseq(p, xs[1..]);
      SubseqCons(Filter(p, xs[1..]), xs[1..], xs[0]);
      assert [xs[0]] + xs[1..] == xs;
      if p(xs[0]) {
        assert Filter(p, xs) == [xs[0]] + Filter(p, xs[1..]);
      } else {
        assert Filter(p, xs) == Filter(p, xs[1..]);
      }
    }
  }

  /** Nothing is kept when no element satisfies `p`. */
  lemma {:induction false} FilterNone<T>(p: T -> bool, xs: seq<T>)
    requires forall i :: 0 <= i < |xs| ==> !p(xs[i])
    ensures Filter(p, xs) == []
  {
    if |xs| > 0 {
      FilterNone(p, xs[1..]);
    }
  }

  /** Everything is kept when every element satisfies `p`. */
  lemma {:induction false} FilterAll<T>(p: T -> bool, xs: seq<T>)
    requires forall i :: 0 <= i < |xs| ==> p(xs[i])
    ensures Filter(p, xs) == xs
  {
    if |xs| > 0 {
      FilterAll(p, xs[1..]);
      assert xs == [xs[0]] + xs[1..];
    }
  }

  /** Counting by a weaker predicate never counts fewer elements. */
  lemma {:induction false} CountIfMono<T>(q: T -> bool, p: T -> bool, xs: seq<T>)
    requires forall i :: 0 <= i < |xs| && q(xs[i]) ==> p(xs[i])
    ensures CountIf(q, xs) <= CountIf(p, xs)
  {
    if |xs| > 0 {
      CountIfMono(q, p, xs[1..]);
    }
  }

  /** Nothing is counted exactly when no element satisfies `p`. */
  lemma {:induction false} CountIfZero<T>(p: T -> bool, xs: seq<T>)
    ensures CountIf(p, xs) == 0 <==> forall i :: 0 <= i < |xs| ==> !p(xs[i])
  {
    if |xs| > 0 {
      CountIfZero(p, xs[1..]);
      assert forall i :: 1 <= i < |xs| ==> xs[1..][i - 1] == xs[i];
    }
  }

  /** An element that satisfies `p` is counted. */
  lemma {:induction false} CountIfPositive<T>(p: T -> bool, xs: seq<T>, i: nat)
    requires i < |xs| && p(xs[i])
    ensures CountIf(p, xs) >= 1
  {
    if i > 0 {
      CountIfPositive(p, xs[1..], i - 1);
    }
  }
}
