/** `Array.prototype.sort` with a numeric comparator `(a, b) => key(a) - key(b)`.
    ECMAScript 2019 requires the sort to be stable, so it is modelled as a
    stable insertion sort; descending sorts pass a negated key. */
module StableSort {

  predicate SortedBy<T>(s: seq<T>, key: T -> int) {
    forall i, j :: 0 <= i < j < |s| ==> key(s[i]) <= key(s[j])
  }

  /** Insert `x` before the first element whose key is not smaller. */
  function Insert<T>(x: T, s: seq<T>, key: T -> int): (r: seq<T>)
    ensures multiset(r) == multiset(s) + multiset{x}
    ensures |r| == |s| + 1
  {
    if |s| == 0 || key(x) <= key(s[0]) then [x] + s
    else
      assert s == [s[0]] + s[1..];
      [s[0]] + Insert(x, s[1..], key)
  }

  lemma {:induction false} InsertSorted<T>(x: T, s: seq<T>, key: T -> int)
    requires SortedBy(s, key)
    ensures SortedBy(Insert(x, s, key), key)
  {
    if |s| > 0 && key(x) > key(s[0]) {
      var rest := Insert(x, s[1..], key);
      InsertSorted(x, s[1..], key);
      forall i | 0 <= i < |rest| ensures key(s[0]) <= key(rest[i]) {
        assert rest[i] in multiset(rest);
        assert rest[i] in multiset(s[1..]) || rest[i] == x;
        if rest[i] in multiset(s[1..]) {
          var j :| 0 <= j < |s[1..]| && s[1..][j] == rest[i];
          assert s[1..][j] == s[j + 1];
        }
      }
      assert Insert(x, s, key) == [s[0]] + rest;
    }
  }

  function Sort<T>(s: seq<T>, key: T -> int): (r: seq<T>)
    ensures multiset(r) == multiset(s)
    ensures |r| == |s|
    ensures SortedBy(r, key)
  {
    if |s| == 0 then []
    else
      assert s == [s[0]] + s[1..];
      var rest := Sort(s[1..], key);
      InsertSorted(s[0], rest, key);
      Insert(s[0], rest, key)
  }

  /** Elements whose key is `k`, in order. */
  function WithKey<T>(s: seq<T>, key: T -> int, k: int): (r: seq<T>)
    ensures |r| <= |s|
  {
    if |s| == 0 then []
    else (if key(s[0]) == k then [s[0]] else []) + WithKey(s[1..], key, k)
  }

  lemma {:induction false} InsertWithKey<T>(x: T, s: seq<T>, key: T -> int, k: int)
    ensures WithKey(Insert(x, s, key), key, k)
         == (if key(x) == k then [x] else []) + WithKey(s, key, k)
  {
    if |s| == 0 || key(x) <= key(s[0]) {
      assert ([x] + s)[1..] == s;
    } else {
      InsertWithKey(x, s[1..], key, k);
      var r := Insert(x, s, key);
      assert r[1..] == Insert(x, s[1..], key);
    }
  }

  /** Stability: elements with equal keys keep their input order. */
  lemma {:induction false} SortStable<T>(s: seq<T>, key: T -> int, k: int)
    ensures WithKey(Sort(s, key), key, k) == WithKey(s, key, k)
  {
    if |s| > 0 {
      SortStable(s[1..], key, k);
      InsertWithKey(s[0], Sort(s[1..], key), key, k);
    }
  }

  /** Index of the first element with the smallest key. */
  function ArgMin<T>(s: seq<T>, key: T -> int): (i: nat)
    requires |s| > 0
    ensures i < |s|
    ensures forall j :: 0 <= j < |s| ==> key(s[i]) <= key(s[j])
    ensures forall j :: 0 <= j < i ==> key(s[j]) > key(s[i])
  {
    if |s| == 1 then 0
    else
      var m := ArgMin(s[1..], key);
      assert forall j :: 1 <= j < |s| ==> s[j] == s[1..][j - 1];
      if key(s[0]) <= key(s[1..][m]) then 0 else m + 1
  }

  lemma {:induction false} WithKeyHead<T>(s: seq<T>, key: T -> int, i: nat)
    requires i < |s|
    requires forall j :: 0 <= j < i ==> key(s[j]) != key(s[i])
    ensures |WithKey(s, key, key(s[i]))| > 0 && WithKey(s, key, key(s[i]))[0] == s[i]
  {
    if i > 0 {
      assert forall j :: 0 <= j < i - 1 ==> s[1..][j] == s[j + 1];
      WithKeyHead(s[1..], key, i - 1);
    }
  }

  /** The head of the sorted sequence carries the smallest key. */
  lemma HeadKey<T>(s: seq<T>, key: T -> int)
    requires |s| > 0
    ensures key(Sort(s, key)[0]) == key(s[ArgMin(s, key)])
  {
    var r := Sort(s, key);
    var i := ArgMin(s, key);
    assert r[0] in multiset(s);
    assert r[0] in s;
    var j :| 0 <= j < |s| && s[j] == r[0];
    assert key(s[i]) <= key(s[j]);
    assert s[i] in multiset(r);
    assert s[i] in r;
    var m :| 0 <= m < |r| && r[m] == s[i];
    assert key(r[0]) <= key(r[m]);
  }

  /** The head of the sorted sequence is the first element, in input order,
      with the smallest key: what `sorted[0]` selects in the sources. */
  lemma SortHead<T>(s: seq<T>, key: T -> int)
    requires |s| > 0
    ensures Sort(s, key)[0] == s[ArgMin(s, key)]
  {
    var r := Sort(s, key);
    var i := ArgMin(s, key);
    HeadKey(s, key);
    SortStable(s, key, key(s[i]));
    WithKeyHead(s, key, i);
    WithKeyHead(r, key, 0);
  }

  /** An element no other position repeats occurs once in the multiset. */
  lemma CountOnce<T>(a: seq<T>, p: nat)
    requires p < |a| && forall q :: 0 <= q < |a| && q != p ==> a[q] != a[p]
    ensures multiset(a)[a[p]] == 1
  {
    assert a == a[..p] + [a[p]] + a[p + 1..];
    assert a[p] !in a[..p];
    assert a[p] !in a[p + 1..];
  }

  /** Two positions holding the same element count twice. */
  lemma CountTwice<T>(b: seq<T>, i: nat, j: nat)
    requires i < j < |b|
    ensures multiset(b)[b[i]] >= 1 + (if b[j] == b[i] then 1 else 0)
  {
    assert b == b[..j] + [b[j]] + b[j + 1..];
    assert b[..j][i] == b[i];
  }

  /** Rearranging a sequence whose elements have pairwise distinct keys
      keeps the keys pairwise distinct. */
  lemma {:induction false} DistinctPermutation<T, K>(a: seq<T>, b: seq<T>, f: T -> K)
    requires multiset(a) == multiset(b)
    requires forall i, j :: 0 <= i < j < |a| ==> f(a[i]) != f(a[j])
    ensures forall i, j :: 0 <= i < j < |b| ==> f(b[i]) != f(b[j])
  {
    forall i, j | 0 <= i < j < |b|
      ensures f(b[i]) != f(b[j])
    {
      assert b[i] in multiset(a) && b[j] in multiset(a);
      var p :| 0 <= p < |a| && a[p] == b[i];
      var q :| 0 <= q < |a| && a[q] == b[j];
      CountOnce(a, p);
      CountTwice(b, i, j);
      assert p != q;
    }
  }
}
