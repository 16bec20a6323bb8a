/** The "order by a key, then keep the first n" step shared by the public queue
    panel (`.order("queue_number").limit(10)`) and the financial report
    (`.sort((a, b) => b.revenue - a.revenue).slice(0, 10)`).

    The sort is stable, as `Array.prototype.sort` is: elements with equal keys keep
    their input order. */
module Sorting {

  predicate SortedBy<T>(s: seq<T>, key: T -> int)
  {
    forall i, j :: 0 <= i < j < |s| ==> key(s[i]) <= key(s[j])
  }

  /** Places `x` before the first element whose key is not smaller than its own. */
  function InsertBy<T>(x: T, t: seq<T>, key: T -> int): (r: seq<T>)
    ensures |r| == |t| + 1
  {
    if t == [] || key(x) <= key(t[0]) then [x] + t
    else [t[0]] + InsertBy(x, t[1..], key)
  }

  function SortBy<T>(s: seq<T>, key: T -> int): (r: seq<T>)
    ensures |r| == |s|
  {
    if s == [] then [] else InsertBy(s[0], SortBy(s[1..], key), key)
  }

  /** The first `n` elements of `s` in ascending `key` order. */
  function Lowest<T>(s: seq<T>, key: T -> int, n: nat): (r: seq<T>)
    ensures |r| == if |s| < n then |s| else n
  {
    var sorted := SortBy(s, key);
    if |sorted| < n then sorted else sorted[..n]
  }

  lemma {:induction false} InsertByPermutes<T>(x: T, t: seq<T>, key: T -> int)
    ensures multiset(InsertBy(x, t, key)) == multiset(t) + multiset{x}
  {
    if t != [] && key(x) > key(t[0]) {
      InsertByPermutes(x, t[1..], key);
      assert t == [t[0]] + t[1..];
    }
  }

  lemma {:induction false} InsertBySorted<T>(x: T, t: seq<T>, key: T -> int)
    requires SortedBy(t, key)
    ensures SortedBy(InsertBy(x, t, key), key)
  {
    if t != [] && key(x) > key(t[0]) {
      var rest := t[1..];
      InsertBySorted(x, rest, key);
      InsertByPermutes(x, rest, key);
      var tail := InsertBy(x, rest, key);
      forall k | 0 <= k < |tail|
        ensures key(t[0]) <= key(tail[k])
      {
        assert tail[k] in multiset(tail);
        if tail[k] != x {
          assert tail[k] in multiset(rest);
          var m :| 0 <= m < |rest| && rest[m] == tail[k];
          assert rest[m] == t[m + 1];
        }
      }
    }
  }

  lemma {:induction false} SortByPermutes<T>(s: seq<T>, key: T -> int)
    ensures multiset(SortBy(s, key)) == multiset(s)
  {
    if s != [] {
      SortByPermutes(s[1..], key);
      InsertByPermutes(s[0], SortBy(s[1..], key), key);
      assert s == [s[0]] + s[1..];
    }
  }

  lemma {:induction false} SortBySorted<T>(s: seq<T>, key: T -> int)
    ensures SortedBy(SortBy(s, key), key)
  {
    if s != [] {
      SortBySorted(s[1..], key);
      InsertBySorted(s[0], SortBy(s[1..], key), key);
    }
  }

  /** What `Lowest` keeps: at most `n` elements of `s`, in ascending key order,
      and every element it leaves out has a key no smaller than any it keeps. */
  lemma LowestIsLowest<T>(s: seq<T>, key: T -> int, n: nat)
    ensures SortedBy(Lowest(s, key, n), key)
    ensures multiset(Lowest(s, key, n)) <= multiset(s)
    ensures forall y :: y in Lowest(s, key, n) ==> y in s
    ensures forall x, y :: x in s && x !in Lowest(s, key, n) && y in Lowest(s, key, n) ==> key(y) <= key(x)
    ensures |s| <= n ==> forall x :: x in s ==> x in Lowest(s, key, n)
  {
    LowestIsPrefix(s, key, n);
    LowestLeavesOutLarger(s, key, n);
    if |s| <= n {
      LowestKeepsAll(s, key, n);
    }
  }

  /** `Lowest` is a sorted sub-multiset of its input. */
  lemma LowestIsPrefix<T>(s: seq<T>, key: T -> int, n: nat)
    ensures SortedBy(Lowest(s, key, n), key)
    ensures multiset(Lowest(s, key, n)) <= multiset(s)
    ensures forall y :: y in Lowest(s, key, n) ==> y in s
  {
    SortBySorted(s, key);
    LowestSubMultiset(s, key, n);
    var r := Lowest(s, key, n);
    forall y | y in r
      ensures y in s
    {
      assert y in multiset(r);
    }
  }

  lemma LowestSubMultiset<T>(s: seq<T>, key: T -> int, n: nat)
    ensures multiset(Lowest(s, key, n)) <= multiset(s)
  {
    var sorted := SortBy(s, key);
    SortByPermutes(s, key);
    var r := Lowest(s, key, n);
    assert sorted == r + sorted[|r|..];
    assert multiset(sorted) == multiset(r) + multiset(sorted[|r|..]);
  }

  /** Every element `Lowest` leaves out has a key no smaller than any it keeps. */
  lemma LowestLeavesOutLarger<T>(s: seq<T>, key: T -> int, n: nat)
    ensures forall x, y :: x in s && x !in Lowest(s, key, n) && y in Lowest(s, key, n) ==> key(y) <= key(x)
  {
    var sorted := SortBy(s, key);
    SortBySorted(s, key);
    SortByPermutes(s, key);
    var r := Lowest(s, key, n);
    assert sorted == r + sorted[|r|..];
    forall x, y | x in s && x !in r && y in r
      ensures key(y) <= key(x)
    {
      assert x in multiset(sorted);
      SplitOrder(sorted, |r|, key, x, y);
    }
  }

  /** In a sorted sequence, what lies past a cut has keys no smaller than what
      lies before it. */
  lemma SplitOrder<T>(sorted: seq<T>, k: nat, key: T -> int, x: T, y: T)
    requires SortedBy(sorted, key) && k <= |sorted|
    requires x in sorted && x !in sorted[..k] && y in sorted[..k]
    ensures key(y) <= key(x)
  {
    var i :| 0 <= i < k && sorted[..k][i] == y;
    var j :| 0 <= j < |sorted| && sorted[j] == x;
  }

  /** With no more than `n` elements, `Lowest` drops nothing. */
  lemma LowestKeepsAll<T>(s: seq<T>, key: T -> int, n: nat)
    requires |s| <= n
    ensures forall x :: x in s ==> x in Lowest(s, key, n)
  {
    SortByPermutes(s, key);
    forall x | x in s
      ensures x in Lowest(s, key, n)
    {
      assert x in multiset(s);
      assert x in multiset(SortBy(s, key));
    }
  }
}
