/** Order-related sequence operations: the record store's `sortDescriptors`
    and `fetchLimit`, and Swift's in-place `sort` and `prefix`. */
module Seqs {

  /** No element occurs twice. */
  predicate Distinct<T(==)>(s: seq<T>) {
    forall i, j :: 0 <= i < j < |s| ==> s[i] != s[j]
  }

  /** `s` is in non-decreasing order of `key`. */
  ghost predicate SortedBy<T>(s: seq<T>, key: T -> int) {
    forall i, j :: 0 <= i < j < |s| ==> key(s[i]) <= key(s[j])
  }

  /** Inserts `x` into the sorted `s`, before the first element whose key is not smaller. */
  function Insert<T>(x: T, s: seq<T>, key: T -> int): (r: seq<T>)
    requires SortedBy(s, key)
    ensures |r| == |s| + 1
    ensures multiset(r) == multiset(s) + multiset{x}
    ensures SortedBy(r, key)
  {
    if |s| == 0 then [x]
    else if key(x) <= key(s[0]) then [x] + s
    else
      assert s == [s[0]] + s[1..];
      var t := Insert(x, s[1..], key);
      HeadBelowAll(s[0], x, s[1..], t, key);
      [s[0]] + t
  }

  lemma HeadBelowAll<T>(h: T, x: T, tail: seq<T>, t: seq<T>, key: T -> int)
    requires SortedBy([h] + tail, key)
    requires key(h) <= key(x)
    requires multiset(t) == multiset(tail) + multiset{x}
    ensures forall k :: 0 <= k < |t| ==> key(h) <= key(t[k])
  {
    forall k | 0 <= k < |t| ensures key(h) <= key(t[k]) {
      assert t[k] in multiset(t);
      if t[k] != x {
        assert t[k] in multiset(tail);
        var m :| 0 <= m < |tail| && tail[m] == t[k];
        assert ([h] + tail)[0] == h && ([h] + tail)[m + 1] == t[k];
      }
    }
  }

  /** A sorted permutation of `s` (the order of equal keys is this model's choice:
      the source's sort does not promise one). */
  function SortBy<T>(s: seq<T>, key: T -> int): (r: seq<T>)
    ensures |r| == |s|
    ensures multiset(r) == multiset(s)
    ensures SortedBy(r, key)
  {
    if |s| == 0 then []
    else
      assert s == [s[0]] + s[1..];
      Insert(s[0], SortBy(s[1..], key), key)
  }

  /** Sorting a list that is already in order gives it back unchanged. */
  lemma {:induction false} SortBySortedIsIdentity<T>(s: seq<T>, key: T -> int)
    requires SortedBy(s, key)
    ensures SortBy(s, key) == s
  {
    if |s| > 0 {
      assert SortedBy(s[1..], key) by {
        forall i, j | 0 <= i < j < |s[1..]| ensures key(s[1..][i]) <= key(s[1..][j]) {
          assert s[1..][i] == s[i + 1] && s[1..][j] == s[j + 1];
        }
      }
      SortBySortedIsIdentity(s[1..], key);
      assert s == [s[0]] + s[1..];
    }
  }

  /** `Array(s.prefix(n))`: the first `n` elements, or all of them when there are fewer. */
  function Take<T>(s: seq<T>, n: nat): (r: seq<T>)
    ensures |r| == if n < |s| then n else |s|
    ensures r == s[..|r|]
  {
    if n < |s| then s[..n] else s
  }

  /** The positions of the elements that satisfy `p`. */
  ghost function Positions<T>(xs: seq<T>, p: T -> bool): set<int> {
    set i | 0 <= i < |xs| && p(xs[i])
  }

  /** The positions in `xs` are those in `xs` without its last element, and the last position
      when that element satisfies `p`. */
  lemma PositionsStep<T>(xs: seq<T>, p: T -> bool)
    requires |xs| > 0
    ensures |Positions(xs, p)| == |Positions(xs[..|xs| - 1], p)| + (if p(xs[|xs| - 1]) then 1 else 0)
  {
    var k := |xs| - 1;
    var all := Positions(xs, p);
    var before := Positions(xs[..k], p);
    assert k !in before;
    forall i
      ensures i in all <==> i in before || (i == k && p(xs[k]))
    {
      if 0 <= i < k {
        assert xs[..k][i] == xs[i];
      }
    }
    if p(xs[k]) {
      assert all == before + {k};
    } else {
      assert all == before;
    }
  }

  /** A fetch request's `fetchLimit`: zero means no limit. */
  function FetchLimit<T>(s: seq<T>, limit: nat): (r: seq<T>)
    ensures limit > 0 ==> |r| == if limit < |s| then limit else |s|
    ensures limit == 0 ==> r == s
    ensures |r| <= |s| && r == s[..|r|]
  {
    if limit == 0 then s else Take(s, limit)
  }

  /** A sorted fetch with a limit: the `limit` elements with the smallest keys (all of them
      when there are fewer, or when the limit is 0), in key order. */
  function SortedFetch<T>(s: seq<T>, key: T -> int, limit: nat): (r: seq<T>)
    ensures |r| == if limit == 0 || limit >= |s| then |s| else limit
    ensures multiset(r) <= multiset(s)
    ensures SortedBy(r, key)
    ensures forall x, y :: x in r && y in multiset(s) - multiset(r) ==> key(x) <= key(y)
  {
    var sorted := SortBy(s, key);
    TakeSortedKeepsLeast(sorted, limit, key);
    if limit == 0 then sorted else Take(sorted, limit)
  }

  /** Taking a prefix of a sorted sequence keeps the smallest keys: every element
      left out has a key no smaller than any element kept. */
  lemma {:induction false} TakeSortedKeepsLeast<T>(s: seq<T>, n: nat, key: T -> int)
    requires SortedBy(s, key)
    ensures SortedBy(Take(s, n), key)
    ensures multiset(Take(s, n)) <= multiset(s)
    ensures forall x, y :: x in Take(s, n) && y in multiset(s) - multiset(Take(s, n)) ==> key(x) <= key(y)
  {
    var r := Take(s, n);
    SplitMultiset(s, |r|);
    PrefixKeepsLeast(s, |r|, key);
  }

  lemma PrefixKeepsLeast<T>(s: seq<T>, k: nat, key: T -> int)
    requires SortedBy(s, key) && k <= |s|
    ensures forall x, y :: x in s[..k] && y in multiset(s[k..]) ==> key(x) <= key(y)
  {
    var rest := s[k..];
    forall x, y | x in s[..k] && y in multiset(rest) ensures key(x) <= key(y) {
      var i :| 0 <= i < k && s[..k][i] == x;
      var j :| 0 <= j < |rest| && rest[j] == y;
      assert s[i] == x && s[k + j] == y;
    }
  }

  /** A sequence's multiset is its prefix's plus its suffix's. */
  lemma SplitMultiset<T>(s: seq<T>, k: nat)
    requires k <= |s|
    ensures multiset(s) == multiset(s[..k]) + multiset(s[k..])
  {
    assert s == s[..k] + s[k..];
  }

  /** Concatenation regroups freely. */
  lemma AppendAssoc<T>(a: seq<T>, b: seq<T>, c: seq<T>)
    ensures (a + b) + c == a + (b + c)
  {
  }

  /** A prefix's multiset is the shorter prefix's plus its last element. */
  lemma PrefixSnocMultiset<T>(s: seq<T>, n: nat)
    requires 0 < n <= |s|
    ensures multiset(s[..n]) == multiset(s[..n - 1]) + multiset{s[n - 1]}
  {
    assert s[..n] == s[..n - 1] + [s[n - 1]];
  }
}
