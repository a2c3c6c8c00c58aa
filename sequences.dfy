/**
 * Sequence operations behind the queries: `filter`, counting, and
 * `orderBy: { createdAt: "desc" }` as a stable insertion sort on an integer
 * key, proved to give a descending permutation of its input.
 */
module Sequences {

  predicate SortedDesc<T>(s: seq<T>, key: T -> int) {
    forall i, j :: 0 <= i < j < |s| ==> key(s[i]) >= key(s[j])
  }

  function Insert<T>(x: T, s: seq<T>, key: T -> int): (r: seq<T>)
    ensures multiset(r) == multiset(s) + multiset{x}
    ensures |r| == |s| + 1
  {
    if s == [] || key(x) >= key(s[0]) then [x] + s
    else assert s == [s[0]] + s[1..]; [s[0]] + Insert(x, s[1..], key)
  }

  lemma {:induction false} InsertSorted<T>(x: T, s: seq<T>, key: T -> int)
    requires SortedDesc(s, key)
    ensures SortedDesc(Insert(x, s, key), key)
    ensures Insert(x, s, key) != [] && (Insert(x, s, key)[0] == x || (s != [] && Insert(x, s, key)[0] == s[0]))
  {
    if s == [] || key(x) >= key(s[0]) {
      ConsSorted(x, s, key);
    } else {
      var tail := s[1..];
      assert SortedDesc(tail, key) && forall k :: 0 <= k < |tail| ==> key(tail[k]) <= key(s[0]) by {
        forall k | 0 <= k < |tail| ensures tail[k] == s[k + 1] { }
      }
      InsertSorted(x, tail, key);
      InsertBounded(x, tail, key, key(s[0]));
      ConsSorted(s[0], Insert(x, tail, key), key);
    }
  }

  /** Inserting an element no greater than a bound into elements no greater than it keeps them all below it. */
  lemma {:induction false} InsertBounded<T>(x: T, t: seq<T>, key: T -> int, bound: int)
    requires key(x) <= bound && forall k :: 0 <= k < |t| ==> key(t[k]) <= bound
    ensures forall k :: 0 <= k < |Insert(x, t, key)| ==> key(Insert(x, t, key)[k]) <= bound
  {
    if t != [] && key(x) < key(t[0]) {
      assert forall k :: 0 <= k < |t[1..]| ==> t[1..][k] == t[k + 1];
      InsertBounded(x, t[1..], key, bound);
    }
  }

  /** A sorted sequence stays sorted under a head no smaller than any of its elements. */
  lemma ConsSorted<T>(y: T, r: seq<T>, key: T -> int)
    requires SortedDesc(r, key) && forall k :: 0 <= k < |r| ==> key(r[k]) <= key(y)
    ensures SortedDesc([y] + r, key)
  {
    var c := [y] + r;
    forall i, j | 0 <= i < j < |c| ensures key(c[i]) >= key(c[j]) {
      assert c[j] == r[j - 1];
      if i > 0 {
        assert c[i] == r[i - 1];
      }
    }
  }

  /** The input reordered so that keys never increase; equal keys keep their order. */
  function SortDesc<T>(s: seq<T>, key: T -> int): (r: seq<T>)
    ensures multiset(r) == multiset(s)
    ensures |r| == |s|
  {
    if s == [] then [] else assert s == [s[0]] + s[1..]; Insert(s[0], SortDesc(s[1..], key), key)
  }

  lemma {:induction false} SortDescSorted<T>(s: seq<T>, key: T -> int)
    ensures SortedDesc(SortDesc(s, key), key)
  {
    if s != [] {
      SortDescSorted(s[1..], key);
      InsertSorted(s[0], SortDesc(s[1..], key), key);
    }
  }

  /** Sorting keeps exactly the elements of the input. */
  lemma SortDescMembers<T>(s: seq<T>, key: T -> int, x: T)
    ensures x in SortDesc(s, key) <==> x in s
  {
    assert x in SortDesc(s, key) <==> x in multiset(SortDesc(s, key));
    assert x in s <==> x in multiset(s);
  }

  /** Sorting keeps exactly the elements of the input, for all elements at once. */
  lemma SortDescElements<T(!new)>(s: seq<T>, key: T -> int)
    ensures forall x :: x in SortDesc(s, key) <==> x in s
  {
    forall x ensures x in SortDesc(s, key) <==> x in s {
      SortDescMembers(s, key, x);
    }
  }

  /** `s.filter(p)`: the elements that satisfy `p`, in their original order. */
  function Filter<T(!new)>(s: seq<T>, p: T -> bool): (r: seq<T>)
    ensures |r| <= |s|
    ensures forall x :: x in r <==> x in s && p(x)
    ensures forall i :: 0 <= i < |r| ==> p(r[i])
  {
    if s == [] then []
    else if p(s[0]) then [s[0]] + Filter(s[1..], p)
    else Filter(s[1..], p)
  }

  lemma {:induction false} FilterAll<T(!new)>(s: seq<T>, p: T -> bool)
    requires forall i :: 0 <= i < |s| ==> p(s[i])
    ensures Filter(s, p) == s
  {
    if s != [] {
      FilterAll(s[1..], p);
    }
  }

  /** Filtering commutes with sequence concatenation. */
  lemma {:induction false} FilterAppend<T(!new)>(a: seq<T>, b: seq<T>, p: T -> bool)
    ensures Filter(a + b, p) == Filter(a, p) + Filter(b, p)
  {
    if a == [] {
      assert a + b == b;
    } else {
      assert (a + b)[1..] == a[1..] + b;
      FilterAppend(a[1..], b, p);
    }
  }

  /** No two elements share a key. */
  ghost predicate UniqueBy<T, K>(s: seq<T>, key: T -> K) {
    forall i, j :: 0 <= i < j < |s| ==> key(s[i]) != key(s[j])
  }

  lemma UniqueByTail<T, K>(s: seq<T>, key: T -> K)
    requires s != [] && UniqueBy(s, key)
    ensures UniqueBy(s[1..], key)
    ensures forall x :: x in s[1..] ==> key(x) != key(s[0])
  {
    forall i, j | 0 <= i < j < |s[1..]| ensures key(s[1..][i]) != key(s[1..][j]) {
      assert s[1..][i] == s[i + 1] && s[1..][j] == s[j + 1];
    }
    forall x | x in s[1..] ensures key(x) != key(s[0]) {
      var m :| 0 <= m < |s[1..]| && s[1..][m] == x;
      assert s[m + 1] == x;
    }
  }

  /** Filtering keeps keys unique. */
  lemma {:induction false} FilterUnique<T(!new), K>(s: seq<T>, p: T -> bool, key: T -> K)
    requires UniqueBy(s, key)
    ensures UniqueBy(Filter(s, p), key)
  {
    if s != [] {
      UniqueByTail(s, key);
      FilterUnique(s[1..], p, key);
      if p(s[0]) {
        var rest := Filter(s[1..], p);
        ConsUnique(s[0], rest, key);
      }
    }
  }

  lemma ConsUnique<T, K>(x: T, rest: seq<T>, key: T -> K)
    requires UniqueBy(rest, key)
    requires forall y :: y in rest ==> key(y) != key(x)
    ensures UniqueBy([x] + rest, key)
  {
    var r := [x] + rest;
    forall i, j | 0 <= i < j < |r| ensures key(r[i]) != key(r[j]) {
      assert r[j] == rest[j - 1];
      if i > 0 {
        assert r[i] == rest[i - 1];
      }
    }
  }

  /** Filtering by two predicates that agree on every element gives the same result. */
  lemma {:induction false} FilterExt<T(!new)>(s: seq<T>, p: T -> bool, q: T -> bool)
    requires forall i :: 0 <= i < |s| ==> p(s[i]) == q(s[i])
    ensures Filter(s, p) == Filter(s, q)
  {
    if s != [] {
      FilterExt(s[1..], p, q);
    }
  }

  /** Filtering out everything leaves nothing. */
  lemma {:induction false} FilterNone<T(!new)>(s: seq<T>, p: T -> bool)
    requires forall i :: 0 <= i < |s| ==> !p(s[i])
    ensures Filter(s, p) == []
  {
    if s != [] {
      FilterNone(s[1..], p);
    }
  }

  /** Filtering a filtered sequence again by the same predicate changes nothing. */
  lemma FilterIdempotent<T(!new)>(s: seq<T>, p: T -> bool)
    ensures Filter(Filter(s, p), p) == Filter(s, p)
  {
    FilterAll(Filter(s, p), p);
  }

  function Min(a: int, b: int): int { if a <= b then a else b }
  function Max(a: int, b: int): int { if a <= b then b else a }
  function Abs(a: int): nat { if a < 0 then -a else a }

  /**
   * `skip`/`take` on an ordered result: skip `skip` elements, then take `take`
   * of those that follow; a negative `take` counts from the end instead, taking
   * the `-take` elements that precede the last `skip`.
   */
  function Window<T>(s: seq<T>, skip: nat, take: int): (r: seq<T>)
    ensures |r| <= Abs(take) && |r| <= |s|
    ensures take >= 0 && skip + take <= |s| ==> |r| == take
  {
    if take >= 0 then s[Min(skip, |s|)..Min(skip + take, |s|)]
    else s[Max(0, |s| - skip + take)..Max(0, |s| - skip)]
  }

  /** A window of a sequence is one of its infixes, so it keeps any order the sequence has. */
  lemma WindowSorted<T>(s: seq<T>, skip: nat, take: int, key: T -> int)
    requires SortedDesc(s, key)
    ensures SortedDesc(Window(s, skip, take), key)
    ensures forall x :: x in Window(s, skip, take) ==> x in s
  {
    var lo := if take >= 0 then Min(skip, |s|) else Max(0, |s| - skip + take);
    var r := Window(s, skip, take);
    assert forall k :: 0 <= k < |r| ==> r[k] == s[lo + k];
  }

  /** Consecutive forward windows of the same size tile the sequence. */
  lemma WindowsTile<T>(s: seq<T>, skip: nat, size: nat)
    ensures Window(s, skip, size) + Window(s, skip + size, size) == Window(s, skip, 2 * size)
  {
  }

  /** With a positive size, element `k` sits on window `k / size`, at position `k % size`. */
  lemma WindowHolds<T>(s: seq<T>, size: nat, k: nat)
    requires size > 0 && k < |s|
    ensures k % size < |Window(s, (k / size) * size, size)|
    ensures Window(s, (k / size) * size, size)[k % size] == s[k]
  {
    var skip, m := (k / size) * size, k % size;
    DivModParts(k, size);
    assert Window(s, skip, size) == s[skip..Min(skip + size, |s|)];
  }

  lemma DivModParts(k: nat, size: nat)
    requires size > 0
    ensures (k / size) * size + k % size == k && 0 <= k % size < size && 0 <= (k / size) * size <= k
  {
  }
}
