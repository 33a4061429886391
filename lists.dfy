/** The two list operations every query uses: keeping the rows that match a
    filter (a Prisma `where` or `Array.prototype.filter`) and stable ordering by
    an integer key (a Prisma `orderBy` or `Array.prototype.sort`). A descending
    order is the ascending order of the negated key. */
module Lists {
  import opened Values

  predicate Sorted<T>(s: seq<T>, key: T -> int)
  {
    forall i, j :: 0 <= i < j < |s| ==> key(s[i]) <= key(s[j])
  }

  /** The elements of `s` satisfying `p`, in their original order. */
  function Filter<T>(s: seq<T>, p: T -> bool): (r: seq<T>)
    ensures |r| <= |s|
    ensures forall i :: 0 <= i < |r| ==> p(r[i])
    ensures forall i :: 0 <= i < |r| ==> r[i] in s
    ensures forall i :: 0 <= i < |s| && p(s[i]) ==> s[i] in r
  {
    if |s| == 0 then []
    else if p(s[0]) then [s[0]] + Filter(s[1..], p)
    else Filter(s[1..], p)
  }

  lemma {:induction false} FilterAll<T>(s: seq<T>, p: T -> bool)
    requires forall i :: 0 <= i < |s| ==> p(s[i])
    ensures Filter(s, p) == s
  {
    if |s| > 0 {
      FilterAll(s[1..], p);
      assert s == [s[0]] + s[1..];
    }
  }

  /** Filtering one more element appends it exactly when it matches. */
  lemma {:induction false} FilterSnoc<T>(s: seq<T>, x: T, p: T -> bool)
    ensures Filter(s + [x], p) == Filter(s, p) + (if p(x) then [x] else [])
  {
    if |s| == 0 {
      assert s + [x] == [x];
      assert [x][1..] == [];
    } else {
      assert (s + [x])[1..] == s[1..] + [x];
      FilterSnoc(s[1..], x, p);
    }
  }

  lemma {:induction false} FilterSorted<T>(s: seq<T>, p: T -> bool, key: T -> int)
    requires Sorted(s, key)
    ensures Sorted(Filter(s, p), key)
  {
    if |s| > 0 {
      FilterSorted(s[1..], p, key);
      SortedTail(s, key);
      if p(s[0]) {
        var rest := Filter(s[1..], p);
        forall j | 0 <= j < |rest|
          ensures key(s[0]) <= key(rest[j])
        {
          assert rest[j] in s[1..];
        }
      }
    }
  }

  /** `x` placed before the first element whose key is at least its own. */
  function Insert<T>(x: T, s: seq<T>, key: T -> int): (r: seq<T>)
    ensures |r| == |s| + 1
    ensures multiset(r) == multiset(s) + multiset{x}
  {
    if |s| == 0 || key(x) <= key(s[0]) then [x] + s
    else
      assert s == [s[0]] + s[1..];
      [s[0]] + Insert(x, s[1..], key)
  }

  lemma SortedTail<T>(s: seq<T>, key: T -> int)
    requires |s| > 0 && Sorted(s, key)
    ensures Sorted(s[1..], key)
  {
    forall i, j | 0 <= i < j < |s| - 1
      ensures key(s[1..][i]) <= key(s[1..][j])
    {
      assert s[1..][i] == s[i + 1] && s[1..][j] == s[j + 1];
    }
  }

  lemma {:induction false} InsertSorted<T>(x: T, s: seq<T>, key: T -> int)
    requires Sorted(s, key)
    ensures Sorted(Insert(x, s, key), key)
  {
    if |s| > 0 && key(x) > key(s[0]) {
      SortedTail(s, key);
      InsertSorted(x, s[1..], key);
      var rest := Insert(x, s[1..], key);
      InsertAtLeast(x, s[1..], key, key(s[0]));
      var r := Insert(x, s, key);
      assert r == [s[0]] + rest;
      forall i, j | 0 <= i < j < |r|
        ensures key(r[i]) <= key(r[j])
      {
        if i > 0 {
          assert r[i] == rest[i - 1] && r[j] == rest[j - 1];
        }
      }
    }
  }

  /** Inserting keeps a lower bound every element meets. */
  lemma InsertAtLeast<T>(x: T, s: seq<T>, key: T -> int, lo: int)
    requires key(x) >= lo && forall i :: 0 <= i < |s| ==> key(s[i]) >= lo
    ensures forall j :: 0 <= j < |Insert(x, s, key)| ==> key(Insert(x, s, key)[j]) >= lo
  {
    var r := Insert(x, s, key);
    forall j | 0 <= j < |r|
      ensures key(r[j]) >= lo
    {
      assert r[j] in multiset(r);
      if r[j] != x {
        assert r[j] in multiset(s);
        var k :| 0 <= k < |s| && s[k] == r[j];
      }
    }
  }

  /** The stable ascending order of `s` by `key`. */
  function SortBy<T>(s: seq<T>, key: T -> int): (r: seq<T>)
    ensures |r| == |s|
    ensures multiset(r) == multiset(s)
    ensures Sorted(r, key)
  {
    if |s| == 0 then []
    else
      assert s == [s[0]] + s[1..];
      InsertSorted(s[0], SortBy(s[1..], key), key);
      Insert(s[0], SortBy(s[1..], key), key)
  }

  /** Sorting rows that are already in order changes nothing. */
  lemma {:induction false} SortBySorted<T>(s: seq<T>, key: T -> int)
    requires Sorted(s, key)
    ensures SortBy(s, key) == s
  {
    if |s| > 0 {
      SortedTail(s, key);
      SortBySorted(s[1..], key);
      assert s == [s[0]] + s[1..];
    }
  }

  /** The first `n` elements (`take: n`, `slice(0, n)`). */
  function Take<T>(s: seq<T>, n: nat): (r: seq<T>)
    ensures |r| == if n < |s| then n else |s|
    ensures r <= s
  {
    if n < |s| then s[..n] else s
  }

  /** A `findMany` cut by `take: n` returns as many rows as the limit or
      the matches allow, whichever is fewer, each at most as often as it
      matches. */
  lemma SelectTake<T>(s: seq<T>, p: T -> bool, key: T -> int, n: nat)
    ensures var matching := |Filter(s, p)|;
      |Take(Select(s, p, key), n)| == if n < matching then n else matching
    ensures multiset(Take(Select(s, p, key), n)) <= multiset(Filter(s, p))
  {
    var ordered := Select(s, p, key);
    assert |ordered| == |multiset(ordered)| == |multiset(Filter(s, p))| == |Filter(s, p)|;
    TakeSubMultiset(ordered, n);
  }

  /** A prefix one longer is the prefix and the next element. */
  lemma PrefixSnoc<T>(s: seq<T>, i: nat)
    requires i < |s|
    ensures s[..i + 1] == s[..i] + [s[i]]
  {
  }

  /** A prefix holds no element more often than the whole. */
  lemma TakeSubMultiset<T>(s: seq<T>, n: nat)
    ensures multiset(Take(s, n)) <= multiset(s)
  {
    var r := Take(s, n);
    assert s == r + s[|r|..];
  }

  /** The rows a `take: n` keeps of a `findMany` are in order, stored and
      selected. */
  lemma TakeOfSelect<T>(s: seq<T>, p: T -> bool, key: T -> int, n: nat)
    ensures Sorted(Take(Select(s, p, key), n), key)
    ensures forall i :: 0 <= i < |Take(Select(s, p, key), n)| ==>
      p(Take(Select(s, p, key), n)[i]) && Take(Select(s, p, key), n)[i] in s
  {
    var ordered := Select(s, p, key);
    var r := Take(ordered, n);
    assert forall i :: 0 <= i < |r| ==> r[i] == ordered[i];
  }

  /** An element of a sorted sequence that a prefix leaves out sorts no
      earlier than anything the prefix keeps. */
  lemma TakeLeavesLater<T>(s: seq<T>, n: nat, key: T -> int, x: T)
    requires Sorted(s, key) && x in s && x !in Take(s, n)
    ensures forall i :: 0 <= i < |Take(s, n)| ==> key(Take(s, n)[i]) <= key(x)
  {
    var r := Take(s, n);
    var k :| 0 <= k < |s| && s[k] == x;
    assert k >= |r|;
    forall i | 0 <= i < |r|
      ensures key(r[i]) <= key(x)
    {
      assert r[i] == s[i];
    }
  }

  /** The position of the first element satisfying `p` (`find`, `findFirst`,
      `findUnique`), or `None` when there is none. */
  function IndexOf<T>(s: seq<T>, p: T -> bool): (r: Option<nat>)
    ensures r.Some? ==> r.value < |s| && p(s[r.value])
    ensures r.Some? ==> forall j :: 0 <= j < r.value ==> !p(s[j])
    ensures r.None? <==> forall j :: 0 <= j < |s| ==> !p(s[j])
  {
    if |s| == 0 then None
    else if p(s[0]) then Some(0)
    else
      var r := IndexOf(s[1..], p);
      if r.Some? then
        assert forall j :: 1 <= j <= r.value ==> s[j] == s[1..][j - 1];
        Some(r.value + 1)
      else
        assert forall j :: 1 <= j < |s| ==> s[j] == s[1..][j - 1];
        None
  }

  /** `s.reduce((sum, x) => sum + f(x), 0)`. */
  function SumBy<T>(s: seq<T>, f: T -> real): real
  {
    if |s| == 0 then 0.0 else SumBy(s[..|s| - 1], f) + f(s[|s| - 1])
  }

  function SumIntBy<T>(s: seq<T>, f: T -> int): int
  {
    if |s| == 0 then 0 else SumIntBy(s[..|s| - 1], f) + f(s[|s| - 1])
  }

  /** The mean of `f` over `s`, or 0 for no elements. */
  function MeanBy<T>(s: seq<T>, f: T -> real): real
  {
    if |s| > 0 then SumBy(s, f) / |s| as real else 0.0
  }

  lemma {:induction false} SumByBounds<T>(s: seq<T>, f: T -> real, lo: real, hi: real)
    requires forall i :: 0 <= i < |s| ==> lo <= f(s[i]) <= hi
    ensures lo * |s| as real <= SumBy(s, f) <= hi * |s| as real
  {
    if |s| > 0 {
      SumByBounds(s[..|s| - 1], f, lo, hi);
    }
  }

  /** A mean lies within the bounds of the averaged values. */
  lemma MeanByBounds<T>(s: seq<T>, f: T -> real, lo: real, hi: real)
    requires |s| > 0
    requires forall i :: 0 <= i < |s| ==> lo <= f(s[i]) <= hi
    ensures lo <= MeanBy(s, f) <= hi
  {
    SumByBounds(s, f, lo, hi);
    var n := |s| as real;
    var q := SumBy(s, f) / n;
    assert q * n == SumBy(s, f);
  }

  /** Removing one element takes exactly its value out of the sum. */
  lemma {:induction false} SumByRemove<T>(s: seq<T>, f: T -> real, k: nat)
    requires k < |s|
    ensures SumBy(s, f) == SumBy(s[..k] + s[k + 1..], f) + f(s[k])
    decreases |s|
  {
    var n := |s| - 1;
    if k < n {
      var init := s[..n];
      SumByRemove(init, f, k);
      var rest := s[..k] + s[k + 1..];
      assert rest[..|rest| - 1] == init[..k] + init[k + 1..];
      assert rest[|rest| - 1] == s[n];
    } else {
      assert s[..k] + s[k + 1..] == s[..n];
    }
  }

  /** A sum does not depend on the order of the summed elements. */
  lemma {:induction false} SumByPermutation<T>(s: seq<T>, t: seq<T>, f: T -> real)
    requires multiset(s) == multiset(t)
    ensures SumBy(s, f) == SumBy(t, f)
    decreases |s|
  {
    if |s| == 0 {
      assert |t| == |multiset(t)| == 0;
    } else {
      var n := |s| - 1;
      var x := s[n];
      assert x in multiset(t);
      var k :| 0 <= k < |t| && t[k] == x;
      MultisetRemove(s, n);
      MultisetRemove(t, k);
      assert s[..n] + s[n + 1..] == s[..n];
      SumByPermutation(s[..n], t[..k] + t[k + 1..], f);
      SumByRemove(t, f, k);
    }
  }

  /** The filter keeps every copy of a matching element and no copy of any
      other. */
  lemma {:induction false} FilterCount<T>(s: seq<T>, p: T -> bool)
    ensures forall x :: multiset(Filter(s, p))[x] == if p(x) then multiset(s)[x] else 0
  {
    if |s| > 0 {
      FilterCount(s[1..], p);
      assert s == [s[0]] + s[1..];
    }
  }

  /** Two sequences without repeats that hold the same elements are
      permutations of each other. */
  lemma SameMembersNoRepeats<T>(s: seq<T>, t: seq<T>)
    requires NoRepeats(s) && NoRepeats(t)
    requires forall x :: x in s <==> x in t
    ensures multiset(s) == multiset(t)
  {
    forall x
      ensures multiset(s)[x] == multiset(t)[x]
    {
      AtMostOnce(s, x);
      AtMostOnce(t, x);
      assert x in s <==> x in multiset(s);
      assert x in t <==> x in multiset(t);
    }
  }

  /** What the filter keeps, stated on elements rather than positions. */
  lemma FilterMembers<T>(s: seq<T>, p: T -> bool)
    ensures forall x :: x in Filter(s, p) ==> x in s && p(x)
  {
    var r := Filter(s, p);
    forall x | x in r
      ensures x in s && p(x)
    {
      var i :| 0 <= i < |r| && r[i] == x;
    }
  }

  /** A reordering holds the same elements. */
  lemma SameMembers<T>(s: seq<T>, t: seq<T>)
    requires multiset(s) == multiset(t)
    ensures forall x :: x in s <==> x in t
  {
    forall x
      ensures x in s <==> x in t
    {
      assert x in s <==> x in multiset(s);
      assert x in t <==> x in multiset(t);
    }
  }

  /** Taking out the element at `k` takes one copy of it out of the multiset. */
  lemma MultisetRemove<T>(t: seq<T>, k: nat)
    requires k < |t|
    ensures multiset(t[..k] + t[k + 1..]) == multiset(t) - multiset{t[k]}
  {
    assert t == t[..k] + [t[k]] + t[k + 1..];
  }

  /** An integer sum is the real sum of the same values. */
  lemma {:induction false} SumIntByAsReal<T>(s: seq<T>, f: T -> int, g: T -> real)
    requires forall x :: g(x) == f(x) as real
    ensures SumIntBy(s, f) as real == SumBy(s, g)
    decreases |s|
  {
    if |s| > 0 {
      SumIntByAsReal(s[..|s| - 1], f, g);
    }
  }

  predicate NoRepeats<T(==)>(s: seq<T>)
  {
    forall i, j :: 0 <= i < j < |s| ==> s[i] != s[j]
  }

  lemma {:induction false} AtMostOnce<T>(s: seq<T>, x: T)
    requires NoRepeats(s)
    ensures multiset(s)[x] <= 1
  {
    if |s| > 0 {
      var n := |s| - 1;
      assert s == s[..n] + [s[n]];
      AtMostOnce(s[..n], x);
      if s[n] == x {
        assert x !in s[..n];
      }
    }
  }

  /** A sequence holding each element at most once has no repeats. */
  lemma CountsNoRepeats<T>(t: seq<T>)
    requires forall x :: multiset(t)[x] <= 1
    ensures NoRepeats(t)
  {
    forall i, j | 0 <= i < j < |t|
      ensures t[i] != t[j]
    {
      assert t == t[..j] + t[j..];
      assert multiset(t) == multiset(t[..j]) + multiset(t[j..]);
      assert t[i] in multiset(t[..j]) && t[j] in multiset(t[j..]);
      assert multiset(t)[t[i]] <= 1;
    }
  }

  /** A sequence without repeated elements keeps that property under any
      permutation. */
  lemma PermutationNoRepeats<T>(s: seq<T>, t: seq<T>)
    requires multiset(s) == multiset(t)
    requires NoRepeats(s)
    ensures NoRepeats(t)
  {
    forall i, j | 0 <= i < j < |t|
      ensures t[i] != t[j]
    {
      if t[i] == t[j] {
        var x := t[i];
        assert t == t[..j] + t[j..];
        assert x in multiset(t[..j]) && x in multiset(t[j..]);
        assert multiset(t)[x] >= 2;
        AtMostOnce(s, x);
        assert false;
      }
    }
  }

  /** Keys that are distinct stay distinct under any permutation. */
  lemma PermutationDistinctKeys<T, K>(s: seq<T>, t: seq<T>, key: T -> K)
    requires multiset(s) == multiset(t)
    requires forall i, j :: 0 <= i < j < |s| ==> key(s[i]) != key(s[j])
    ensures forall i, j :: 0 <= i < j < |t| ==> key(t[i]) != key(t[j])
  {
    assert NoRepeats(s);
    PermutationNoRepeats(s, t);
    forall i, j | 0 <= i < j < |t|
      ensures key(t[i]) != key(t[j])
    {
      assert t[i] in multiset(s) && t[j] in multiset(s);
      var a :| 0 <= a < |s| && s[a] == t[i];
      var b :| 0 <= b < |s| && s[b] == t[j];
      assert a != b;
    }
  }

  /** Keys distinct in `s` stay distinct in any `t` that holds each element
      at most as often as `s` does. */
  lemma SubMultisetDistinctKeys<T, K>(s: seq<T>, t: seq<T>, key: T -> K)
    requires multiset(t) <= multiset(s)
    requires forall i, j :: 0 <= i < j < |s| ==> key(s[i]) != key(s[j])
    ensures forall i, j :: 0 <= i < j < |t| ==> key(t[i]) != key(t[j])
  {
    assert NoRepeats(s);
    forall x
      ensures multiset(t)[x] <= 1
    {
      AtMostOnce(s, x);
    }
    CountsNoRepeats(t);
    forall i, j | 0 <= i < j < |t|
      ensures key(t[i]) != key(t[j])
    {
      assert t[i] in multiset(s) && t[j] in multiset(s);
      var a :| 0 <= a < |s| && s[a] == t[i];
      var b :| 0 <= b < |s| && s[b] == t[j];
      assert a != b;
    }
  }

  /** A `findMany` with a `where` and an `orderBy`: the rows satisfying `p`,
      in the stable ascending order of `key`. */
  function Select<T>(s: seq<T>, p: T -> bool, key: T -> int): (r: seq<T>)
    ensures multiset(r) == multiset(Filter(s, p))
    ensures Sorted(r, key)
    ensures forall i :: 0 <= i < |r| ==> p(r[i]) && r[i] in s
  {
    var m := Filter(s, p);
    var r := SortBy(m, key);
    forall i | 0 <= i < |r|
      ensures p(r[i]) && r[i] in s
    {
      assert r[i] in multiset(m);
      var k :| 0 <= k < |m| && m[k] == r[i];
    }
    r
  }

  /** A row is selected exactly when it is stored and satisfies `p`. */
  lemma SelectExact<T>(s: seq<T>, p: T -> bool, key: T -> int)
    ensures forall x :: x in Select(s, p, key) <==> x in s && p(x)
  {
    var r := Select(s, p, key);
    forall x
      ensures x in r <==> x in s && p(x)
    {
      if x in s && p(x) {
        assert x in multiset(Filter(s, p));
      }
    }
  }
}
