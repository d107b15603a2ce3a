/**
 * The array operations the application leans on, as functions over sequences:
 * `filter`, `map`, `find`, `reduce` with `+`, `Array.from(new Set(..))` and
 * an `order by` on one integer key.
 */
module Seqs {
  import opened Wrappers

  /** `a` can be obtained from `b` by deleting elements, keeping the order of the rest. */
  ghost predicate IsSubsequence<T>(a: seq<T>, b: seq<T>)
    decreases |b|
  {
    |a| == 0 || (|b| > 0 && ((a[0] == b[0] && IsSubsequence(a[1..], b[1..])) || IsSubsequence(a, b[1..])))
  }

  lemma {:induction false} SubsequenceAppendRight<T>(a: seq<T>, b: seq<T>, x: T)
    requires IsSubsequence(a, b)
    ensures IsSubsequence(a, b + [x])
    decreases |b|
  {
    if |a| > 0 {
      assert (b + [x])[1..] == b[1..] + [x];
      if a[0] == b[0] && IsSubsequence(a[1..], b[1..]) {
        SubsequenceAppendRight(a[1..], b[1..], x);
      } else {
        SubsequenceAppendRight(a, b[1..], x);
      }
    }
  }

  lemma {:induction false} SubsequenceAppendBoth<T>(a: seq<T>, b: seq<T>, x: T)
    requires IsSubsequence(a, b)
    ensures IsSubsequence(a + [x], b + [x])
    decreases |b|
  {
    assert (b + [x])[1..] == if |b| == 0 then [] else b[1..] + [x];
    if |a| == 0 {
      if |b| > 0 {
        SubsequenceAppendBoth(a, b[1..], x);
      }
    } else {
      assert (a + [x])[1..] == a[1..] + [x];
      if a[0] == b[0] && IsSubsequence(a[1..], b[1..]) {
        SubsequenceAppendBoth(a[1..], b[1..], x);
      } else {
        SubsequenceAppendBoth(a, b[1..], x);
      }
    }
  }

  function Not<T>(f: T -> bool): T -> bool {
    x => !f(x)
  }

  /** `s.filter(f)`: the elements satisfying `f`, each as often as in `s`, in their original order. */
  function Filter<T(!new)>(s: seq<T>, f: T -> bool): (r: seq<T>)
    ensures |r| <= |s|
    ensures forall x :: x in r <==> x in s && f(x)
  {
    if |s| == 0 then []
    else
      var rest := Filter(s[1..], f);
      assert forall x :: x in s <==> x == s[0] || x in s[1..];
      if f(s[0]) then [s[0]] + rest else rest
  }

  /** The filter keeps every accepted element as often as it occurs, and no other. */
  lemma {:induction false} FilterMultiset<T(!new)>(s: seq<T>, f: T -> bool)
    ensures forall x :: multiset(Filter(s, f))[x] == if f(x) then multiset(s)[x] else 0
  {
    if |s| > 0 {
      FilterMultiset(s[1..], f);
      assert s == [s[0]] + s[1..];
    }
  }

  /** The filter keeps the order of the elements it keeps. */
  lemma {:induction false} FilterSubsequence<T(!new)>(s: seq<T>, f: T -> bool)
    ensures IsSubsequence(Filter(s, f), s)
  {
    if |s| > 0 {
      FilterSubsequence(s[1..], f);
      var rest := Filter(s[1..], f);
      if f(s[0]) {
        assert Filter(s, f)[1..] == rest;
      } else if |rest| > 0 {
        assert Filter(s, f) == rest;
      }
    }
  }

  /** Filtering twice is filtering once by both tests. */
  lemma {:induction false} FilterFilter<T(!new)>(s: seq<T>, f: T -> bool, g: T -> bool, h: T -> bool)
    requires forall x :: x in s ==> h(x) == (f(x) && g(x))
    ensures Filter(Filter(s, f), g) == Filter(s, h)
  {
    if |s| > 0 {
      assert forall x :: x in s[1..] ==> x in s;
      FilterFilter(s[1..], f, g, h);
      assert s[0] in s;
    }
  }

  /** Filtering a list with one more element in front. */
  lemma FilterCons<T(!new)>(x: T, s: seq<T>, f: T -> bool)
    ensures Filter([x] + s, f) == if f(x) then [x] + Filter(s, f) else Filter(s, f)
    ensures |Filter([x] + s, f)| == if f(x) then 1 + |Filter(s, f)| else |Filter(s, f)|
  {
    assert ([x] + s)[1..] == s;
  }

  /** Two tests that agree on every element select the same elements. */
  lemma {:induction false} FilterSame<T(!new)>(s: seq<T>, f: T -> bool, g: T -> bool)
    requires forall x :: x in s ==> f(x) == g(x)
    ensures Filter(s, f) == Filter(s, g)
  {
    if |s| > 0 {
      assert forall x :: x in s[1..] ==> x in s;
      FilterSame(s[1..], f, g);
    }
  }

  /** Appending an element the test rejects does not change the filtered sequence. */
  lemma {:induction false} FilterAppendRejected<T(!new)>(s: seq<T>, x: T, f: T -> bool)
    requires !f(x)
    ensures Filter(s + [x], f) == Filter(s, f)
    decreases |s|
  {
    if |s| > 0 {
      assert (s + [x])[1..] == s[1..] + [x];
      FilterAppendRejected(s[1..], x, f);
    }
  }

  /** Appending an element the test accepts appends it to the filtered sequence. */
  lemma {:induction false} FilterAppendAccepted<T(!new)>(s: seq<T>, x: T, f: T -> bool)
    requires f(x)
    ensures Filter(s + [x], f) == Filter(s, f) + [x]
    decreases |s|
  {
    if |s| > 0 {
      assert (s + [x])[1..] == s[1..] + [x];
      FilterAppendAccepted(s[1..], x, f);
    }
  }

  /** Every element lands in exactly one of `filter(f)` and `filter(!f)`. */
  lemma {:induction false} FilterPartition<T(!new)>(s: seq<T>, f: T -> bool)
    ensures |Filter(s, f)| + |Filter(s, Not(f))| == |s|
  {
    if |s| > 0 {
      FilterPartition(s[1..], f);
    }
  }

  /** Filtering with a test every element passes keeps the whole sequence. */
  lemma {:induction false} FilterAll<T(!new)>(s: seq<T>, f: T -> bool)
    requires forall i :: 0 <= i < |s| ==> f(s[i])
    ensures Filter(s, f) == s
  {
    if |s| > 0 {
      FilterAll(s[1..], f);
      assert s == [s[0]] + s[1..];
    }
  }

  /** `s.map(f)`. */
  function Map<T, U>(s: seq<T>, f: T -> U): (r: seq<U>)
    ensures |r| == |s|
    ensures forall i :: 0 <= i < |s| ==> r[i] == f(s[i])
  {
    seq(|s|, i requires 0 <= i < |s| => f(s[i]))
  }

  /** The elements of `s.map(f)` are exactly the images of the elements of `s`. */
  lemma MapMembership<T, U>(s: seq<T>, f: T -> U, x: U)
    ensures x in Map(s, f) <==> exists y :: y in s && x == f(y)
  {
    var r := Map(s, f);
    if x in r {
      var i :| 0 <= i < |r| && r[i] == x;
      assert s[i] in s && x == f(s[i]);
    }
    if exists y :: y in s && x == f(y) {
      var y :| y in s && x == f(y);
      var i :| 0 <= i < |s| && s[i] == y;
      assert r[i] == x;
    }
  }

  /** Mapping two orderings of the same elements gives two orderings of the same images. */
  lemma {:induction false} MapPermutation<T, U>(a: seq<T>, b: seq<T>, f: T -> U)
    requires multiset(a) == multiset(b)
    ensures multiset(Map(a, f)) == multiset(Map(b, f))
    decreases |a|
  {
    if |a| == 0 {
      assert |b| == |multiset(b)| == 0;
    } else {
      var x := a[0];
      var i := IndexOf(b, x);
      var tail, rest := a[1..], b[..i] + b[i + 1..];
      assert a[..0] + a[1..] == tail;
      assert multiset(tail) == multiset(rest) by {
        RemoveOne(b, i);
        RemoveOne(a, 0);
        MultisetCancel(multiset(tail), multiset(rest), multiset{x});
      }
      MapPermutation(tail, rest, f);
      assert multiset(Map(a, f)) == multiset(Map(tail, f)) + multiset{f(x)} by {
        MapRemoveOne(a, 0, f);
      }
      assert multiset(Map(b, f)) == multiset(Map(rest, f)) + multiset{f(x)} by {
        MapRemoveOne(b, i, f);
      }
    }
  }

  /** A position where an element of the list sits. */
  lemma IndexOf<T>(b: seq<T>, x: T) returns (i: nat)
    requires x in multiset(b)
    ensures i < |b| && b[i] == x
  {
    i :| i < |b| && b[i] == x;
  }

  /** Equal sums with the same second part have equal first parts. */
  lemma MultisetCancel<T>(p: multiset<T>, q: multiset<T>, r: multiset<T>)
    requires p + r == q + r
    ensures p == q
  {
    forall y ensures p[y] == q[y] {
      assert (p + r)[y] == (q + r)[y];
    }
  }

  /** Taking one element out of a list takes one occurrence out of its multiset. */
  lemma RemoveOne<T>(b: seq<T>, i: nat)
    requires i < |b|
    ensures multiset(b) == multiset(b[..i] + b[i + 1..]) + multiset{b[i]}
  {
    assert b == b[..i] + [b[i]] + b[i + 1..];
  }

  /** Mapping a list with one element taken out takes that element's image out of the map. */
  lemma MapRemoveOne<T, U>(b: seq<T>, i: nat, f: T -> U)
    requires i < |b|
    ensures multiset(Map(b, f)) == multiset(Map(b[..i] + b[i + 1..], f)) + multiset{f(b[i])}
  {
    var m := Map(b, f);
    RemoveOne(m, i);
    assert m[..i] + m[i + 1..] == Map(b[..i] + b[i + 1..], f);
  }

  /** Summing through a map is summing the composed function. */
  lemma {:induction false} SumMap<T, U>(s: seq<T>, g: T -> U, f: U -> real, h: T -> real)
    requires forall x :: x in s ==> h(x) == f(g(x))
    ensures Sum(Map(s, g), f) == Sum(s, h)
  {
    if |s| > 0 {
      var init := s[..|s| - 1];
      assert forall x :: x in init ==> x in s;
      SumMap(init, g, f, h);
      assert Map(s, g)[..|s| - 1] == Map(init, g);
    }
  }

  /** `s.reduce((sum, x) => sum + f(x), 0)`, folded from the left. */
  function Sum<T>(s: seq<T>, f: T -> real): real {
    if |s| == 0 then 0.0 else Sum(s[..|s| - 1], f) + f(s[|s| - 1])
  }

  lemma {:induction false} SumConcat<T>(a: seq<T>, b: seq<T>, f: T -> real)
    ensures Sum(a + b, f) == Sum(a, f) + Sum(b, f)
    decreases |b|
  {
    if |b| == 0 {
      assert a + b == a;
    } else {
      assert (a + b)[..|a + b| - 1] == a + b[..|b| - 1];
      SumConcat(a, b[..|b| - 1], f);
    }
  }

  /** `f` where `p` holds and zero elsewhere. */
  function Masked<T>(p: T -> bool, f: T -> real): T -> real {
    (x: T) => if p(x) then f(x) else 0.0
  }

  /** Summing over the elements a filter keeps is summing over all of them with the others counted as zero. */
  lemma {:induction false} SumFilter<T(!new)>(s: seq<T>, p: T -> bool, f: T -> real)
    ensures Sum(Filter(s, p), f) == Sum(s, Masked(p, f))
  {
    if |s| > 0 {
      var head, tail, m := s[0], s[1..], Masked(p, f);
      var kept := Filter(tail, p);
      SumFilter(tail, p, f);
      assert s == [head] + tail;
      SumCons(head, tail, m);
      assert Sum(s, m) == m(head) + Sum(kept, f);
      if p(head) {
        assert Filter(s, p) == [head] + kept;
        SumCons(head, kept, f);
      } else {
        assert Filter(s, p) == kept;
      }
    }
  }

  /** The sum with one more element in front. */
  lemma SumCons<T>(x: T, s: seq<T>, f: T -> real)
    ensures Sum([x] + s, f) == f(x) + Sum(s, f)
  {
    assert [x][..0] == [];
    SumConcat([x], s, f);
  }

  /** Sums add pointwise. */
  lemma {:induction false} SumAdd<T>(s: seq<T>, f: T -> real, g: T -> real, h: T -> real)
    requires forall x :: x in s ==> h(x) == f(x) + g(x)
    ensures Sum(s, h) == Sum(s, f) + Sum(s, g)
  {
    if |s| > 0 {
      var init := s[..|s| - 1];
      assert forall x :: x in init ==> x in s;
      SumAdd(init, f, g, h);
      assert s[|s| - 1] in s;
    }
  }

  /** The sum over `s` splits into the sums over `filter(p)` and `filter(!p)`. */
  lemma {:induction false} SumFilterPartition<T(!new)>(s: seq<T>, p: T -> bool, f: T -> real)
    ensures Sum(s, f) == Sum(Filter(s, p), f) + Sum(Filter(s, Not(p)), f)
  {
    if |s| > 0 {
      var head, tail := s[0], s[1..];
      SumFilterPartition(tail, p, f);
      assert s == [head] + tail;
      assert Sum([head], f) == f(head) by {
        assert [head][..0] == [];
      }
      SumConcat([head], tail, f);
      if p(head) {
        assert Filter(s, p) == [head] + Filter(tail, p);
        assert Filter(s, Not(p)) == Filter(tail, Not(p));
        SumConcat([head], Filter(tail, p), f);
      } else {
        assert Filter(s, p) == Filter(tail, p);
        assert Filter(s, Not(p)) == [head] + Filter(tail, Not(p));
        SumConcat([head], Filter(tail, Not(p)), f);
      }
    }
  }

  /** The position `s.find(f)` / `s.findIndex(f)` reports: the first element passing `f`. */
  function FindFirst<T>(s: seq<T>, f: T -> bool): (r: Option<nat>)
    ensures r.Some? ==> r.value < |s| && f(s[r.value])
    ensures r.Some? ==> forall j :: 0 <= j < r.value ==> !f(s[j])
    ensures r.None? <==> forall j :: 0 <= j < |s| ==> !f(s[j])
  {
    if |s| == 0 then None
    else if f(s[0]) then Some(0)
    else match FindFirst(s[1..], f)
      case None => None
      case Some(i) => Some(i + 1)
  }

  predicate NoDuplicates<T(==)>(s: seq<T>) {
    forall i, j :: 0 <= i < j < |s| ==> s[i] != s[j]
  }

  /** `Array.from(new Set(s))`: each distinct element once, at the place of its first occurrence. */
  function Dedup<T(==,!new)>(s: seq<T>): (r: seq<T>)
    ensures forall x :: x in r <==> x in s
    ensures NoDuplicates(r)
    ensures IsSubsequence(r, s)
    ensures |r| <= |s|
    ensures |s| > 0 ==> |r| > 0 && r[0] == s[0]
  {
    if |s| == 0 then []
    else
      var init := s[..|s| - 1];
      var last := s[|s| - 1];
      var d := Dedup(init);
      assert s == init + [last];
      if last in d then
        SubsequenceAppendRight(d, init, last);
        d
      else
        SubsequenceAppendBoth(d, init, last);
        d + [last]
  }

  /** Keys never increase from left to right. */
  ghost predicate SortedDesc<T>(s: seq<T>, key: T -> int) {
    forall i, j :: 0 <= i < j < |s| ==> key(s[i]) >= key(s[j])
  }

  function InsertDesc<T(!new)>(x: T, s: seq<T>, key: T -> int): (r: seq<T>)
    requires SortedDesc(s, key)
    ensures SortedDesc(r, key)
    ensures multiset(r) == multiset(s) + multiset{x}
  {
    if |s| == 0 then [x]
    else if key(x) >= key(s[0]) then
      assert forall y :: y in s ==> key(x) >= key(y) by {
        forall y | y in s ensures key(x) >= key(y) {
          var k :| 0 <= k < |s| && s[k] == y;
        }
      }
      ConsSortedDesc(x, s, key);
      [x] + s
    else
      var rest := InsertDesc(x, s[1..], key);
      assert s == [s[0]] + s[1..];
      assert forall y :: y in rest ==> key(s[0]) >= key(y) by {
        forall y | y in rest ensures key(s[0]) >= key(y) {
          assert y in multiset(rest);
          if y != x {
            assert y in multiset(s[1..]);
            var k :| 0 <= k < |s[1..]| && s[1..][k] == y;
            assert s[k + 1] == y;
          }
        }
      }
      ConsSortedDesc(s[0], rest, key);
      [s[0]] + rest
  }

  /** Putting an element no smaller than every other in front keeps a sequence sorted. */
  lemma ConsSortedDesc<T>(h: T, s: seq<T>, key: T -> int)
    requires SortedDesc(s, key)
    requires forall y :: y in s ==> key(h) >= key(y)
    ensures SortedDesc([h] + s, key)
  {
    var r := [h] + s;
    forall i, j | 0 <= i < j < |r| ensures key(r[i]) >= key(r[j]) {
      assert r[j] == s[j - 1];
      if i > 0 {
        assert r[i] == s[i - 1];
      }
    }
  }

  /** `order(key, { ascending: false })`: the same elements, newest first. */
  function SortDesc<T(!new)>(s: seq<T>, key: T -> int): (r: seq<T>)
    ensures SortedDesc(r, key)
    ensures multiset(r) == multiset(s)
  {
    if |s| == 0 then []
    else
      var rest := SortDesc(s[1..], key);
      var r := InsertDesc(s[0], rest, key);
      assert multiset(s) == multiset(s[1..]) + multiset{s[0]} by {
        assert s == [s[0]] + s[1..];
      }
      r
  }

  /** Sequences with the same multiset have the same members. */
  lemma SameMultisetSameMembers<T>(a: seq<T>, b: seq<T>)
    requires multiset(a) == multiset(b)
    ensures forall x :: x in a <==> x in b
  {
    forall x ensures x in a <==> x in b {
      assert x in a <==> x in multiset(a);
      assert x in b <==> x in multiset(b);
    }
  }
}
