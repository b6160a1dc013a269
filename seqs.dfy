/** Sequence operations the listing browser borrows from JavaScript arrays and
    sets: `Array.prototype.filter`, and building a `Set` from an array. */
module Seqs {

  function Min(a: int, b: int): int {
    if a <= b then a else b
  }

  function Max(a: int, b: int): int {
    if a <= b then b else a
  }

  /** The set of elements of a sequence. */
  function Elements<T(!new)>(s: seq<T>): set<T> {
    set x | x in s
  }

  /** No element occurs twice. */
  ghost predicate Distinct<T(!new)>(s: seq<T>) {
    forall x :: multiset(s)[x] <= 1
  }

  /** `r` is obtained from `s` by deleting elements: its elements appear in `s` in the same order. */
  ghost predicate IsSubsequence<T(!new)>(r: seq<T>, s: seq<T>)
    decreases |s|
  {
    if r == [] then true
    else if s == [] then false
    else if r[0] == s[0] then IsSubsequence(r[1..], s[1..])
    else IsSubsequence(r, s[1..])
  }

  /** `s.filter(p)`: the elements of `s` satisfying `p`, each as often as in `s`. */
  function Filter<T(!new)>(p: T -> bool, s: seq<T>): (r: seq<T>)
    ensures |r| <= |s|
    ensures forall x :: x in r <==> x in s && p(x)
  {
    if s == [] then [] else (if p(s[0]) then [s[0]] else []) + Filter(p, s[1..])
  }

  /** Each element passing the test is kept as often as it occurs; the others are dropped. */
  lemma {:induction false} FilterCounts<T(!new)>(p: T -> bool, s: seq<T>)
    ensures forall x :: p(x) ==> multiset(Filter(p, s))[x] == multiset(s)[x]
    ensures forall x :: !p(x) ==> multiset(Filter(p, s))[x] == 0
  {
    if s != [] {
      FilterCounts(p, s[1..]);
      assert s == [s[0]] + s[1..];
    }
  }

  /** The filtered sequence keeps the input's relative order. */
  lemma {:induction false} FilterIsSubsequence<T(!new)>(p: T -> bool, s: seq<T>)
    ensures IsSubsequence(Filter(p, s), s)
  {
    if s != [] {
      FilterIsSubsequence(p, s[1..]);
      var r := Filter(p, s);
      if !p(s[0]) && r != [] {
        // r's first element passes p, so it is not the dropped s[0]
        assert r == Filter(p, s[1..]);
        assert r[0] in r && r[0] != s[0];
      }
    }
  }

  /** Filtering with a predicate every element satisfies changes nothing. */
  lemma {:induction false} FilterAll<T(!new)>(p: T -> bool, s: seq<T>)
    requires forall x :: x in s ==> p(x)
    ensures Filter(p, s) == s
  {
    if s != [] {
      FilterAll(p, s[1..]);
    }
  }

  /** Filtering depends only on the predicate's values on the elements. */
  lemma {:induction false} FilterCongruent<T(!new)>(p: T -> bool, q: T -> bool, s: seq<T>)
    requires forall x :: x in s ==> p(x) == q(x)
    ensures Filter(p, s) == Filter(q, s)
  {
    if s != [] {
      FilterCongruent(p, q, s[1..]);
    }
  }

  /** Two filters in a row are one filter by the conjunction. */
  lemma {:induction false} FilterFilter<T(!new)>(p: T -> bool, q: T -> bool, pq: T -> bool, s: seq<T>)
    requires forall x :: pq(x) == (p(x) && q(x))
    ensures Filter(q, Filter(p, s)) == Filter(pq, s)
  {
    if s != [] {
      FilterFilter(p, q, pq, s[1..]);
      if p(s[0]) {
        assert Filter(p, s) == [s[0]] + Filter(p, s[1..]);
        assert Filter(p, s)[0] == s[0] && Filter(p, s)[1..] == Filter(p, s[1..]);
      } else {
        assert Filter(p, s) == Filter(p, s[1..]);
      }
    }
  }

  /** Filtering a concatenation filters each part. */
  lemma {:induction false} FilterConcat<T(!new)>(p: T -> bool, a: seq<T>, b: seq<T>)
    ensures Filter(p, a + b) == Filter(p, a) + Filter(p, b)
  {
    if a == [] {
      assert a + b == b;
    } else {
      assert (a + b)[0] == a[0] && (a + b)[1..] == a[1..] + b;
      FilterConcat(p, a[1..], b);
      var h := if p(a[0]) then [a[0]] else [];
      assert Filter(p, a + b) == h + Filter(p, a[1..] + b);
      assert Filter(p, a) == h + Filter(p, a[1..]);
      assert h + (Filter(p, a[1..]) + Filter(p, b)) == (h + Filter(p, a[1..])) + Filter(p, b);
    }
  }

  /** Filtering twice by the same predicate is filtering once. */
  lemma FilterIdempotent<T(!new)>(p: T -> bool, s: seq<T>)
    ensures Filter(p, Filter(p, s)) == Filter(p, s)
  {
    FilterAll(p, Filter(p, s));
  }

  /** A filtered sequence of distinct elements has distinct elements. */
  lemma FilterDistinct<T(!new)>(p: T -> bool, s: seq<T>)
    requires Distinct(s)
    ensures Distinct(Filter(p, s))
  {
    var r := Filter(p, s);
    FilterCounts(p, s);
    forall x ensures multiset(r)[x] <= 1 {
      assert multiset(s)[x] <= 1;
    }
  }

  /** The position of the first occurrence of `x` in `s`. */
  function FirstIndex<T(==)>(s: seq<T>, x: T): (k: nat)
    requires x in s
    ensures k < |s| && s[k] == x && x !in s[..k]
  {
    if s[0] == x then 0 else 1 + FirstIndex(s[1..], x)
  }

  /** `new Set(acc-then-s)` seen through its iteration order: `acc` followed
      by the elements of `s` that are new, each at its first occurrence. */
  function AddAll<T(==,!new)>(acc: seq<T>, s: seq<T>): (r: seq<T>)
    decreases s
    ensures Distinct(acc) ==> Distinct(r)
    ensures Elements(r) == Elements(acc) + Elements(s)
    ensures |acc| <= |r| && r[..|acc|] == acc
  {
    if s == [] then acc
    else
      var acc' := if s[0] in acc then acc else acc + [s[0]];
      assert Distinct(acc) && s[0] !in acc ==> Distinct(acc') by {
        if Distinct(acc) && s[0] !in acc {
          forall x ensures multiset(acc')[x] <= 1 {
            assert multiset(acc') == multiset(acc) + multiset{s[0]};
          }
        }
      }
      assert Elements(acc') + Elements(s[1..]) == Elements(acc) + Elements(s) by {
        assert s == [s[0]] + s[1..];
      }
      var r := AddAll(acc', s[1..]);
      assert r[..|acc|] == r[..|acc'|][..|acc|];
      r
  }

  /** The elements `AddAll` appends are new, come from `s`, and appear in the
      order of their first occurrences in `s`. */
  lemma {:induction false} AddAllOrder<T(!new)>(acc: seq<T>, s: seq<T>)
    decreases s
    ensures var r := AddAll(acc, s);
            && (forall i :: |acc| <= i < |r| ==> r[i] !in acc && r[i] in s)
            && (forall i, j :: |acc| <= i < j < |r| ==> FirstIndex(s, r[i]) < FirstIndex(s, r[j]))
  {
    if s != [] {
      var acc' := if s[0] in acc then acc else acc + [s[0]];
      var r := AddAll(acc, s);
      assert r == AddAll(acc', s[1..]);
      AddAllOrder(acc', s[1..]);
      assert r[..|acc'|] == acc';
      forall i | |acc| <= i < |r|
        ensures r[i] !in acc && r[i] in s
        ensures r[i] == s[0] <==> i == |acc| && s[0] !in acc
        ensures r[i] != s[0] ==> FirstIndex(s, r[i]) == 1 + FirstIndex(s[1..], r[i])
      {
        if i < |acc'| {
          assert r[i] == acc'[i] == s[0];
        } else {
          assert r[i] != s[0];
        }
      }
    }
  }

  /** Adding elements that are all new and distinct appends them in order. */
  lemma {:induction false} AddAllFresh<T(!new)>(acc: seq<T>, s: seq<T>)
    decreases s
    requires Distinct(acc + s)
    ensures AddAll(acc, s) == acc + s
  {
    if s != [] {
      assert acc + s == acc + [s[0]] + s[1..];
      assert multiset(acc + s)[s[0]] == multiset(acc)[s[0]] + multiset(s)[s[0]];
      assert s[0] in multiset(s);
      assert s[0] !in acc;
      AddAllFresh(acc + [s[0]], s[1..]);
    }
  }
}
