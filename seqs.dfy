/** The array combinators the source uses (`filter`, `some`, `every`,
    `filter(x => x !== v)`, `new Set(array)`), as functions on sequences. */
module Seqs {

  /** `s.filter(p)`: the elements satisfying `p`, in their original order and
      with their original multiplicity. */
  function Filter<T(==,!new)>(s: seq<T>, p: T -> bool): (r: seq<T>)
    ensures |r| <= |s|
    ensures forall i :: 0 <= i < |r| ==> p(r[i])
    ensures forall x :: multiset(r)[x] == if p(x) then multiset(s)[x] else 0
    ensures forall x :: x in r <==> x in s && p(x)
  {
    if s == [] then []
    else
      var rest := Filter(s[1..], p);
      assert s == [s[0]] + s[1..];
      assert multiset(s) == multiset{s[0]} + multiset(s[1..]);
      if p(s[0]) then [s[0]] + rest else rest
  }

  /** `filter` keeps order: filtering a concatenation filters each part in turn. */
  lemma {:induction false} FilterAppend<T(!new)>(s: seq<T>, t: seq<T>, p: T -> bool)
    ensures Filter(s + t, p) == Filter(s, p) + Filter(t, p)
  {
    if s == [] {
      assert s + t == t;
    } else {
      assert (s + t)[0] == s[0] && (s + t)[1..] == s[1..] + t;
      FilterAppend(s[1..], t, p);
      var head := if p(s[0]) then [s[0]] else [];
      assert head + (Filter(s[1..], p) + Filter(t, p)) == (head + Filter(s[1..], p)) + Filter(t, p);
    }
  }

  /** A single element is kept exactly when it passes. */
  lemma FilterSingleton<T(!new)>(x: T, p: T -> bool)
    ensures Filter([x], p) == if p(x) then [x] else []
  {
    assert [x][1..] == [];
  }

  /** Filtering a non-empty sequence decides its head, then filters the rest. */
  lemma FilterCons<T(!new)>(s: seq<T>, p: T -> bool)
    requires s != []
    ensures Filter(s, p) == Filter([s[0]], p) + Filter(s[1..], p)
  {
    FilterSingleton(s[0], p);
  }

  /** `s.some(p)` */
  function Exists<T>(s: seq<T>, p: T -> bool): (b: bool)
    ensures b <==> exists i :: 0 <= i < |s| && p(s[i])
  {
    if s == [] then false
    else if p(s[0]) then true
    else
      var b := Exists(s[1..], p);
      assert forall i :: 1 <= i < |s| ==> s[i] == s[1..][i - 1];
      b
  }

  /** `s.every(p)` */
  function Every<T>(s: seq<T>, p: T -> bool): (b: bool)
    ensures b <==> forall i :: 0 <= i < |s| ==> p(s[i])
  {
    if s == [] then true
    else if !p(s[0]) then false
    else
      var b := Every(s[1..], p);
      assert forall i :: 1 <= i < |s| ==> s[i] == s[1..][i - 1];
      b
  }

  /** Searching the filtered sequence is searching the whole one for both predicates at once. */
  lemma ExistsFiltered<T(!new)>(s: seq<T>, p: T -> bool, q: T -> bool)
    ensures Exists(Filter(s, p), q) <==> exists i :: 0 <= i < |s| && p(s[i]) && q(s[i])
  {
    if Exists(Filter(s, p), q) {
      var i := FoundInFiltered(s, p, q);
    }
    if exists i :: 0 <= i < |s| && p(s[i]) && q(s[i]) {
      var i :| 0 <= i < |s| && p(s[i]) && q(s[i]);
      KeptIsFound(s, p, q, i);
    }
  }

  /** An element found in the filtered sequence is an element of the whole one
      that passes; `i` is its index there. */
  lemma FoundInFiltered<T(!new)>(s: seq<T>, p: T -> bool, q: T -> bool) returns (i: int)
    requires Exists(Filter(s, p), q)
    ensures 0 <= i < |s| && p(s[i]) && q(s[i])
  {
    var f := Filter(s, p);
    var k :| 0 <= k < |f| && q(f[k]);
    assert f[k] in s && p(f[k]);
    i :| 0 <= i < |s| && s[i] == f[k];
  }

  /** An element of the whole sequence that passes is found in the filtered one. */
  lemma KeptIsFound<T(!new)>(s: seq<T>, p: T -> bool, q: T -> bool, i: int)
    requires 0 <= i < |s| && p(s[i]) && q(s[i])
    ensures Exists(Filter(s, p), q)
  {
    assert s[i] in Filter(s, p);
  }


  /** Sequences with the same multiset have the same members. */
  lemma SameMembers<T>(s: seq<T>, t: seq<T>)
    requires multiset(s) == multiset(t)
    ensures forall x :: x in s <==> x in t
  {
    forall x ensures x in s <==> x in t {
      assert x in s <==> x in multiset(s);
      assert x in t <==> x in multiset(t);
    }
  }

  /** A filter selects nothing exactly when no element passes it. */
  lemma FilterNone<T(!new)>(s: seq<T>, p: T -> bool)
    ensures |Filter(s, p)| == 0 <==> forall x :: x in s ==> !p(x)
  {
    var f := Filter(s, p);
    if f != [] {
      assert f[0] in f;
    }
  }

  /** A filter selects everything exactly when every element passes it. */
  lemma {:induction false} FilterAll<T(!new)>(s: seq<T>, p: T -> bool)
    ensures |Filter(s, p)| == |s| <==> forall x :: x in s ==> p(x)
  {
    if s != [] {
      FilterAll(s[1..], p);
      assert forall x :: x in s <==> x == s[0] || x in s[1..];
    }
  }

  /** A filter by a stronger predicate selects no more. */
  lemma {:induction false} FilterMonotone<T(!new)>(s: seq<T>, p: T -> bool, q: T -> bool)
    requires forall x :: p(x) ==> q(x)
    ensures |Filter(s, p)| <= |Filter(s, q)|
  {
    if s != [] {
      FilterMonotone(s[1..], p, q);
    }
  }

  /** Two filters by complementary predicates split a sequence: their lengths add up to its length. */
  lemma {:induction false} FilterPartition<T(!new)>(s: seq<T>, p: T -> bool, q: T -> bool)
    requires forall x :: q(x) == !p(x)
    ensures |Filter(s, p)| + |Filter(s, q)| == |s|
  {
    if s != [] {
      FilterPartition(s[1..], p, q);
    }
  }

  /** Two filters by predicates that never hold together select at most the whole sequence. */
  lemma {:induction false} FilterDisjoint<T(!new)>(s: seq<T>, p: T -> bool, q: T -> bool)
    requires forall x :: !(p(x) && q(x))
    ensures |Filter(s, p)| + |Filter(s, q)| <= |s|
  {
    if s != [] {
      FilterDisjoint(s[1..], p, q);
    }
  }

  /** `s.filter(y => y !== x)`: every occurrence of `x` removed, the rest kept
      in order (`RemoveAllIsFilter`). */
  function RemoveAll<T(==,!new)>(s: seq<T>, x: T): (r: seq<T>)
    ensures x !in r
    ensures forall y :: y != x ==> multiset(r)[y] == multiset(s)[y]
    ensures forall y :: y != x ==> (y in r <==> y in s)
    ensures |r| == |s| - multiset(s)[x]
  {
    if s == [] then []
    else
      var last := s[|s| - 1];
      assert s == s[..|s| - 1] + [last];
      var rest := RemoveAll(s[..|s| - 1], x);
      if last == x then rest else rest + [last]
  }

  /** Removing a value is filtering by any test that rejects exactly that
      value, so the other values keep their order. */
  lemma {:induction false} RemoveAllIsFilter<T(!new)>(s: seq<T>, x: T, keep: T -> bool)
    requires forall y :: keep(y) <==> y != x
    ensures RemoveAll(s, x) == Filter(s, keep)
  {
    if s != [] {
      var init, last := s[..|s| - 1], s[|s| - 1];
      assert s == init + [last];
      RemoveAllIsFilter(init, x, keep);
      RemoveAllLast(init, last, x, keep);
    }
  }

  lemma RemoveAllLast<T(!new)>(init: seq<T>, last: T, x: T, keep: T -> bool)
    requires forall y :: keep(y) <==> y != x
    requires RemoveAll(init, x) == Filter(init, keep)
    ensures RemoveAll(init + [last], x) == Filter(init + [last], keep)
  {
    assert (init + [last])[..|init|] == init;
    FilterAppend(init, [last], keep);
    FilterSingleton(last, keep);
  }

  /** Removing a value that does not occur changes nothing. */
  lemma {:induction false} RemoveAbsent<T(!new)>(s: seq<T>, x: T)
    requires x !in s
    ensures RemoveAll(s, x) == s
  {
    if s != [] {
      assert s == s[..|s| - 1] + [s[|s| - 1]];
      RemoveAbsent(s[..|s| - 1], x);
    }
  }

  /** No value occurs twice. */
  ghost predicate Distinct<T>(s: seq<T>) {
    forall i, j :: 0 <= i < j < |s| ==> s[i] != s[j]
  }

  /** The iteration order of `new Set(s)`: each value once, where it first occurs. */
  function Dedup<T(==,!new)>(s: seq<T>): (r: seq<T>)
    ensures Distinct(r)
    ensures forall x :: x in r <==> x in s
  {
    if s == [] then []
    else
      var last := s[|s| - 1];
      assert s == s[..|s| - 1] + [last];
      var d := Dedup(s[..|s| - 1]);
      if last in d then d else d + [last]
  }

  /** Growing the input by one element grows the set order by that element
      exactly when it is new. */
  lemma DedupStep<T(!new)>(s: seq<T>, i: nat)
    requires i < |s|
    ensures s[i] in Dedup(s[..i]) ==> Dedup(s[..i + 1]) == Dedup(s[..i])
    ensures s[i] !in Dedup(s[..i]) ==> Dedup(s[..i + 1]) == Dedup(s[..i]) + [s[i]]
  {
    assert s[..i + 1][..i] == s[..i];
  }

  /** Removing a value from a sequence without repetitions leaves one without repetitions. */
  lemma {:induction false} RemoveAllDistinct<T(!new)>(s: seq<T>, x: T)
    requires Distinct(s)
    ensures Distinct(RemoveAll(s, x))
  {
    if s != [] {
      var init, last := s[..|s| - 1], s[|s| - 1];
      assert Distinct(init) by {
        forall i, j | 0 <= i < j < |init| ensures init[i] != init[j] {
          assert init[i] == s[i] && init[j] == s[j];
        }
      }
      RemoveAllDistinct(init, x);
      assert last !in init by {
        forall i | 0 <= i < |init| ensures init[i] != last {
          assert init[i] == s[i];
        }
      }
      assert multiset(init)[last] == 0;
    }
  }

  /** A sequence without repetitions is its own set order. */
  lemma {:induction false} DedupDistinct<T(!new)>(s: seq<T>)
    requires Distinct(s)
    ensures Dedup(s) == s
  {
    if s != [] {
      var init := s[..|s| - 1];
      assert s == init + [s[|s| - 1]];
      DedupDistinct(init);
      assert s[|s| - 1] !in init by {
        forall i | 0 <= i < |init| ensures init[i] != s[|s| - 1] {
          assert init[i] == s[i];
        }
      }
    }
  }

  /** In a sequence without repetitions every value has multiplicity at most one. */
  lemma {:induction false} DistinctMultiplicity<T>(s: seq<T>, x: T)
    requires Distinct(s)
    ensures multiset(s)[x] <= 1
  {
    if s != [] {
      var init := s[..|s| - 1];
      assert s == init + [s[|s| - 1]];
      assert Distinct(init) by {
        forall i, j | 0 <= i < j < |init| ensures init[i] != init[j] {
          assert init[i] == s[i] && init[j] == s[j];
        }
      }
      DistinctMultiplicity(init, x);
      if s[|s| - 1] == x {
        assert x !in init by {
          forall i | 0 <= i < |init| ensures init[i] != x {
            assert init[i] == s[i];
          }
        }
      }
    }
  }

  /** Being free of repetitions depends only on the multiset of elements. */
  lemma DistinctPermutation<T>(s: seq<T>, t: seq<T>)
    requires Distinct(s) && multiset(s) == multiset(t)
    ensures Distinct(t)
  {
    forall i, j | 0 <= i < j < |t| ensures t[i] != t[j] {
      if t[i] == t[j] {
        var x := t[i];
        assert t == t[..j] + t[j..];
        assert t[..j][i] == x && t[j..][0] == x;
        assert multiset(t[..j])[x] >= 1 && multiset(t[j..])[x] >= 1;
        assert multiset(t)[x] >= 2;
        DistinctMultiplicity(s, x);
        assert false;
      }
    }
  }
}
