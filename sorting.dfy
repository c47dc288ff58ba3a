/** A stable sort by a comparison, standing for `array.sort(sortBy(field))`
    and for the floor ordering of the building layout. */
module Sorting {
  import opened Seqs

  /** `le` is total and transitive, as a comparator on one field must be. */
  ghost predicate TotalPreorder<T(!new)>(le: (T, T) -> bool) {
    && (forall a, b :: le(a, b) || le(b, a))
    && (forall a, b, c :: le(a, b) && le(b, c) ==> le(a, c))
  }

  /** Every earlier element is at most every later one. */
  ghost predicate Sorted<T>(s: seq<T>, le: (T, T) -> bool) {
    forall i, j :: 0 <= i < j < |s| ==> le(s[i], s[j])
  }

  /** Puts `x` before the first element it does not exceed. */
  function Insert<T(==,!new)>(x: T, s: seq<T>, le: (T, T) -> bool): (r: seq<T>)
    requires TotalPreorder(le) && Sorted(s, le)
    ensures Sorted(r, le)
    ensures multiset(r) == multiset(s) + multiset{x}
    ensures |r| == |s| + 1 && (r[0] == x || (s != [] && r[0] == s[0]))
  {
    if s == [] || le(x, s[0]) then
      [x] + s
    else
      var rest := Insert(x, s[1..], le);
      assert s == [s[0]] + s[1..];
      assert le(s[0], x);
      assert le(s[0], rest[0]);
      SortedCons(s[0], rest, le);
      [s[0]] + rest
  }

  /** A sorted sequence stays sorted under a head no greater than its first element. */
  lemma SortedCons<T(!new)>(h: T, s: seq<T>, le: (T, T) -> bool)
    requires TotalPreorder(le) && Sorted(s, le)
    requires s != [] ==> le(h, s[0])
    ensures Sorted([h] + s, le)
  {
    var r := [h] + s;
    forall i, j | 0 <= i < j < |r| ensures le(r[i], r[j]) {
      if i == 0 && j > 1 {
        assert le(s[0], s[j - 1]);
      }
    }
  }

  /** Insertion sort: sorted, and a permutation of its input. Equal elements keep
      their relative order, because an element is inserted before the equal
      ones that followed it. */
  function SortBy<T(==,!new)>(s: seq<T>, le: (T, T) -> bool): (r: seq<T>)
    requires TotalPreorder(le)
    ensures Sorted(r, le)
    ensures multiset(r) == multiset(s)
    ensures |r| == |s|
  {
    if s == [] then []
    else
      assert s == [s[0]] + s[1..];
      var r := Insert(s[0], SortBy(s[1..], le), le);
      assert |r| == |multiset(r)|;
      r
  }

  /** Two elements one of which is strictly below the other are not both
      tied with the same `c`. */
  lemma StrictNotTied<T(!new)>(x: T, y: T, le: (T, T) -> bool, c: T, tied: T -> bool)
    requires TotalPreorder(le) && !le(x, y)
    requires forall z :: tied(z) <==> le(z, c) && le(c, z)
    ensures !(tied(x) && tied(y))
  {
    assert tied(x) ==> le(x, c);
    assert tied(y) ==> le(c, y);
  }

  /** An empty part can move past another one. */
  lemma SwapEmpty<T>(a: seq<T>, b: seq<T>, d: seq<T>)
    requires a == [] || b == []
    ensures a + (b + d) == b + (a + d)
  {
  }

  /** Inserting `x` keeps the elements tied with `c` in order, with `x` first
      among them when it is tied with `c` too: the elements `x` is placed after
      all come strictly before it. */
  lemma {:induction false} InsertTies<T(!new)>(x: T, s: seq<T>, le: (T, T) -> bool, c: T, tied: T -> bool)
    requires TotalPreorder(le) && Sorted(s, le)
    requires forall z :: tied(z) <==> le(z, c) && le(c, z)
    ensures Filter(Insert(x, s, le), tied) == Filter([x], tied) + Filter(s, tied)
  {
    if s == [] || le(x, s[0]) {
      FilterAppend([x], s, tied);
    } else {
      var rest := Insert(x, s[1..], le);
      assert Insert(x, s, le) == [s[0]] + rest;
      InsertTies(x, s[1..], le, c, tied);
      FilterCons([s[0]] + rest, tied);
      FilterCons(s, tied);
      FilterSingleton(x, tied);
      FilterSingleton(s[0], tied);
      StrictNotTied(x, s[0], le, c, tied);
      SwapEmpty(Filter([s[0]], tied), Filter([x], tied), Filter(s[1..], tied));
    }
  }

  /** One step of the sort, seen through `Filter`: the first element is
      inserted ahead of the tied elements of the sorted rest. */
  lemma SortByTiesStep<T(!new)>(s: seq<T>, le: (T, T) -> bool, c: T, tied: T -> bool)
    requires TotalPreorder(le) && s != []
    requires forall z :: tied(z) <==> le(z, c) && le(c, z)
    ensures Filter(SortBy(s, le), tied) == Filter([s[0]], tied) + Filter(SortBy(s[1..], le), tied)
  {
    var sorted := SortBy(s[1..], le);
    assert SortBy(s, le) == Insert(s[0], sorted, le);
    InsertTies(s[0], sorted, le, c, tied);
  }

  /** The sort is stable: the elements tied with any `c` come out in the order
      they went in. */
  lemma {:induction false} SortByStable<T(!new)>(s: seq<T>, le: (T, T) -> bool, c: T, tied: T -> bool)
    requires TotalPreorder(le)
    requires forall z :: tied(z) <==> le(z, c) && le(c, z)
    ensures Filter(SortBy(s, le), tied) == Filter(s, tied)
  {
    if s != [] {
      SortByTiesStep(s, le, c, tied);
      SortByStable(s[1..], le, c, tied);
      FilterCons(s, tied);
    }
  }
}
