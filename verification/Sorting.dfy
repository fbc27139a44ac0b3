/** `sort_by`: what a stable sort returns, that it exists, and that there is only one. */
module Sorting {
  ghost predicate TotalOn<T>(xs: seq<T>, leq: (T, T) -> bool) {
    forall x, y | x in xs && y in xs :: leq(x, y) || leq(y, x)
  }

  ghost predicate TransitiveOn<T>(xs: seq<T>, leq: (T, T) -> bool) {
    forall x, y, z | x in xs && y in xs && z in xs && leq(x, y) && leq(y, z) :: leq(x, z)
  }

  /** The comparison is usable for these elements; otherwise `sort_by` promises nothing. */
  ghost predicate Consistent<T>(xs: seq<T>, leq: (T, T) -> bool) { TotalOn(xs, leq) && TransitiveOn(xs, leq) }

  lemma ConsistentWithin<T>(xs: seq<T>, ys: seq<T>, leq: (T, T) -> bool)
    requires forall y | y in ys :: y in xs
    ensures TotalOn(xs, leq) ==> TotalOn(ys, leq)
    ensures TransitiveOn(xs, leq) ==> TransitiveOn(ys, leq)
  {
  }

  ghost predicate Sorted<T>(xs: seq<T>, leq: (T, T) -> bool) {
    forall i, j | 0 <= i < j < |xs| :: leq(xs[i], xs[j])
  }

  /** The elements that compare equal to `x`, in order. */
  function Alike<T>(xs: seq<T>, x: T, leq: (T, T) -> bool): seq<T> {
    if xs == [] then []
    else (if leq(x, xs[0]) && leq(xs[0], x) then [xs[0]] else []) + Alike(xs[1..], x, leq)
  }

  /** `ys` is `xs` in order, and elements that compare equal keep their order. */
  ghost predicate IsStableSort<T>(xs: seq<T>, ys: seq<T>, leq: (T, T) -> bool) {
    Sorted(ys, leq) && multiset(ys) == multiset(xs) && forall x | x in xs :: Alike(ys, x, leq) == Alike(xs, x, leq)
  }

  function Insert<T>(x: T, xs: seq<T>, leq: (T, T) -> bool): seq<T> {
    if xs == [] || leq(x, xs[0]) then [x] + xs else [xs[0]] + Insert(x, xs[1..], leq)
  }

  function Sort<T>(xs: seq<T>, leq: (T, T) -> bool): seq<T> {
    if xs == [] then [] else Insert(xs[0], Sort(xs[1..], leq), leq)
  }

  lemma {:induction false} InsertMultiset<T>(x: T, xs: seq<T>, leq: (T, T) -> bool)
    ensures multiset(Insert(x, xs, leq)) == multiset{x} + multiset(xs)
    decreases |xs|
  {
    if xs == [] || leq(x, xs[0]) {
    } else {
      InsertMultiset(x, xs[1..], leq);
      assert xs == [xs[0]] + xs[1..];
    }
  }

  lemma {:induction false} SortMultiset<T>(xs: seq<T>, leq: (T, T) -> bool)
    ensures multiset(Sort(xs, leq)) == multiset(xs)
    decreases |xs|
  {
    if xs == [] {
    } else {
      SortMultiset(xs[1..], leq);
      InsertMultiset(xs[0], Sort(xs[1..], leq), leq);
      assert xs == [xs[0]] + xs[1..];
    }
  }

  lemma SameElements<T>(xs: seq<T>, ys: seq<T>)
    requires multiset(xs) == multiset(ys)
    ensures forall x :: x in xs <==> x in ys
  {
    assert forall x :: x in xs <==> x in multiset(xs);
    assert forall x :: x in ys <==> x in multiset(ys);
  }

  lemma {:induction false} InsertKeepsAbove<T>(least: T, x: T, xs: seq<T>, leq: (T, T) -> bool)
    requires leq(least, x) && forall i | 0 <= i < |xs| :: leq(least, xs[i])
    ensures forall i | 0 <= i < |Insert(x, xs, leq)| :: leq(least, Insert(x, xs, leq)[i])
    decreases |xs|
  {
    if xs == [] {
    } else {
      InsertKeepsAbove(least, x, xs[1..], leq);
    }
  }

  lemma {:induction false} InsertSorted<T>(x: T, xs: seq<T>, leq: (T, T) -> bool)
    requires Consistent([x] + xs, leq) && Sorted(xs, leq)
    ensures Sorted(Insert(x, xs, leq), leq)
    decreases |xs|
  {
    var all := [x] + xs;
    assert x == all[0] && forall i | 0 <= i < |xs| :: xs[i] == all[i + 1] && xs[i] in all;
    if xs == [] {
    } else if leq(x, xs[0]) {
      assert forall j | 0 <= j < |xs| :: leq(x, xs[j]);
    } else {
      assert forall y | y in [x] + xs[1..] :: y in all;
      assert Sorted(xs[1..], leq);
      InsertSorted(x, xs[1..], leq);
      assert forall i | 0 <= i < |xs[1..]| :: leq(xs[0], xs[1..][i]);
      hide TransitiveOn, TotalOn;
      InsertKeepsAbove(xs[0], x, xs[1..], leq);
    }
  }

  lemma {:induction false} InsertAlike<T>(x: T, xs: seq<T>, leq: (T, T) -> bool, y: T)
    requires TransitiveOn([x, y] + xs, leq)
    ensures Alike(Insert(x, xs, leq), y, leq) == Alike([x], y, leq) + Alike(xs, y, leq)
    decreases |xs|
  {
    if xs == [] || leq(x, xs[0]) {
      assert ([x] + xs)[1..] == xs;
    } else {
      assert forall z | z in [x, y] + xs[1..] :: z in [x, y] + xs;
      InsertAlike(x, xs[1..], leq, y);
      assert Insert(x, xs, leq)[1..] == Insert(x, xs[1..], leq);
      assert xs[0] in [x, y] + xs && x in [x, y] + xs && y in [x, y] + xs;
    }
  }

  lemma SortedRestWithin<T>(xs: seq<T>, leq: (T, T) -> bool)
    requires xs != []
    ensures forall y | y in [xs[0]] + Sort(xs[1..], leq) :: y in xs
  {
    SortMultiset(xs[1..], leq);
    var rest := Sort(xs[1..], leq);
    forall y | y in [xs[0]] + rest ensures y in xs {
      if y != xs[0] {
        assert y in multiset(rest) && y in multiset(xs[1..]);
      }
    }
  }

  lemma {:induction false} SortSorted<T>(xs: seq<T>, leq: (T, T) -> bool)
    requires Consistent(xs, leq)
    ensures Sorted(Sort(xs, leq), leq)
    decreases |xs|
  {
    if xs == [] {
    } else {
      var rest := Sort(xs[1..], leq);
      ConsistentWithin(xs, xs[1..], leq);
      SortSorted(xs[1..], leq);
      SortedRestWithin(xs, leq);
      ConsistentWithin(xs, [xs[0]] + rest, leq);
      InsertSorted(xs[0], rest, leq);
    }
  }

  lemma AlikeFirst<T>(xs: seq<T>, x: T, leq: (T, T) -> bool)
    requires xs != []
    ensures Alike(xs, x, leq) == Alike([xs[0]], x, leq) + Alike(xs[1..], x, leq)
  {
    assert [xs[0]][1..] == [];
  }

  lemma SortedRestTransitive<T>(xs: seq<T>, leq: (T, T) -> bool, y: T)
    requires xs != [] && TransitiveOn([y] + xs, leq)
    ensures TransitiveOn([y] + xs[1..], leq) && TransitiveOn([xs[0], y] + Sort(xs[1..], leq), leq)
  {
    SortedRestWithin(xs, leq);
    hide Sort, TransitiveOn;
    var rest := Sort(xs[1..], leq);
    assert forall x | x in xs :: x in [y] + xs;
    ConsistentWithin([y] + xs, [y] + xs[1..], leq);
    assert forall x | x in [xs[0], y] + rest :: x == y || x in [xs[0]] + rest;
    ConsistentWithin([y] + xs, [xs[0], y] + rest, leq);
  }

  lemma {:induction false} SortAlike<T>(xs: seq<T>, leq: (T, T) -> bool, y: T)
    requires TransitiveOn([y] + xs, leq)
    ensures Alike(Sort(xs, leq), y, leq) == Alike(xs, y, leq)
    decreases |xs|
  {
    hide TransitiveOn, Insert, Alike;
    if xs == [] {
    } else {
      SortedRestTransitive(xs, leq, y);
      SortAlike(xs[1..], leq, y);
      InsertAlike(xs[0], Sort(xs[1..], leq), leq, y);
      AlikeFirst(xs, y, leq);
    }
  }

  /** Insertion meets the contract whenever the comparison is consistent for the elements. */
  lemma SortIsStable<T>(xs: seq<T>, leq: (T, T) -> bool)
    requires Consistent(xs, leq)
    ensures IsStableSort(xs, Sort(xs, leq), leq)
  {
    SortSorted(xs, leq);
    SortMultiset(xs, leq);
    forall x | x in xs ensures Alike(Sort(xs, leq), x, leq) == Alike(xs, x, leq) {
      assert forall y | y in [x] + xs :: y in xs;
      SortAlike(xs, leq, x);
    }
  }

  lemma {:induction false} FirstAlikeIsFirst<T>(ys: seq<T>, x: T, leq: (T, T) -> bool)
    requires ys != [] && leq(x, ys[0]) && leq(ys[0], x)
    ensures Alike(ys, x, leq) == [ys[0]] + Alike(ys[1..], x, leq)
  {
  }

  /** The first of a sorted sequence is not above any of its elements. */
  lemma FirstIsLeast<T>(ys: seq<T>, y: T, leq: (T, T) -> bool)
    requires Sorted(ys, leq) && TotalOn(ys, leq) && y in ys
    ensures leq(ys[0], y)
  {
    var j :| 0 <= j < |ys| && ys[j] == y;
  }

  lemma FirstsAgree<T>(ys: seq<T>, zs: seq<T>, leq: (T, T) -> bool)
    requires TotalOn(ys, leq) && TotalOn(zs, leq) && Sorted(ys, leq) && Sorted(zs, leq)
    requires ys != [] && zs != [] && ys[0] in zs && zs[0] in ys
    requires Alike(ys, ys[0], leq) == Alike(zs, ys[0], leq)
    ensures ys[0] == zs[0]
  {
    hide Alike;
    FirstIsLeast(ys, zs[0], leq);
    FirstIsLeast(zs, ys[0], leq);
    FirstIsLeast(ys, ys[0], leq);
    hide TotalOn, Sorted;
    FirstAlikeIsFirst(ys, ys[0], leq);
    FirstAlikeIsFirst(zs, ys[0], leq);
    assert Alike(ys, ys[0], leq)[0] == ys[0] && Alike(zs, ys[0], leq)[0] == zs[0];
  }

  lemma RestMultiset<T>(ys: seq<T>)
    requires ys != []
    ensures multiset(ys[1..]) == multiset(ys) - multiset{ys[0]}
  {
    assert ys == [ys[0]] + ys[1..];
  }

  lemma RestAlike<T>(ys: seq<T>, zs: seq<T>, x: T, leq: (T, T) -> bool)
    requires ys != [] && zs != [] && ys[0] == zs[0] && Alike(ys, x, leq) == Alike(zs, x, leq)
    ensures Alike(ys[1..], x, leq) == Alike(zs[1..], x, leq)
  {
    var first := if leq(x, ys[0]) && leq(ys[0], x) then [ys[0]] else [];
    assert Alike(ys, x, leq)[|first|..] == Alike(ys[1..], x, leq);
    assert Alike(zs, x, leq)[|first|..] == Alike(zs[1..], x, leq);
  }

  /** There is only one stable sort, so any correct `sort_by` returns what `Sort` does. */
  lemma {:induction false} StableSortUnique<T>(ys: seq<T>, zs: seq<T>, leq: (T, T) -> bool)
    requires Consistent(ys, leq) && Sorted(ys, leq) && Sorted(zs, leq) && multiset(ys) == multiset(zs)
    requires forall x | x in ys :: Alike(ys, x, leq) == Alike(zs, x, leq)
    ensures ys == zs
    decreases |ys|
  {
    hide TotalOn, TransitiveOn, Sorted, Alike;
    assert |ys| == |multiset(ys)| == |multiset(zs)| == |zs|;
    if ys == [] {
    } else {
      SameFirst(ys, zs, leq);
      RestMultiset(ys);
      RestMultiset(zs);
      assert multiset(ys[1..]) == multiset(zs[1..]);
      RestConsistent(ys, leq);
      forall x | x in ys[1..] ensures Alike(ys[1..], x, leq) == Alike(zs[1..], x, leq) {
        RestAlike(ys, zs, x, leq);
      }
      RestSorted(ys, leq);
      RestSorted(zs, leq);
      StableSortUnique(ys[1..], zs[1..], leq);
      assert ys == [ys[0]] + ys[1..] && zs == [zs[0]] + zs[1..];
    }
  }

  lemma SameFirst<T>(ys: seq<T>, zs: seq<T>, leq: (T, T) -> bool)
    requires ys != [] && zs != [] && Consistent(ys, leq) && Sorted(ys, leq) && Sorted(zs, leq)
    requires multiset(ys) == multiset(zs) && forall x | x in ys :: Alike(ys, x, leq) == Alike(zs, x, leq)
    ensures ys[0] == zs[0]
  {
    hide TotalOn, TransitiveOn, Sorted, Alike;
    FirstIsThere(ys, zs);
    FirstIsThere(zs, ys);
    AllThere(zs, ys);
    ConsistentWithin(ys, zs, leq);
    assert ys[0] in ys;
    FirstsAgree(ys, zs, leq);
  }

  lemma FirstIsThere<T>(ys: seq<T>, zs: seq<T>)
    requires ys != [] && multiset(ys) == multiset(zs)
    ensures ys[0] in zs
  {
    assert ys[0] in multiset(ys) && ys[0] in multiset(zs);
  }

  lemma AllThere<T>(ys: seq<T>, zs: seq<T>)
    requires multiset(ys) == multiset(zs)
    ensures forall y | y in ys :: y in zs
  {
    forall y | y in ys ensures y in zs {
      assert y in multiset(ys) && y in multiset(zs);
    }
  }

  lemma RestConsistent<T>(ys: seq<T>, leq: (T, T) -> bool)
    requires ys != [] && Consistent(ys, leq)
    ensures Consistent(ys[1..], leq) && forall y | y in ys[1..] :: y in ys
  {
    hide TotalOn, TransitiveOn;
    ConsistentWithin(ys, ys[1..], leq);
  }

  lemma RestSorted<T>(ys: seq<T>, leq: (T, T) -> bool)
    requires ys != [] && Sorted(ys, leq)
    ensures Sorted(ys[1..], leq)
  {
  }

  // ---- sorting twice ----

  lemma {:induction false} AlikeKeepsOrder<T>(xs: seq<T>, x: T, leq: (T, T) -> bool, before: (T, T) -> bool)
    requires Sorted(xs, before)
    ensures Sorted(Alike(xs, x, leq), before)
    ensures forall y | y in Alike(xs, x, leq) :: y in xs
    decreases |xs|
  {
    if xs == [] {
    } else {
      assert Sorted(xs[1..], before);
      AlikeKeepsOrder(xs[1..], x, leq, before);
      forall y | y in Alike(xs[1..], x, leq) ensures before(xs[0], y) {
        var i :| 0 <= i < |xs[1..]| && xs[1..][i] == y;
        assert before(xs[0], xs[i + 1]);
      }
    }
  }

  lemma {:induction false} AlikeInOrder<T>(ys: seq<T>, x: T, leq: (T, T) -> bool, before: (T, T) -> bool, i: nat, j: nat)
    requires i < j < |ys| && Sorted(Alike(ys, x, leq), before)
    requires leq(x, ys[i]) && leq(ys[i], x) && leq(x, ys[j]) && leq(ys[j], x)
    ensures before(ys[i], ys[j])
    decreases |ys|
  {
    var rest := Alike(ys[1..], x, leq);
    if i > 0 {
      var all := Alike(ys, x, leq);
      assert all == rest || all[1..] == rest;
      assert forall a, b | 0 <= a < b < |rest| :: before(rest[a], rest[b]) by {
        assert forall a | 0 <= a < |rest| :: rest[a] == all[a + |all| - |rest|];
      }
      AlikeInOrder(ys[1..], x, leq, before, i - 1, j - 1);
    } else {
      AlikeIsThere(ys[1..], x, leq, j - 1);
      assert ys[1..][j - 1] == ys[j];
      var k :| 0 <= k < |rest| && rest[k] == ys[j];
      FirstAlikeIsFirst(ys, x, leq);
      assert Alike(ys, x, leq)[0] == ys[0] && Alike(ys, x, leq)[k + 1] == ys[j];
    }
  }

  lemma {:induction false} AlikeIsThere<T>(ys: seq<T>, x: T, leq: (T, T) -> bool, j: nat)
    requires j < |ys| && leq(x, ys[j]) && leq(ys[j], x)
    ensures ys[j] in Alike(ys, x, leq)
    decreases |ys|
  {
    if j == 0 {
    } else {
      AlikeIsThere(ys[1..], x, leq, j - 1);
    }
  }

  function Then<T>(leq: (T, T) -> bool, before: (T, T) -> bool): (T, T) -> bool {
    (x, y) => leq(x, y) && (leq(y, x) ==> before(x, y))
  }

  /** A stable sort of a sorted sequence is sorted by both comparisons, the last one first. */
  lemma SortTwice<T>(xs: seq<T>, ys: seq<T>, leq: (T, T) -> bool, before: (T, T) -> bool)
    requires Sorted(xs, before) && IsStableSort(xs, ys, leq) && TotalOn(xs, leq)
    ensures Sorted(ys, Then(leq, before))
  {
    SameElements(xs, ys);
    forall i, j | 0 <= i < j < |ys| ensures Then(leq, before)(ys[i], ys[j]) {
      assert leq(ys[i], ys[j]) && ys[i] in xs;
      if leq(ys[j], ys[i]) {
        AlikeKeepsOrder(xs, ys[i], leq, before);
        AlikeInOrder(ys, ys[i], leq, before, i, j);
      }
    }
  }
}
