/** Which lists of invoices can be put in order at all, although the comparison is no order on every list. */
module InvoiceOrder {
  import opened Ordering
  import opened Sorting
  import opened Sales
  import opened SalesTheorems

  /** Three invoices of one day of which each must stand before the next. */
  predicate IsCircle(x: Attached, y: Attached, z: Attached) {
    Straddles(x, y, z) && ParseU64(x.Doc()) != ParseU64(y.Doc())
  }

  ghost predicate HasCircle(xs: seq<Attached>) {
    exists x, y, z | x in xs && y in xs && z in xs :: IsCircle(x, y, z)
  }

  function Where(xs: seq<Attached>, p: Attached -> bool): (r: seq<Attached>)
    ensures forall x :: x in r <==> x in xs && p(x)
  {
    if xs == [] then [] else
    assert forall x :: x in xs <==> x == xs[0] || x in xs[1..];
    (if p(xs[0]) then [xs[0]] else []) + Where(xs[1..], p)
  }

  lemma Least<T>(xs: seq<T>, leq: (T, T) -> bool) returns (least: T)
    requires xs != [] && Consistent(xs, leq)
    ensures least in xs && forall x | x in xs :: leq(least, x)
  {
    var sorted := Sort(xs, leq);
    SortSorted(xs, leq);
    SortMultiset(xs, leq);
    hide Sort, TransitiveOn;
    forall x | x in sorted ensures x in xs {
      assert x in multiset(sorted) && x in multiset(xs);
    }
    ConsistentWithin(xs, sorted, leq);
    assert xs[0] in multiset(sorted);
    least := sorted[0];
    forall x | x in xs ensures leq(least, x) {
      assert x in multiset(xs) && x in multiset(sorted);
      FirstIsLeast(sorted, x, leq);
    }
  }

  predicate ByDate(a: Attached, b: Attached) { DateLeq(a.Date(), b.Date()) }

  predicate ByText(a: Attached, b: Attached) { LexLeq(a.Doc(), b.Doc()) }

  /** Numbers by value, equal ones as text; anything else is not compared. */
  predicate ByNumber(a: Attached, b: Attached) {
    IsNumber(a.Doc()) && IsNumber(b.Doc()) &&
    var x, y := ParseU64(a.Doc()).value, ParseU64(b.Doc()).value;
    x < y || (x == y && LexLeq(a.Doc(), b.Doc()))
  }

  lemma ByDateConsistent(xs: seq<Attached>)
    ensures Consistent(xs, ByDate)
  {
    hide DateLeq;
    forall x, y | x in xs && y in xs ensures ByDate(x, y) || ByDate(y, x) {
      DateTotal(x.Date(), y.Date());
    }
    forall x, y, z | x in xs && y in xs && z in xs && ByDate(x, y) && ByDate(y, z) ensures ByDate(x, z) {
      DateTransitive(x.Date(), y.Date(), z.Date());
    }
  }

  lemma ByTextConsistent(xs: seq<Attached>)
    ensures Consistent(xs, ByText)
  {
    hide LexLeq;
    forall x, y | x in xs && y in xs ensures ByText(x, y) || ByText(y, x) {
      LexTotal(x.Doc(), y.Doc());
    }
    forall x, y, z | x in xs && y in xs && z in xs && ByText(x, y) && ByText(y, z) ensures ByText(x, z) {
      LexTransitive(x.Doc(), y.Doc(), z.Doc());
    }
  }

  lemma ByNumberConsistent(xs: seq<Attached>)
    requires forall x | x in xs :: IsNumber(x.Doc())
    ensures Consistent(xs, ByNumber)
  {
    hide LexLeq, ParseU64;
    forall x, y | x in xs && y in xs ensures ByNumber(x, y) || ByNumber(y, x) {
      LexTotal(x.Doc(), y.Doc());
    }
    forall x, y, z | x in xs && y in xs && z in xs && ByNumber(x, y) && ByNumber(y, z) ensures ByNumber(x, z) {
      if LexLeq(x.Doc(), y.Doc()) && LexLeq(y.Doc(), z.Doc()) {
        LexTransitive(x.Doc(), y.Doc(), z.Doc());
      }
    }
  }

  predicate MayPrecede(e: Attached, xs: seq<Attached>) { forall x | x in xs :: NaturalLeq(e.Doc(), x.Doc()) }

  /** A text below the least number stands before all numbers, unless there is a circle. */
  lemma TextBelowNumbers(text: Attached, least: Attached, number: Attached)
    requires text.Date() == least.Date() == number.Date()
    requires !IsNumber(text.Doc()) && ByNumber(least, number)
    requires LexLeq(text.Doc(), least.Doc()) && !IsCircle(least, number, text)
    ensures LexLeq(text.Doc(), number.Doc())
  {
    hide ParseU64, LexLeq;
    LexTotal(text.Doc(), number.Doc());
    if LexLeq(number.Doc(), text.Doc()) && ParseU64(least.Doc()) == ParseU64(number.Doc()) {
      LexTransitive(least.Doc(), number.Doc(), text.Doc());
      LexAntisymmetric(least.Doc(), text.Doc());
    }
  }

  lemma LeastText(xs: seq<Attached>) returns (e: Attached)
    requires xs != []
    ensures e in xs && forall x | x in xs :: LexLeq(e.Doc(), x.Doc())
  {
    ByTextConsistent(xs);
    hide Consistent, LexLeq;
    e := Least(xs, ByText);
  }

  lemma LeastNumber(xs: seq<Attached>) returns (e: Attached)
    requires xs != [] && forall x | x in xs :: IsNumber(x.Doc())
    ensures e in xs && forall x | x in xs :: ByNumber(e, x)
  {
    ByNumberConsistent(xs);
    hide Consistent, ByNumber;
    e := Least(xs, ByNumber);
  }

  lemma FirstOfDay(xs: seq<Attached>) returns (e: Attached)
    requires xs != [] && !HasCircle(xs) && forall x, y | x in xs && y in xs :: x.Date() == y.Date()
    ensures e in xs && MayPrecede(e, xs)
  {
    hide ParseU64, LexLeq;
    var texts := Where(xs, (x: Attached) => !IsNumber(x.Doc()));
    var numbers := Where(xs, (x: Attached) => IsNumber(x.Doc()));
    if numbers == [] {
      e := LeastText(xs);
      assert forall x | x in xs :: !IsNumber(x.Doc());
    } else {
      var n := LeastNumber(numbers);
      if texts == [] {
        e := n;
        assert forall x | x in xs :: x in numbers;
      } else {
        var t := LeastText(texts);
        e := FirstOfBoth(xs, n, t);
      }
    }
  }

  lemma FirstOfBoth(xs: seq<Attached>, n: Attached, t: Attached) returns (e: Attached)
    requires !HasCircle(xs) && (forall x, y | x in xs && y in xs :: x.Date() == y.Date())
    requires n in xs && t in xs && IsNumber(n.Doc()) && !IsNumber(t.Doc())
    requires forall x | x in xs && IsNumber(x.Doc()) :: ByNumber(n, x)
    requires forall x | x in xs && !IsNumber(x.Doc()) :: LexLeq(t.Doc(), x.Doc())
    ensures e in xs && MayPrecede(e, xs)
  {
    hide ParseU64, LexLeq;
    LexTotal(n.Doc(), t.Doc());
    e := if LexLeq(n.Doc(), t.Doc()) then n else t;
    forall x | x in xs ensures NaturalLeq(e.Doc(), x.Doc()) {
      if IsNumber(x.Doc()) {
        assert ByNumber(n, x);
        if e == t {
          assert !IsCircle(n, x, t);
          TextBelowNumbers(t, n, x);
        }
      } else if e == n {
        LexTransitive(n.Doc(), t.Doc(), x.Doc());
      }
    }
  }

  /** Without a circle some invoice may stand before all others. */
  lemma FirstExists(xs: seq<Attached>) returns (e: Attached)
    requires xs != [] && !HasCircle(xs)
    ensures e in xs && forall x | x in xs :: InvoiceLeq(e, x)
  {
    hide NaturalLeq, ParseU64, LexLeq, DateLeq, IsCircle;
    ByDateConsistent(xs);
    var earliest := Least(xs, ByDate);
    var day := Where(xs, (x: Attached) => x.Date() == earliest.Date());
    assert earliest in day;
    assert !HasCircle(day);
    e := FirstOfDay(day);
    forall x | x in xs ensures InvoiceLeq(e, x) {
      assert ByDate(earliest, x);
      DateAntisymmetric(x.Date(), earliest.Date());
      if DateLeq(x.Date(), e.Date()) {
        assert x in day;
      }
    }
  }

  lemma FewerStillNoCircle(xs: seq<Attached>, ys: seq<Attached>)
    requires !HasCircle(xs) && forall y | y in ys :: y in xs
    ensures !HasCircle(ys)
  {
    hide IsCircle;
  }

  lemma FirstThenSorted(e: Attached, rest: seq<Attached>)
    requires Sorted(rest, InvoiceLeq) && forall x | x in rest :: InvoiceLeq(e, x)
    ensures Sorted([e] + rest, InvoiceLeq)
  {
    hide InvoiceLeq;
  }

  lemma {:induction false} Arrange(xs: seq<Attached>) returns (order: seq<Attached>)
    requires !HasCircle(xs)
    ensures multiset(order) == multiset(xs) && Sorted(order, InvoiceLeq)
    decreases |xs|
  {
    hide HasCircle, InvoiceLeq;
    if xs == [] {
      order := [];
    } else {
      var e := FirstExists(xs);
      var i :| 0 <= i < |xs| && xs[i] == e;
      var rest := Without(xs, i);
      assert forall x | x in rest :: x in xs;
      FewerStillNoCircle(xs, rest);
      WithoutMultiset(xs, i);
      hide Without;
      var later := Arrange(rest);
      SameElements(later, rest);
      FirstThenSorted(e, later);
      order := [e] + later;
      assert multiset(order) == multiset{e} + multiset(later);
      assert e in multiset(xs);
    }
  }

  /**
   The invoices can be put in order exactly when no three of one day are in a circle: two numbers of different
   values and a text that stands between them the other way round.
   */
  lemma SortableIff(xs: seq<Attached>)
    ensures (exists order: seq<Attached> :: multiset(order) == multiset(xs) && Sorted(order, InvoiceLeq))
       <==> !HasCircle(xs)
  {
    hide InvoiceLeq, IsCircle;
    if !HasCircle(xs) {
      var order := Arrange(xs);
    } else {
      var x, y, z :| x in xs && y in xs && z in xs && IsCircle(x, y, z);
      forall order: seq<Attached> | multiset(order) == multiset(xs) ensures !Sorted(order, InvoiceLeq) {
        SameElements(order, xs);
        CircleIsUnsorted(order, x, y, z);
      }
    }
  }

  lemma CircleIsUnsorted(order: seq<Attached>, x: Attached, y: Attached, z: Attached)
    requires x in order && y in order && z in order && IsCircle(x, y, z)
    ensures !Sorted(order, InvoiceLeq)
  {
    hide InvoiceLeq, Straddles, ParseU64;
    NoSortedOrder(order, x, y, z);
  }
}
