/** What the two sorts of the customer sales give together. */
module SalesTheorems {
  import opened Wrappers
  import opened Texts
  import opened Reports
  import opened ReportOutlines
  import opened Sorting
  import opened Ordering
  import opened Sales

  function Bare(c: CustomerSales): CustomerSales { c.(invoices := []) }

  function Images<T, U>(xs: seq<T>, f: T -> U): (r: seq<U>)
    ensures |r| == |xs| && forall i | 0 <= i < |xs| :: r[i] == f(xs[i])
  {
    if xs == [] then [] else [f(xs[0])] + Images(xs[1..], f)
  }

  function Without<T>(xs: seq<T>, i: nat): (r: seq<T>)
    requires i < |xs|
    ensures |r| == |xs| - 1
  {
    xs[..i] + xs[i + 1..]
  }

  lemma WithoutMultiset<T>(xs: seq<T>, i: nat)
    requires i < |xs|
    ensures multiset(Without(xs, i)) == multiset(xs) - multiset{xs[i]}
  {
    assert xs == xs[..i] + ([xs[i]] + xs[i + 1..]);
  }

  lemma WithoutAt<T>(xs: seq<T>, i: nat, k: nat)
    requires i < |xs| && k < |xs| - 1
    ensures Without(xs, i)[k] == xs[if k < i then k else k + 1]
  {
  }

  lemma ImagesWithout<T, U>(xs: seq<T>, i: nat, f: T -> U)
    requires i < |xs|
    ensures Images(Without(xs, i), f) == Without(Images(xs, f), i)
  {
    hide Images, Without;
    forall k | 0 <= k < |xs| - 1 ensures Images(Without(xs, i), f)[k] == Without(Images(xs, f), i)[k] {
      WithoutAt(xs, i, k);
      WithoutAt(Images(xs, f), i, k);
    }
  }

  lemma Restored<T>(a: multiset<T>, b: multiset<T>, x: T)
    requires x in a && x in b && a - multiset{x} == b - multiset{x}
    ensures a == b
  {
    assert a == a - multiset{x} + multiset{x} && b == b - multiset{x} + multiset{x};
  }

  lemma {:induction false} SameImages<T, U>(xs: seq<T>, ys: seq<T>, f: T -> U)
    requires multiset(xs) == multiset(ys)
    ensures multiset(Images(xs, f)) == multiset(Images(ys, f))
    decreases |xs|
  {
    hide Images;
    assert |xs| == |multiset(xs)| == |multiset(ys)| == |ys|;
    if xs == [] {
      assert ys == [];
    } else {
      SameElements(xs, ys);
      assert xs[0] in ys;
      var i :| 0 <= i < |ys| && ys[i] == xs[0];
      WithoutMultiset(xs, 0);
      WithoutMultiset(ys, i);
      hide Without;
      SameImages(Without(xs, 0), Without(ys, i), f);
      ImagesWithout(xs, 0, f);
      ImagesWithout(ys, i, f);
      WithoutMultiset(Images(xs, f), 0);
      WithoutMultiset(Images(ys, f), i);
      assert f(xs[0]) in multiset(Images(xs, f)) && f(ys[i]) in multiset(Images(ys, f)) by {
        assert Images(xs, f)[0] == f(xs[0]) && Images(ys, f)[i] == f(ys[i]);
      }
      Restored(multiset(Images(xs, f)), multiset(Images(ys, f)), f(xs[0]));
    }
  }

  lemma {:induction false} CustomersAreBare(rows: seq<Row>)
    ensures Images(Customers(rows), Bare) == Customers(rows)
    ensures forall c | c in Customers(rows) :: c.amount != 0
  {
    if rows == [] {
    } else {
      CustomersAreBare(rows[1..]);
    }
  }

  /** Adding invoices changes neither the order by sales nor the customers themselves. */
  lemma InvoicesKeepCustomers(customers: seq<CustomerSales>, invoices: seq<Json>, n: Numbers)
    ensures Images(AllWithInvoices(customers, invoices, n), Bare) == Images(customers, Bare)
    ensures Sorted(customers, SalesLeq) ==> Sorted(AllWithInvoices(customers, invoices, n), SalesLeq)
  {
    hide Images, LexLeq;
    var attached := AllWithInvoices(customers, invoices, n);
    forall k | 0 <= k < |customers| ensures Images(attached, Bare)[k] == Images(customers, Bare)[k] {
      assert Bare(attached[k]) == Bare(customers[k]);
    }
    assert Images(attached, Bare) == Images(customers, Bare);
    if Sorted(customers, SalesLeq) {
      forall i, j | 0 <= i < j < |attached| ensures SalesLeq(attached[i], attached[j]) {
        assert SalesLeq(customers[i], customers[j]);
        assert attached[i] == WithInvoices(customers[i], invoices, n);
        assert attached[j] == WithInvoices(customers[j], invoices, n);
      }
    }
  }

  /** The text of an optional field, "" when it is missing. */
  function Given(text: Option<string>): string { if text.Some? then text.value else "" }

  function FirstDateOf(c: CustomerSales): string { if c.invoices == [] then "" else Given(c.invoices[0].txnDate) }

  /** By the date of the first invoice, none last; of one date, by name; of one name, the larger amount. */
  ghost predicate ComesBefore(a: CustomerSales, b: CustomerSales) {
    var d, e := FirstDateOf(a), FirstDateOf(b);
    || (d != "" && (e == "" || ComesFirst(d, e)))
    || (d == e && (ComesFirst(a.name, b.name) || (a.name == b.name && a.amount >= b.amount)))
  }

  lemma ComesBeforeIff(a: CustomerSales, b: CustomerSales)
    ensures Then(CustomerLeq, SalesLeq)(a, b) <==> ComesBefore(a, b)
  {
    var d, e := FirstDateOf(a), FirstDateOf(b);
    assert a.FirstDate() == d && b.FirstDate() == e;
    LexIff(d, e);
    LexIff(e, d);
    LexIff(a.name, b.name);
    LexIff(b.name, a.name);
    NotBoth(d, e);
    NotBoth(a.name, b.name);
    hide LexLeq, ComesFirst;
    assert Then(CustomerLeq, SalesLeq)(a, b) <==> CustomerLeq(a, b) && (CustomerLeq(b, a) ==> SalesLeq(a, b));
    assert DateLeq(d, e) <==> d == e || (d != "" && (e == "" || ComesFirst(d, e)));
    assert DateLeq(e, d) <==> d == e || (e != "" && (d == "" || ComesFirst(e, d)));
    assert LexLeq(a.name, b.name) <==> a.name == b.name || ComesFirst(a.name, b.name);
    assert LexLeq(b.name, a.name) <==> a.name == b.name || ComesFirst(b.name, a.name);
  }

  lemma AllComeBefore(cs: seq<CustomerSales>)
    requires Sorted(cs, Then(CustomerLeq, SalesLeq))
    ensures forall i, j | 0 <= i < j < |cs| :: ComesBefore(cs[i], cs[j])
  {
    hide ComesBefore;
    forall i, j | 0 <= i < j < |cs| ensures ComesBefore(cs[i], cs[j]) {
      ComesBeforeIff(cs[i], cs[j]);
    }
  }

  lemma NotBoth(a: string, b: string)
    ensures LexLeq(a, b) && LexLeq(b, a) ==> a == b
    ensures LexLeq(a, b) || LexLeq(b, a)
    ensures ComesFirst(a, b) ==> !ComesFirst(b, a) && a != b
  {
    LexTotal(a, b);
    LexIff(a, b);
    LexIff(b, a);
    hide ComesFirst;
    if LexLeq(a, b) && LexLeq(b, a) {
      LexAntisymmetric(a, b);
    }
    FirstIsProper(a, b);
    FirstIsProper(b, a);
  }

  lemma FirstIsProper(a: string, b: string)
    ensures ComesFirst(a, b) ==> a != b
  {
  }

  lemma SortedByBoth(
    rows: seq<CustomerSales>, invoices: seq<Json>, n: Numbers, result: seq<CustomerSales>)
    requires Sorted(rows, SalesLeq) && IsStableSort(AllWithInvoices(rows, invoices, n), result, CustomerLeq)
    ensures forall i, j | 0 <= i < j < |result| :: ComesBefore(result[i], result[j])
  {
    var attached := AllWithInvoices(rows, invoices, n);
    InvoicesKeepCustomers(rows, invoices, n);
    CustomerConsistent(attached);
    hide ComesBefore, AllWithInvoices, IsStableSort;
    SortTwice(attached, result, CustomerLeq, SalesLeq);
    AllComeBefore(result);
  }

  lemma SameCustomers(
    report: seq<Row>, rows: seq<CustomerSales>, invoices: seq<Json>, n: Numbers, result: seq<CustomerSales>)
    requires multiset(rows) == multiset(Customers(report))
    requires multiset(result) == multiset(AllWithInvoices(rows, invoices, n))
    ensures multiset(Images(result, Bare)) == multiset(Customers(report))
  {
    hide Images, AllWithInvoices, Customers;
    InvoicesKeepCustomers(rows, invoices, n);
    SameImages(AllWithInvoices(rows, invoices, n), result, Bare);
    SameImages(Customers(report), rows, Bare);
    CustomersAreBare(report);
  }

  lemma HasItsInvoices(rows: seq<CustomerSales>, invoices: seq<Json>, n: Numbers, result: seq<CustomerSales>)
    requires multiset(result) == multiset(AllWithInvoices(rows, invoices, n))
    ensures forall c | c in result :: c.invoices == Sort(Matching(c, invoices, n), InvoiceLeq)
  {
    var attached := AllWithInvoices(rows, invoices, n);
    SameElements(attached, result);
    forall c | c in result ensures c.invoices == Sort(Matching(c, invoices, n), InvoiceLeq) {
      var i :| 0 <= i < |attached| && attached[i] == c;
      MatchingIgnoresInvoices(rows[i], c, invoices, n);
    }
  }

  /** Customers come out by first invoice date, then name, then falling amount: none is lost, added or changed. */
  lemma CustomersInOrder(
    report: seq<Row>, rows: seq<CustomerSales>, invoices: seq<Json>, n: Numbers, result: seq<CustomerSales>)
    requires IsStableSort(Customers(report), rows, SalesLeq)
    requires IsStableSort(AllWithInvoices(rows, invoices, n), result, CustomerLeq)
    ensures forall i, j | 0 <= i < j < |result| :: ComesBefore(result[i], result[j])
    ensures multiset(Images(result, Bare)) == multiset(Customers(report))
    ensures forall c | c in result :: c.invoices == Sort(Matching(c, invoices, n), InvoiceLeq)
  {
    hide ComesBefore, AllWithInvoices, Images, Matching, Sort, Alike, Customers;
    SortedByBoth(rows, invoices, n, result);
    SameCustomers(report, rows, invoices, n, result);
    HasItsInvoices(rows, invoices, n, result);
  }

  lemma {:induction false} MatchingIgnoresInvoices(c: CustomerSales, d: CustomerSales, invoices: seq<Json>, n: Numbers)
    requires Bare(c) == Bare(d)
    ensures Matching(c, invoices, n) == Matching(d, invoices, n)
  {
    if invoices == [] {
    } else {
      assert c.name == Bare(c).name == d.name && c.customerId == Bare(c).customerId == d.customerId;
      MatchingIgnoresInvoices(c, d, invoices[1..], n);
    }
  }

  ghost predicate IsNoNumber(doc: string) { forall m: nat :: !IsDecimal(doc, m) }

  /** Two numbers by value, and anything else as text. */
  ghost predicate DocBefore(a: string, b: string) {
    && (forall m: nat, k: nat | IsDecimal(a, m) && IsDecimal(b, k) :: m <= k)
    && (IsNoNumber(a) || IsNoNumber(b) ==> a == b || ComesFirst(a, b))
  }

  /** An earlier date, missing ones last; of one date, the document number that comes first. */
  ghost predicate InvoiceBefore(x: Attached, y: Attached) {
    var d, e := Given(x.txnDate), Given(y.txnDate);
    (d != "" && (e == "" || ComesFirst(d, e))) || (d == e && DocBefore(Given(x.docNumber), Given(y.docNumber)))
  }

  lemma DocBeforeIff(a: string, b: string)
    ensures NaturalLeq(a, b) <==> DocBefore(a, b)
  {
    hide ParseU64, IsDecimal, ComesFirst, LexLeq;
    forall m: nat ensures ParseU64(a) == Some(m) <==> IsDecimal(a, m)
      ensures ParseU64(b) == Some(m) <==> IsDecimal(b, m) {
      ParseU64Iff(a, m);
      ParseU64Iff(b, m);
    }
    LexIff(a, b);
    assert IsNumber(a) <==> !IsNoNumber(a);
    assert IsNumber(b) <==> !IsNoNumber(b);
  }

  lemma InvoiceBeforeIff(x: Attached, y: Attached)
    ensures InvoiceLeq(x, y) <==> InvoiceBefore(x, y)
  {
    var d, e := Given(x.txnDate), Given(y.txnDate);
    assert x.Date() == d && y.Date() == e && x.Doc() == Given(x.docNumber) && y.Doc() == Given(y.docNumber);
    LexIff(d, e);
    LexIff(e, d);
    NotBoth(d, e);
    DocBeforeIff(x.Doc(), y.Doc());
    hide LexLeq, ComesFirst, NaturalLeq, DocBefore;
    assert DateLeq(d, e) <==> d == e || (d != "" && (e == "" || ComesFirst(d, e)));
    assert DateLeq(e, d) <==> d == e || (e != "" && (d == "" || ComesFirst(e, d)));
  }

  /** A customer's invoices are the matching ones in order, and the first has the earliest date. */
  lemma InvoicesInOrder(c: CustomerSales, invoices: seq<Json>, n: Numbers)
    requires c.invoices == Sort(Matching(c, invoices, n), InvoiceLeq)
    requires !HasStraddle(Matching(c, invoices, n))
    ensures IsStableSort(Matching(c, invoices, n), c.invoices, InvoiceLeq)
    ensures forall i, j | 0 <= i < j < |c.invoices| :: InvoiceBefore(c.invoices[i], c.invoices[j])
  {
    var matched := Matching(c, invoices, n);
    InvoiceConsistentIff(matched);
    SortIsStable(matched, InvoiceLeq);
    hide InvoiceBefore;
    forall i, j | 0 <= i < j < |c.invoices| ensures InvoiceBefore(c.invoices[i], c.invoices[j]) {
      InvoiceBeforeIff(c.invoices[i], c.invoices[j]);
    }
  }

  /** Wherever an invoice stands, it is attached exactly once when it matches, and leaves no trace otherwise. */
  lemma {:induction false} InvoiceAttachedIffMatching(
    c: CustomerSales, before: seq<Json>, invoice: Json, after: seq<Json>, n: Numbers)
    ensures Matching(c, before + [invoice] + after, n) ==
            Matching(c, before, n) + (if Matches(c, invoice, n) then [AttachedOf(invoice, n)] else [])
            + Matching(c, after, n)
    decreases |before|
  {
    hide Matches, AttachedOf;
    var all := before + [invoice] + after;
    if before == [] {
      assert all[0] == invoice && all[1..] == after;
    } else {
      assert all[0] == before[0] && all[1..] == before[1..] + [invoice] + after;
      InvoiceAttachedIffMatching(c, before[1..], invoice, after, n);
    }
  }

  /** By the customer's id, or else by its name without regard to case and the white space around it. */
  lemma MatchesIff(c: CustomerSales, invoice: Json, n: Numbers)
    ensures Matches(c, invoice, n) <==>
            || (c.customerId.Some? && SendsText(invoice.At("CustomerRef").At("value"), c.customerId, n))
            || exists name :: SendsText(invoice.At("CustomerRef").At("name"), Some(name), n) && SameName(name, c.name)
  {
    var id, name := invoice.At("CustomerRef").At("value"), invoice.At("CustomerRef").At("name");
    TextIff(id, c.customerId, n);
    TextIff(name, TextOf(name, n), n);
    if TextOf(name, n).Some? {
      SameNameIff(TextOf(name, n).value, c.name);
    }
    if other :| SendsText(name, Some(other), n) && SameName(other, c.name) {
      TextIff(name, Some(other), n);
    }
    hide TextOf, SendsText, SameName;
  }

  /** Each attached value comes from the field of its name. */
  lemma AttachedIff(invoice: Json, a: Attached, n: Numbers)
    ensures AttachedOf(invoice, n) == a <==>
            && SendsText(invoice.At("Id"), a.id, n) && SendsText(invoice.At("DocNumber"), a.docNumber, n)
            && SendsAmount(invoice.At("TotalAmt"), a.totalAmt, n) && SendsAmount(invoice.At("Balance"), a.balance, n)
            && SendsText(invoice.At("TxnDate"), a.txnDate, n)
  {
    TextIff(invoice.At("Id"), a.id, n);
    TextIff(invoice.At("DocNumber"), a.docNumber, n);
    TextIff(invoice.At("TxnDate"), a.txnDate, n);
    AmountIff(invoice.At("TotalAmt"), a.totalAmt, n);
    AmountIff(invoice.At("Balance"), a.balance, n);
    hide TextOf, SendsText, NumberOf, SendsAmount;
  }

  /** A data row with an amount other than zero is a customer, and nothing else is. */
  function CustomerOf(row: Row): seq<CustomerSales> {
    if row.kind == Data && row.amount.Some? && row.amount.value != 0
    then [CustomerSales(row.name, row.amount.value, row.entityId, [])] else []
  }

  lemma FirstCustomer(rows: seq<Row>)
    requires rows != []
    ensures Customers(rows) == CustomerOf(rows[0]) + Customers(rows[1..])
  {
  }

  /** Wherever a row stands, it gives the customer that it is. */
  lemma {:induction false} CustomerIffNonZeroData(before: seq<Row>, row: Row, after: seq<Row>)
    ensures Customers(before + [row] + after) == Customers(before) + CustomerOf(row) + Customers(after)
    decreases |before|
  {
    var all := before + [row] + after;
    FirstCustomer(all);
    if before == [] {
      assert Customers(before) == [];
      hide Customers, CustomerOf;
      assert all[0] == row && all[1..] == after;
      assert [] + CustomerOf(row) == CustomerOf(row);
    } else {
      FirstCustomer(before);
      hide Customers, CustomerOf;
      assert all[0] == before[0] && all[1..] == before[1..] + [row] + after;
      CustomerIffNonZeroData(before[1..], row, after);
      Regroup(CustomerOf(before[0]), Customers(before[1..]), CustomerOf(row), Customers(after));
    }
  }

  lemma Regroup<T>(a: seq<T>, b: seq<T>, c: seq<T>, d: seq<T>)
    ensures a + (b + c + d) == a + b + c + d
  {
  }
}
