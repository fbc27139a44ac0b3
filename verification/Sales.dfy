/** Customer sales: the report's customers, each with its invoices, after two stable sorts. */
module Sales {
  import opened Wrappers
  import opened Texts
  import opened Reports
  import opened Sorting
  import opened Ordering

  datatype Attached = Attached(
    id: Option<string>,
    docNumber: Option<string>,
    totalAmt: Option<int>,
    balance: Option<int>,
    txnDate: Option<string>)
  {
    function Date(): string { txnDate.GetOr("") }
    function Doc(): string { docNumber.GetOr("") }
  }

  datatype CustomerSales = CustomerSales(
    name: string,
    amount: int,
    customerId: Option<string>,
    invoices: seq<Attached>)
  {
    /** The date of the first invoice, "" when there is none. */
    function FirstDate(): string { if invoices == [] then "" else invoices[0].Date() }
  }

  /** Largest amount first, then by name. */
  predicate SalesLeq(a: CustomerSales, b: CustomerSales) {
    a.amount > b.amount || (a.amount == b.amount && LexLeq(a.name, b.name))
  }

  /** By first invoice date, then by name. */
  predicate CustomerLeq(a: CustomerSales, b: CustomerSales) {
    DateLeq(a.FirstDate(), b.FirstDate()) && (DateLeq(b.FirstDate(), a.FirstDate()) ==> LexLeq(a.name, b.name))
  }

  /** By date, then by document number. */
  predicate InvoiceLeq(a: Attached, b: Attached) {
    DateLeq(a.Date(), b.Date()) && (DateLeq(b.Date(), a.Date()) ==> NaturalLeq(a.Doc(), b.Doc()))
  }

  predicate IsCustomer(row: Row) { row.kind.Data? && !row.IsZero() }

  /** A customer per Data row with a non-zero amount, in report order. */
  function Customers(rows: seq<Row>): seq<CustomerSales> {
    if rows == [] then [] else
    (if IsCustomer(rows[0]) then [CustomerSales(rows[0].name, rows[0].amount.value, rows[0].entityId, [])] else [])
    + Customers(rows[1..])
  }

  method CustomerSalesRows(report: seq<Row>) returns (rows: seq<CustomerSales>)
    ensures IsStableSort(Customers(report), rows, SalesLeq)
  {
    rows := Customers(report);
    SalesConsistent(rows);
    SortIsStable(rows, SalesLeq);
    rows := Sort(rows, SalesLeq);
  }

  /** By customer id, or else by customer name. */
  predicate Matches(c: CustomerSales, invoice: Json, n: Numbers) {
    var id := TextOf(invoice.At("CustomerRef").At("value"), n);
    var name := TextOf(invoice.At("CustomerRef").At("name"), n);
    (c.customerId.Some? && id == c.customerId) || (name.Some? && Lower(Trim(name.value)) == Lower(Trim(c.name)))
  }

  function AttachedOf(invoice: Json, n: Numbers): Attached {
    Attached(
      TextOf(invoice.At("Id"), n),
      TextOf(invoice.At("DocNumber"), n),
      NumberOf(invoice.At("TotalAmt"), n),
      NumberOf(invoice.At("Balance"), n),
      TextOf(invoice.At("TxnDate"), n))
  }

  /** The customer's invoices, in the order QuickBooks sent them. */
  function Matching(c: CustomerSales, invoices: seq<Json>, n: Numbers): seq<Attached> {
    if invoices == [] then [] else
    (if Matches(c, invoices[0], n) then [AttachedOf(invoices[0], n)] else []) + Matching(c, invoices[1..], n)
  }

  function WithInvoices(c: CustomerSales, invoices: seq<Json>, n: Numbers): CustomerSales {
    c.(invoices := Sort(Matching(c, invoices, n), InvoiceLeq))
  }

  function AllWithInvoices(customers: seq<CustomerSales>, invoices: seq<Json>, n: Numbers): seq<CustomerSales> {
    seq(|customers|, i requires 0 <= i < |customers| => WithInvoices(customers[i], invoices, n))
  }

  method AttachInvoices(customers: seq<CustomerSales>, invoices: seq<Json>, n: Numbers)
    returns (result: seq<CustomerSales>)
    ensures IsStableSort(AllWithInvoices(customers, invoices, n), result, CustomerLeq)
  {
    result := customers;
    for k := 0 to |customers|
      invariant |result| == |customers| && result[k..] == customers[k..]
      invariant forall i | 0 <= i < k :: result[i] == WithInvoices(customers[i], invoices, n)
    {
      assert result[k] == result[k..][0] == customers[k];
      var matched := Matching(result[k], invoices, n);
      matched := Sort(matched, InvoiceLeq);
      result := result[k := result[k].(invoices := matched)];
    }
    assert result == AllWithInvoices(customers, invoices, n);
    CustomerConsistent(result);
    SortIsStable(result, CustomerLeq);
    result := Sort(result, CustomerLeq);
  }

  // ---- the comparisons ----

  lemma SalesConsistent(xs: seq<CustomerSales>)
    ensures Consistent(xs, SalesLeq)
  {
    forall x, y | x in xs && y in xs ensures SalesLeq(x, y) || SalesLeq(y, x) {
      LexTotal(x.name, y.name);
    }
    forall x, y, z | x in xs && y in xs && z in xs && SalesLeq(x, y) && SalesLeq(y, z) ensures SalesLeq(x, z) {
      if x.amount == z.amount {
        LexTransitive(x.name, y.name, z.name);
      }
    }
  }

  lemma CustomerConsistent(xs: seq<CustomerSales>)
    ensures Consistent(xs, CustomerLeq)
  {
    forall x, y | x in xs && y in xs ensures CustomerLeq(x, y) || CustomerLeq(y, x) {
      LexTotal(x.name, y.name);
      DateTotal(x.FirstDate(), y.FirstDate());
    }
    forall x, y, z | x in xs && y in xs && z in xs && CustomerLeq(x, y) && CustomerLeq(y, z) ensures CustomerLeq(x, z) {
      CustomerTransitive(x, y, z);
    }
  }

  lemma CustomerTransitive(x: CustomerSales, y: CustomerSales, z: CustomerSales)
    requires CustomerLeq(x, y) && CustomerLeq(y, z)
    ensures CustomerLeq(x, z)
  {
    DateTransitive(x.FirstDate(), y.FirstDate(), z.FirstDate());
    if DateLeq(z.FirstDate(), x.FirstDate()) {
      DateTransitive(z.FirstDate(), x.FirstDate(), y.FirstDate());
      DateTransitive(y.FirstDate(), z.FirstDate(), x.FirstDate());
      LexTransitive(x.name, y.name, z.name);
    }
  }

  /** Three invoices of one day that the comparison puts in a circle. */
  predicate Straddles(x: Attached, y: Attached, z: Attached) {
    x.Date() == y.Date() == z.Date() && Straddled(x.Doc(), y.Doc(), z.Doc())
  }

  ghost predicate HasStraddle(xs: seq<Attached>) {
    exists x, y, z | x in xs && y in xs && z in xs :: Straddles(x, y, z)
  }

  lemma InvoiceTransitiveUnless(x: Attached, y: Attached, z: Attached)
    requires InvoiceLeq(x, y) && InvoiceLeq(y, z) && !InvoiceLeq(x, z)
    ensures Straddles(x, y, z) || Straddles(y, z, x) || Straddles(z, x, y)
  {
    DateTransitive(x.Date(), y.Date(), z.Date());
    DateTransitive(z.Date(), x.Date(), y.Date());
    DateTransitive(y.Date(), z.Date(), x.Date());
    DateAntisymmetric(x.Date(), y.Date());
    DateAntisymmetric(y.Date(), z.Date());
    NaturalTransitiveUnless(x.Doc(), y.Doc(), z.Doc());
  }

  lemma StraddleBreaks(x: Attached, y: Attached, z: Attached)
    requires Straddles(x, y, z)
    ensures InvoiceLeq(x, y) && InvoiceLeq(y, z) && !InvoiceLeq(x, z)
  {
    DateTotal(x.Date(), x.Date());
    StraddledBreaks(x.Doc(), y.Doc(), z.Doc());
  }

  /** The invoice comparison is consistent exactly for the lists without such a triple. */
  lemma InvoiceConsistentIff(xs: seq<Attached>)
    ensures Consistent(xs, InvoiceLeq) <==> !HasStraddle(xs)
  {
    forall x, y | x in xs && y in xs ensures InvoiceLeq(x, y) || InvoiceLeq(y, x) {
      DateTotal(x.Date(), y.Date());
      NaturalTotal(x.Doc(), y.Doc());
    }
    if HasStraddle(xs) {
      var x, y, z :| x in xs && y in xs && z in xs && Straddles(x, y, z);
      StraddleBreaks(x, y, z);
      assert !TransitiveOn(xs, InvoiceLeq);
    } else {
      forall x, y, z | x in xs && y in xs && z in xs && InvoiceLeq(x, y) && InvoiceLeq(y, z) ensures InvoiceLeq(x, z) {
        if !InvoiceLeq(x, z) {
          InvoiceTransitiveUnless(x, y, z);
        }
      }
    }
  }

  /** In particular it is when the document numbers all parse, or all do not. */
  lemma UniformDocsConsistent(xs: seq<Attached>)
    requires (forall x | x in xs :: ParseU64(x.Doc()).Some?) || (forall x | x in xs :: ParseU64(x.Doc()).None?)
    ensures Consistent(xs, InvoiceLeq)
  {
    hide ParseU64;
    InvoiceConsistentIff(xs);
  }

  /** A circle of different numbers leaves no order in which the list is sorted. */
  lemma NoSortedOrder(xs: seq<Attached>, x: Attached, y: Attached, z: Attached)
    requires x in xs && y in xs && z in xs && Straddles(x, y, z)
    requires ParseU64(x.Doc()) != ParseU64(y.Doc())
    ensures !Sorted(xs, InvoiceLeq)
  {
    hide ParseU64;
    var i :| 0 <= i < |xs| && xs[i] == x;
    var j :| 0 <= j < |xs| && xs[j] == y;
    var k :| 0 <= k < |xs| && xs[k] == z;
    StraddleBreaks(x, y, z);
    DateTotal(x.Date(), x.Date());
    if LexLeq(z.Doc(), y.Doc()) {
      LexAntisymmetric(y.Doc(), z.Doc());
    }
    assert !InvoiceLeq(y, x) && !InvoiceLeq(z, y) && !InvoiceLeq(x, z);
    assert i != j && j != k && i != k;
  }
}
