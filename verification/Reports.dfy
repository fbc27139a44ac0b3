/** QuickBooks reports: flattening the report tree into rows, and dropping zero rows. */
module Reports {
  import opened Wrappers
  import opened Texts

  datatype Json =
    | Null
    | Bool(b: bool)
    | Number(cents: int)
    | Text(s: string)
    | Array(items: seq<Json>)
    | Object(fields: map<string, Json>)
  {
    /** `value.get(key)` */
    function Get(key: string): (r: Option<Json>)
      ensures r.Some? <==> Object? && key in fields
      ensures r.Some? ==> r.value == fields[key] && r.value < this
    {
      if Object? && key in fields then Some(fields[key]) else None
    }

    /** `value[key]`, which is `null` when there is no such field. */
    function At(key: string): (r: Json)
      ensures r != Null ==> r < this
    {
      Get(key).GetOr(Null)
    }
  }

  /** The number formats of the standard library: amounts in cents as text, and back where a text is a number. */
  datatype Numbers = Numbers(show: int -> string, parse: string -> Option<int>)

  function TextOf(value: Json, n: Numbers): Option<string> {
    match value
    case Text(s) => if Trim(s) != "" then Some(s) else None
    case Number(cents) => Some(n.show(cents))
    case _ => None
  }

  /** `s.replace(c, "")` */
  function Without(s: string, c: char): string {
    if s == "" then "" else (if s[0] == c then "" else [s[0]]) + Without(s[1..], c)
  }

  /** A number, also as text, with white space around it and commas between the thousands. */
  function NumberOf(value: Json, n: Numbers): Option<int> {
    match value
    case Number(cents) => Some(cents)
    case Text(s) => n.parse(Without(Trim(s), ','))
    case _ => None
  }

  datatype RowKind = Section | Data | SectionTotal | GrandTotal

  datatype Row = Row(name: string, amount: Option<int>, depth: nat, kind: RowKind, entityId: Option<string>) {
    predicate IsZero() { amount.None? || amount.value == 0 }

    predicate IsNotSpecified() { kind.Data? && Lower(Trim(name)) == "not specified" }
  }

  function ListOf(value: Json): (r: seq<Json>)
    ensures forall item | item in r :: item == value || item < value
  {
    match value
    case Array(items) => items
    case Null => []
    case _ => [value]
  }

  /** The row for a header, summary or data holder, when its first cell has a name. */
  function NamedRow(holder: Json, depth: nat, kind: RowKind, n: Numbers): seq<Row> {
    var cols := ListOf(holder.At("ColData"));
    if cols == [] then [] else
    var name := TextOf(cols[0].At("value"), n);
    if name.None? then [] else
    var amount := if |cols| > 1 then NumberOf(cols[1].At("value"), n) else None;
    [Row(Trim(name.value), amount, depth, kind, if kind.Data? then TextOf(cols[0].At("id"), n) else None)]
  }

  /** The rows of a report, in order, with their nesting depth. */
  function Flatten(value: Json, depth: nat, n: Numbers): seq<Row>
    decreases value, 1
  {
    match value
    case Array(items) => FlattenList(items, depth, n)
    case Null => []
    case _ => FlattenRow(value, depth, n)
  }

  function FlattenList(items: seq<Json>, depth: nat, n: Numbers): seq<Row>
    decreases items
  {
    if items == [] then [] else FlattenRow(items[0], depth, n) + FlattenList(items[1..], depth, n)
  }

  predicate IsGrandTotal(row: Json) { row.At("group") == Text("GrandTotal") }

  function FlattenRow(row: Json, depth: nat, n: Numbers): seq<Row>
    decreases row, 0
  {
    if !row.Object? then []
    else if IsGrandTotal(row) then NamedRow(row.At("Summary"), depth, GrandTotal, n)
    else
      var hasHeader := row.Get("Header").Some?;
      (if hasHeader then NamedRow(row.At("Header"), depth, Section, n) else [])
      + (if row.At("Rows").Get("Row").Some? then
           Flatten(row.At("Rows").At("Row"), if hasHeader then depth + 1 else depth, n)
         else if row.Get("ColData").Some? then NamedRow(row, depth, Data, n)
         else [])
      + (if row.Get("Summary").Some? then NamedRow(row.At("Summary"), depth, SectionTotal, n) else [])
  }

  lemma {:induction false} FlattenAppend(items: seq<Json>, more: seq<Json>, depth: nat, n: Numbers)
    ensures FlattenList(items + more, depth, n) == FlattenList(items, depth, n) + FlattenList(more, depth, n)
    decreases |items|
  {
    hide FlattenRow;
    if items == [] {
      assert items + more == more;
    } else {
      FlattenAppend(items[1..], more, depth, n);
      assert (items + more)[1..] == items[1..] + more;
    }
  }

  lemma FlattenIsOfList(value: Json, depth: nat, n: Numbers)
    ensures Flatten(value, depth, n) == FlattenList(ListOf(value), depth, n)
  {
    if !value.Array? && !value.Null? {
      assert FlattenList([value], depth, n) == FlattenRow(value, depth, n) + FlattenList([value][1..], depth, n);
    }
  }

  /** The vector that the recursive descent pushes to. */
  class RowBuffer {
    var rows: seq<Row>

    constructor ()
      ensures rows == []
    {
      rows := [];
    }

    method Push(holder: Json, depth: nat, kind: RowKind, n: Numbers)
      modifies this
      ensures rows == old(rows) + NamedRow(holder, depth, kind, n)
    {
      var cols := ListOf(holder.At("ColData"));
      if cols == [] { return; }
      var name := TextOf(cols[0].At("value"), n);
      if name.None? { return; }
      var amount: Option<int> := None;
      if |cols| > 1 { amount := NumberOf(cols[1].At("value"), n); }
      var id: Option<string> := None;
      if kind.Data? { id := TextOf(cols[0].At("id"), n); }
      rows := rows + [Row(Trim(name.value), amount, depth, kind, id)];
    }
  }

  method ParseRows(value: Json, depth: nat, n: Numbers, out: RowBuffer)
    modifies out
    ensures out.rows == old(out.rows) + Flatten(value, depth, n)
    decreases value, 1
  {
    hide FlattenRow, Flatten;
    var items := ListOf(value);
    var i := 0;
    while i < |items|
      invariant 0 <= i <= |items|
      invariant out.rows == old(out.rows) + FlattenList(items[..i], depth, n)
    {
      assert items[i] in items;
      ParseRow(items[i], depth, n, out);
      FlattenNext(items, i, depth, n);
      i := i + 1;
    }
    assert items[..i] == items;
    FlattenIsOfList(value, depth, n);
  }

  lemma FlattenNext(items: seq<Json>, i: nat, depth: nat, n: Numbers)
    requires i < |items|
    ensures FlattenList(items[..i + 1], depth, n) == FlattenList(items[..i], depth, n) + FlattenRow(items[i], depth, n)
  {
    FlattenAppend(items[..i], [items[i]], depth, n);
    assert items[..i + 1] == items[..i] + [items[i]];
    assert [items[i]][1..] == [];
  }

  /** The body of the loop over the rows. */
  method ParseRow(row: Json, depth: nat, n: Numbers, out: RowBuffer)
    modifies out
    ensures out.rows == old(out.rows) + FlattenRow(row, depth, n)
    decreases row, 0
  {
    hide NamedRow, Flatten, ListOf;
    if !row.Object? { return; }
    if IsGrandTotal(row) {
      out.Push(row.At("Summary"), depth, GrandTotal, n);
      return;
    }
    var hasHeader := row.Get("Header").Some?;
    if hasHeader {
      out.Push(row.At("Header"), depth, Section, n);
    }
    if row.At("Rows").Get("Row").Some? {
      ParseRows(row.At("Rows").At("Row"), if hasHeader then depth + 1 else depth, n, out);
    } else if row.Get("ColData").Some? {
      out.Push(row, depth, Data, n);
    }
    if row.Get("Summary").Some? {
      out.Push(row.At("Summary"), depth, SectionTotal, n);
    }
  }

  /** `parse_report`: the amount of the last grand total. */
  function ReportTotal(rows: seq<Row>): Option<int> {
    if rows == [] then None
    else if rows[|rows| - 1].kind.GrandTotal? then rows[|rows| - 1].amount
    else ReportTotal(rows[..|rows| - 1])
  }

  // ---- sums ----

  function DataSum(rows: seq<Row>): int {
    if rows == [] then 0
    else (if rows[0].kind.Data? then rows[0].amount.GetOr(0) else 0) + DataSum(rows[1..])
  }

  lemma {:induction false} DataSumAppend(a: seq<Row>, b: seq<Row>)
    ensures DataSum(a + b) == DataSum(a) + DataSum(b)
    decreases |a|
  {
    if a == [] {
      assert a + b == b;
    } else {
      DataSumAppend(a[1..], b);
      assert (a + b)[1..] == a[1..] + b;
    }
  }
}
