/** The flattened rows of a report still hold its whole tree. */
module ReportTrees {
  import opened Wrappers
  import opened Texts
  import opened Reports
  import opened ReportOutlines

  /** A report as a tree: leaves, and sections with a named header and a named total. */
  datatype Tree =
    | Leaf(name: string, amount: Option<int>, id: Option<string>)
    | Node(name: string, amount: Option<int>, children: seq<Tree>, totalName: string, total: Option<int>)

  function OutlineOf(t: Tree): Outline
    decreases t
  {
    match t
    case Leaf(name, amount, id) => Item(Absent, Own(name, amount, id), Absent)
    case Node(name, amount, children, totalName, total) =>
      Item(Named(name, amount), Children(OutlinesOf(children)), Named(totalName, total))
  }

  function OutlinesOf(ts: seq<Tree>): seq<Outline>
    decreases ts
  {
    if ts == [] then [] else [OutlineOf(ts[0])] + OutlinesOf(ts[1..])
  }

  /** What flattening makes of a forest. */
  function TreeRows(ts: seq<Tree>, depth: nat): seq<Row> { RowsOfAll(OutlinesOf(ts), depth) }

  function HeaderRow(t: Tree, depth: nat): Row
    requires t.Node?
  {
    Row(t.name, t.amount, depth, Section, None)
  }

  function TotalRow(t: Tree, depth: nat): Row
    requires t.Node?
  {
    Row(t.totalName, t.total, depth, SectionTotal, None)
  }

  function LeafRow(t: Tree, depth: nat): Row
    requires t.Leaf?
  {
    Row(t.name, t.amount, depth, Data, t.id)
  }

  lemma NoTreeRows(depth: nat)
    ensures TreeRows([], depth) == []
  {
  }

  lemma TreeRowsFirst(ts: seq<Tree>, depth: nat)
    requires ts != []
    ensures TreeRows(ts, depth) == RowsOf(OutlineOf(ts[0]), depth) + TreeRows(ts[1..], depth)
    ensures ts[0].Leaf? ==> RowsOf(OutlineOf(ts[0]), depth) == [LeafRow(ts[0], depth)]
    ensures ts[0].Node? ==>
              RowsOf(OutlineOf(ts[0]), depth)
              == [HeaderRow(ts[0], depth)] + TreeRows(ts[0].children, depth + 1) + [TotalRow(ts[0], depth)]
  {
    assert OutlinesOf(ts)[1..] == OutlinesOf(ts[1..]);
  }

  /** Reads a forest whose trees start at `depth` from the front of the rows; the rest is left over. */
  function Rebuild(rows: seq<Row>, depth: nat): (r: (seq<Tree>, seq<Row>))
    ensures |r.1| <= |rows|
    decreases |rows|
  {
    if rows == [] || rows[0].depth != depth then ([], rows)
    else if rows[0].kind.Data? then
      var (more, rest) := Rebuild(rows[1..], depth);
      ([Leaf(rows[0].name, rows[0].amount, rows[0].entityId)] + more, rest)
    else if rows[0].kind.Section? then
      var (children, after) := Rebuild(rows[1..], depth + 1);
      if after == [] || !after[0].kind.SectionTotal? || after[0].depth != depth then ([], rows)
      else
        var (more, rest) := Rebuild(after[1..], depth);
        ([Node(rows[0].name, rows[0].amount, children, after[0].name, after[0].amount)] + more, rest)
    else ([], rows)
  }

  /** The rows that follow cannot belong to a forest at `depth`. */
  predicate Ends(tail: seq<Row>, depth: nat) {
    tail == [] || tail[0].depth != depth || !(tail[0].kind.Data? || tail[0].kind.Section?)
  }

  lemma RebuildNothing(tail: seq<Row>, depth: nat)
    requires Ends(tail, depth)
    ensures Rebuild(tail, depth) == ([], tail)
  {
  }

  lemma RebuildLeaf(t: Tree, more: seq<Tree>, depth: nat, after: seq<Row>, tail: seq<Row>)
    requires t.Leaf? && Rebuild(after, depth) == (more, tail)
    ensures Rebuild([LeafRow(t, depth)] + after, depth) == ([t] + more, tail)
  {
  }

  lemma RebuildNode(t: Tree, more: seq<Tree>, depth: nat, inner: seq<Row>, after: seq<Row>, tail: seq<Row>)
    requires t.Node?
    requires Rebuild(inner + ([TotalRow(t, depth)] + after), depth + 1) == (t.children, [TotalRow(t, depth)] + after)
    requires Rebuild(after, depth) == (more, tail)
    ensures Rebuild([HeaderRow(t, depth)] + (inner + ([TotalRow(t, depth)] + after)), depth) == ([t] + more, tail)
  {
    var rows := [HeaderRow(t, depth)] + (inner + ([TotalRow(t, depth)] + after));
    assert rows[1..] == inner + ([TotalRow(t, depth)] + after);
    assert ([TotalRow(t, depth)] + after)[1..] == after;
  }

  /** Nothing of a forest is lost: it can be read back from its rows, whatever follows them. */
  lemma {:induction false} RebuildInverts(ts: seq<Tree>, depth: nat, tail: seq<Row>)
    requires Ends(tail, depth)
    ensures Rebuild(TreeRows(ts, depth) + tail, depth) == (ts, tail)
    decreases ts
  {
    hide TreeRows, Rebuild;
    if ts == [] {
      NoTreeRows(depth);
      assert TreeRows(ts, depth) + tail == tail;
      RebuildNothing(tail, depth);
    } else {
      var t, rest := ts[0], ts[1..];
      assert ts == [t] + rest;
      var after := TreeRows(rest, depth) + tail;
      TreeRowsFirst(ts, depth);
      RebuildInverts(rest, depth, tail);
      if t.Leaf? {
        RebuildLeaf(t, rest, depth, after, tail);
        assert TreeRows(ts, depth) + tail == [LeafRow(t, depth)] + after;
      } else {
        var inner := TreeRows(t.children, depth + 1);
        RebuildInverts(t.children, depth + 1, [TotalRow(t, depth)] + after);
        RebuildNode(t, rest, depth, inner, after, tail);
        assert TreeRows(ts, depth) + tail == [HeaderRow(t, depth)] + (inner + ([TotalRow(t, depth)] + after));
      }
    }
  }

  lemma {:induction false} RowsOfConcat(os: seq<Outline>, more: seq<Outline>, depth: nat)
    ensures RowsOfAll(os + more, depth) == RowsOfAll(os, depth) + RowsOfAll(more, depth)
    decreases |os|
  {
    hide RowsOf;
    if os == [] {
      assert os + more == more;
    } else {
      assert (os + more)[0] == os[0] && (os + more)[1..] == os[1..] + more;
      RowsOfConcat(os[1..], more, depth);
    }
  }

  /**
   A whole report is read back from whatever payload is sent for it: its forest, and its grand total as the report's
   total.
   */
  lemma ReportReadsBack(value: Json, ts: seq<Tree>, name: string, amount: Option<int>, n: Numbers)
    requires RendersAll(Elements(value), OutlinesOf(ts) + [Grand(Named(name, amount))], n)
    ensures var rows := Flatten(value, 0, n);
            Rebuild(rows, 0) == (ts, [Row(name, amount, 0, GrandTotal, None)]) && ReportTotal(rows) == amount
  {
    var last := [Grand(Named(name, amount))];
    var row := Row(name, amount, 0, GrandTotal, None);
    assert RowsOfAll(last, 0) == [row] by {
      assert last[1..] == [];
    }
    hide RendersAll, Flatten, RowsOfAll, RowsOf, Rebuild;
    ReportIsRead(value, OutlinesOf(ts) + last, 0, n);
    RowsOfConcat(OutlinesOf(ts), last, 0);
    RebuildInverts(ts, 0, [row]);
    var rows := Flatten(value, 0, n);
    assert rows == TreeRows(ts, 0) + [row] && rows[|rows| - 1] == row;
  }

  // ---- a payload for every tree ----

  predicate IsName(name: string) { name != "" && Trim(name) == name }

  predicate WellFormed(t: Tree)
    decreases t
  {
    match t
    case Leaf(name, _, id) => IsName(name) && (id.Some? ==> Trim(id.value) != "")
    case Node(name, _, children, totalName, _) =>
      IsName(name) && IsName(totalName) && forall child | child in children :: WellFormed(child)
  }

  predicate AllWellFormed(ts: seq<Tree>) { forall t | t in ts :: WellFormed(t) }

  function Cells(name: string, amount: Option<int>, id: Option<string>): Json {
    var first := map["value" := Text(name)] + if id.Some? then map["id" := Text(id.value)] else map[];
    Array([Object(first)] + if amount.Some? then [Object(map["value" := Number(amount.value)])] else [])
  }

  function Holder(name: string, amount: Option<int>): Json { Object(map["ColData" := Cells(name, amount, None)]) }

  function ToJson(t: Tree): Json
    decreases t
  {
    match t
    case Leaf(name, amount, id) => Object(map["ColData" := Cells(name, amount, id)])
    case Node(name, amount, children, totalName, total) =>
      Object(map["Header" := Holder(name, amount),
                 "Rows" := Object(map["Row" := Array(ToJsons(children))]),
                 "Summary" := Holder(totalName, total)])
  }

  function ToJsons(ts: seq<Tree>): seq<Json>
    decreases ts
  {
    if ts == [] then [] else [ToJson(ts[0])] + ToJsons(ts[1..])
  }

  lemma CellsSend(holder: Json, name: string, amount: Option<int>, id: Option<string>, n: Numbers)
    requires IsName(name) && (id.Some? ==> Trim(id.value) != "") && holder.At("ColData") == Cells(name, amount, id)
    ensures SendsRow(holder, name, amount, id, n)
  {
    var cells := Cells(name, amount, id).items;
    assert cells[0].At("value") == Text(name);
    TrimIff(name, name);
    if id.Some? {
      BlankIff(id.value);
    }
  }

  lemma HolderSends(name: string, amount: Option<int>, n: Numbers)
    requires IsName(name)
    ensures SendsCaption(Some(Holder(name, amount)), Named(name, amount), n)
  {
    CellsSend(Holder(name, amount), name, amount, None, n);
    hide SendsRow, Cells;
  }

  lemma LeafIsSent(t: Tree, n: Numbers)
    requires t.Leaf? && WellFormed(t)
    ensures Renders(ToJson(t), OutlineOf(t), n)
  {
    CellsSend(ToJson(t), t.name, t.amount, t.id, n);
    hide SendsRow, Cells;
  }

  lemma NodeIsSent(t: Tree, n: Numbers)
    requires t.Node? && WellFormed(t) && RendersAll(ToJsons(t.children), OutlinesOf(t.children), n)
    ensures Renders(ToJson(t), OutlineOf(t), n)
  {
    var json := ToJson(t);
    hide SendsRow, Cells, RendersAll, ToJsons, OutlinesOf;
    HolderSends(t.name, t.amount, n);
    HolderSends(t.totalName, t.total, n);
    hide SendsCaption, Holder;
    assert json.Get("Header") == Some(Holder(t.name, t.amount));
    assert json.Get("Summary") == Some(Holder(t.totalName, t.total));
    assert json.At("group") == Null && Elements(json.At("Rows").At("Row")) == ToJsons(t.children);
  }

  /** Any tree with names at its leaves, headers and totals can be sent. */
  lemma {:induction false} TreeIsSent(t: Tree, n: Numbers)
    requires WellFormed(t)
    ensures Renders(ToJson(t), OutlineOf(t), n)
    decreases t
  {
    hide Renders, ToJson, OutlineOf;
    if t.Leaf? {
      LeafIsSent(t, n);
    } else {
      ForestIsSent(t.children, n);
      NodeIsSent(t, n);
    }
  }

  lemma {:induction false} ForestIsSent(ts: seq<Tree>, n: Numbers)
    requires AllWellFormed(ts)
    ensures RendersAll(ToJsons(ts), OutlinesOf(ts), n)
    decreases ts
  {
    hide Renders, ToJson, OutlineOf;
    if ts == [] {
    } else {
      TreeIsSent(ts[0], n);
      ForestIsSent(ts[1..], n);
      var items, os := ToJsons(ts), OutlinesOf(ts);
      assert items == [ToJson(ts[0])] + ToJsons(ts[1..]) && os == [OutlineOf(ts[0])] + OutlinesOf(ts[1..]);
      forall i | 0 <= i < |os| ensures Renders(items[i], os[i], n) {
        assert i > 0 ==> items[i] == ToJsons(ts[1..])[i - 1] && os[i] == OutlinesOf(ts[1..])[i - 1];
      }
    }
  }
}
