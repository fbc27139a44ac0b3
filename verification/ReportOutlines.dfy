/** What the rows of a report are, for every payload that QuickBooks may send for it, and their sum. */
module ReportOutlines {
  import opened Wrappers
  import opened Texts
  import opened Reports

  /** The cells of a header or a total: not there, without a name, or naming an amount. */
  datatype Caption = Absent | Blank | Named(name: string, amount: Option<int>)

  datatype Content =
    | Children(outlines: seq<Outline>)
    | Own(name: string, amount: Option<int>, id: Option<string>)
    | Nothing

  datatype Outline = Item(header: Caption, content: Content, total: Caption) | Grand(total: Caption)

  // ---- the rows and their sum ----

  function CaptionRows(caption: Caption, depth: nat, kind: RowKind): seq<Row> {
    if caption.Named? then [Row(caption.name, caption.amount, depth, kind, None)] else []
  }

  /** A header puts what follows a level deeper, whether it has a name or not. */
  function RowsOf(o: Outline, depth: nat): seq<Row>
    decreases o
  {
    match o
    case Grand(total) => CaptionRows(total, depth, GrandTotal)
    case Item(header, content, total) =>
      CaptionRows(header, depth, Section)
      + (match content
         case Children(outlines) => RowsOfAll(outlines, if header.Absent? then depth else depth + 1)
         case Own(name, amount, id) => [Row(name, amount, depth, Data, id)]
         case Nothing => [])
      + CaptionRows(total, depth, SectionTotal)
  }

  function RowsOfAll(os: seq<Outline>, depth: nat): seq<Row>
    decreases os
  {
    if os == [] then [] else RowsOf(os[0], depth) + RowsOfAll(os[1..], depth)
  }

  /** The sum of the amounts that are an item's own. */
  function SumOf(o: Outline): int
    decreases o
  {
    match o
    case Grand(_) => 0
    case Item(_, Children(outlines), _) => SumOfAll(outlines)
    case Item(_, Own(_, amount, _), _) => amount.GetOr(0)
    case Item(_, Nothing, _) => 0
  }

  function SumOfAll(os: seq<Outline>): int
    decreases os
  {
    if os == [] then 0 else SumOf(os[0]) + SumOfAll(os[1..])
  }

  // ---- the payloads ----

  /** A list may also be sent as its only element, or as null. */
  function Elements(value: Json): (r: seq<Json>)
    ensures forall item | item in r :: item == value || item < value
  {
    if value.Array? then value.items else if value.Null? then [] else [value]
  }

  predicate SaysNothing(value: Json) { !value.Number? && (value.Text? ==> AllBlank(value.s)) }

  /** A name is sent as text, with white space around it perhaps, or as a number. */
  ghost predicate SendsName(value: Json, name: string, n: Numbers) {
    || (value.Text? && name != "" && IsTrimOf(value.s, name))
    || (value.Number? && IsTrimOf(n.show(value.cents), name))
  }

  predicate SendsText(value: Json, text: Option<string>, n: Numbers) {
    match text
    case Some(t) => (value == Text(t) && !AllBlank(t)) || (value.Number? && t == n.show(value.cents))
    case None => SaysNothing(value)
  }

  function Concat(parts: seq<string>): string { if parts == [] then "" else parts[0] + Concat(parts[1..]) }

  /** The text is a number when its pieces between the commas are one together. */
  ghost predicate Spells(text: string, amount: Option<int>, n: Numbers) {
    exists core :: IsTrimOf(text, core) && n.parse(Concat(Split(core, ','))) == amount
  }

  /** An amount is sent as a number or as the text of one; anything else is no amount. */
  ghost predicate SendsAmount(value: Json, amount: Option<int>, n: Numbers) {
    match value
    case Number(cents) => amount == Some(cents)
    case Text(s) => Spells(s, amount, n)
    case _ => amount == None
  }

  /** The first cell has the name and the id, the second one the amount. */
  ghost predicate SendsRow(holder: Json, name: string, amount: Option<int>, id: Option<string>, n: Numbers) {
    var cols := Elements(holder.At("ColData"));
    && cols != [] && SendsName(cols[0].At("value"), name, n) && SendsText(cols[0].At("id"), id, n)
    && if |cols| > 1 then SendsAmount(cols[1].At("value"), amount, n) else amount == None
  }

  predicate SendsNoRow(holder: Json) {
    var cols := Elements(holder.At("ColData"));
    cols == [] || SaysNothing(cols[0].At("value"))
  }

  ghost predicate SendsCaption(value: Option<Json>, caption: Caption, n: Numbers) {
    match caption
    case Absent => value.None?
    case Blank => value.Some? && SendsNoRow(value.value)
    case Named(name, amount) => value.Some? && exists id :: SendsRow(value.value, name, amount, id, n)
  }

  /** `json` is one of the payloads for this outline. */
  ghost predicate Renders(json: Json, o: Outline, n: Numbers)
    decreases o, 1
  {
    match o
    case Grand(total) =>
      && json.Object? && json.At("group") == Text("GrandTotal") && !total.Absent?
      && SendsCaption(Some(json.At("Summary")), total, n)
    case Item(header, content, total) =>
      if !json.Object? then header.Absent? && content.Nothing? && total.Absent?
      else
        && json.At("group") != Text("GrandTotal")
        && SendsCaption(json.Get("Header"), header, n) && SendsCaption(json.Get("Summary"), total, n)
        && RendersContent(json, content, n)
  }

  ghost predicate RendersContent(json: Json, content: Content, n: Numbers)
    decreases content, 0
  {
    var rows := json.At("Rows").Get("Row");
    match content
    case Children(outlines) => rows.Some? && RendersAll(Elements(rows.value), outlines, n)
    case Own(name, amount, id) => rows.None? && json.Get("ColData").Some? && SendsRow(json, name, amount, id, n)
    case Nothing => rows.None? && (json.Get("ColData").Some? ==> SendsNoRow(json))
  }

  ghost predicate RendersAll(items: seq<Json>, os: seq<Outline>, n: Numbers)
    decreases os, 0
  {
    |items| == |os| && forall i | 0 <= i < |os| :: Renders(items[i], os[i], n)
  }

  // ---- cells ----

  lemma {:induction false} WithoutIsConcat(s: string, c: char)
    ensures Without(s, c) == Concat(Split(s, c))
    decreases |s|
  {
    if c !in s {
      NothingWithout(s, c);
      assert Split(s, c) == [s] && [s][1..] == [];
    } else {
      var i := IndexOf(s, c);
      var first, rest := s[..i], s[i + 1..];
      WithoutIsConcat(rest, c);
      WithoutFirst(first, c, rest);
      assert s == first + [c] + rest && Split(s, c)[1..] == Split(rest, c);
    }
  }

  lemma {:induction false} NothingWithout(s: string, c: char)
    requires c !in s
    ensures Without(s, c) == s
  {
    if s == "" {
    } else {
      assert s[0] != c;
      NothingWithout(s[1..], c);
    }
  }

  lemma {:induction false} WithoutFirst(first: string, c: char, rest: string)
    requires c !in first
    ensures Without(first + [c] + rest, c) == first + Without(rest, c)
    decreases |first|
  {
    var s := first + [c] + rest;
    if first == "" {
      assert s[0] == c && s[1..] == rest;
    } else {
      assert s[0] == first[0] && first[0] in first && s[1..] == first[1..] + [c] + rest;
      WithoutFirst(first[1..], c, rest);
    }
  }

  lemma TextIff(value: Json, text: Option<string>, n: Numbers)
    ensures TextOf(value, n) == text <==> SendsText(value, text, n)
  {
    if value.Text? {
      BlankIff(value.s);
    }
  }

  lemma AmountIff(value: Json, amount: Option<int>, n: Numbers)
    ensures NumberOf(value, n) == amount <==> SendsAmount(value, amount, n)
  {
    if value.Text? {
      var core := Trim(value.s);
      TrimIff(value.s, core);
      WithoutIsConcat(core, ',');
      if Spells(value.s, amount, n) {
        var other :| IsTrimOf(value.s, other) && n.parse(Concat(Split(other, ','))) == amount;
        TrimIff(value.s, other);
      }
    }
  }

  lemma NameIff(value: Json, name: string, n: Numbers)
    ensures TextOf(value, n).Some? && Trim(TextOf(value, n).value) == name <==> SendsName(value, name, n)
  {
    if TextOf(value, n).Some? {
      TrimIff(TextOf(value, n).value, name);
    }
    if value.Text? {
      TrimIff(value.s, name);
    }
  }

  /** Cells that name something give one row with just that, whatever else is sent with them. */
  lemma HolderRow(
    holder: Json, name: string, amount: Option<int>, id: Option<string>, depth: nat, kind: RowKind, n: Numbers)
    requires SendsRow(holder, name, amount, id, n)
    ensures NamedRow(holder, depth, kind, n) == [Row(name, amount, depth, kind, if kind.Data? then id else None)]
  {
    var cols := Elements(holder.At("ColData"));
    NameIff(cols[0].At("value"), name, n);
    TextIff(cols[0].At("id"), id, n);
    if |cols| > 1 {
      AmountIff(cols[1].At("value"), amount, n);
    }
    hide SendsName, SendsText, SendsAmount, TextOf, NumberOf, Trim;
  }

  lemma NoHolderRow(holder: Json, depth: nat, kind: RowKind, n: Numbers)
    requires SendsNoRow(holder)
    ensures NamedRow(holder, depth, kind, n) == []
  {
    var cols := Elements(holder.At("ColData"));
    if cols != [] {
      TextIff(cols[0].At("value"), None, n);
    }
  }

  lemma CaptionIsRead(value: Option<Json>, caption: Caption, depth: nat, kind: RowKind, n: Numbers)
    requires SendsCaption(value, caption, n) && !kind.Data?
    ensures (if value.Some? then NamedRow(value.value, depth, kind, n) else []) == CaptionRows(caption, depth, kind)
  {
    hide SendsRow, SendsNoRow, NamedRow;
    match caption {
      case Absent =>
      case Blank => NoHolderRow(value.value, depth, kind, n);
      case Named(name, amount) =>
        var id :| SendsRow(value.value, name, amount, id, n);
        HolderRow(value.value, name, amount, id, depth, kind, n);
    }
  }

  // ---- flattening ----

  lemma AbsentIsNone(value: Option<Json>, caption: Caption, n: Numbers)
    requires SendsCaption(value, caption, n)
    ensures caption.Absent? <==> value.None?
  {
  }

  lemma NothingIsLeft(depth: nat)
    ensures RowsOf(Item(Absent, Nothing, Absent), depth) == []
  {
  }

  /** Whatever payload is sent for it, an outline gives exactly its rows. */
  lemma {:induction false} RowIsRead(json: Json, o: Outline, depth: nat, n: Numbers)
    requires Renders(json, o, n)
    ensures FlattenRow(json, depth, n) == RowsOf(o, depth)
    decreases o, 1
  {
    hide SendsCaption, SendsRow, SendsNoRow, NamedRow, CaptionRows;
    match o {
      case Grand(total) => CaptionIsRead(Some(json.At("Summary")), total, depth, GrandTotal, n);
      case Item(header, content, total) =>
        if json.Object? {
          CaptionIsRead(json.Get("Header"), header, depth, Section, n);
          CaptionIsRead(json.Get("Summary"), total, depth, SectionTotal, n);
          AbsentIsNone(json.Get("Header"), header, n);
          AbsentIsNone(json.Get("Summary"), total, n);
          var inner := if header.Absent? then depth else depth + 1;
          ContentIsRead(json, content, depth, inner, n);
          var middle := Middle(json, depth, inner, n);
          assert FlattenRow(json, depth, n)
              == CaptionRows(header, depth, Section) + middle + CaptionRows(total, depth, SectionTotal);
        } else {
          assert RowsOf(o, depth) == [] by { NothingIsLeft(depth); }
        }
    }
  }

  /** The rows between a row's header and its total. */
  function Middle(row: Json, depth: nat, inner: nat, n: Numbers): seq<Row> {
    if row.At("Rows").Get("Row").Some? then Flatten(row.At("Rows").At("Row"), inner, n)
    else if row.Get("ColData").Some? then NamedRow(row, depth, Data, n)
    else []
  }

  lemma {:induction false} ContentIsRead(json: Json, content: Content, depth: nat, inner: nat, n: Numbers)
    requires RendersContent(json, content, n)
    ensures Middle(json, depth, inner, n)
         == match content
            case Children(outlines) => RowsOfAll(outlines, inner)
            case Own(name, amount, id) => [Row(name, amount, depth, Data, id)]
            case Nothing => []
    decreases content, 0
  {
    hide SendsRow, SendsNoRow, NamedRow, FlattenRow, FlattenList, RowsOfAll;
    match content {
      case Children(outlines) =>
        var rows := json.At("Rows").At("Row");
        assert ListOf(rows) == Elements(rows);
        FlattenIsOfList(rows, inner, n);
        ListIsRead(Elements(rows), outlines, inner, n);
      case Own(name, amount, id) => HolderRow(json, name, amount, id, depth, Data, n);
      case Nothing =>
        if json.Get("ColData").Some? {
          NoHolderRow(json, depth, Data, n);
        }
    }
  }

  lemma {:induction false} ListIsRead(items: seq<Json>, os: seq<Outline>, depth: nat, n: Numbers)
    requires RendersAll(items, os, n)
    ensures FlattenList(items, depth, n) == RowsOfAll(os, depth)
    decreases os, 0
  {
    hide FlattenRow, RowsOf;
    if os == [] {
    } else {
      RowIsRead(items[0], os[0], depth, n);
      ListIsRead(items[1..], os[1..], depth, n);
    }
  }

  /** A whole list of rows: the report gives the rows of its outline, with the sum of its own amounts. */
  lemma ReportIsRead(value: Json, os: seq<Outline>, depth: nat, n: Numbers)
    requires RendersAll(Elements(value), os, n)
    ensures Flatten(value, depth, n) == RowsOfAll(os, depth)
    ensures DataSum(Flatten(value, depth, n)) == SumOfAll(os)
  {
    assert ListOf(value) == Elements(value);
    hide RendersAll, Flatten, FlattenList, RowsOfAll, SumOfAll, DataSum;
    FlattenIsOfList(value, depth, n);
    ListIsRead(Elements(value), os, depth, n);
    SumOfRows(os, depth);
  }

  // ---- sums ----

  lemma CaptionSum(caption: Caption, depth: nat, kind: RowKind)
    requires !kind.Data?
    ensures DataSum(CaptionRows(caption, depth, kind)) == 0
  {
  }

  /** The sum over the data rows is the sum over the outlines, whatever headers and totals are around them. */
  lemma {:induction false} SumOfRows(os: seq<Outline>, depth: nat)
    ensures DataSum(RowsOfAll(os, depth)) == SumOfAll(os)
    decreases os
  {
    hide RowsOf, SumOf;
    if os == [] {
    } else {
      SumOfRow(os[0], depth);
      SumOfRows(os[1..], depth);
      hide DataSum;
      DataSumAppend(RowsOf(os[0], depth), RowsOfAll(os[1..], depth));
    }
  }

  lemma {:induction false} SumOfRow(o: Outline, depth: nat)
    ensures DataSum(RowsOf(o, depth)) == SumOf(o)
    decreases o
  {
    match o {
      case Grand(total) => CaptionSum(total, depth, GrandTotal);
      case Item(header, content, total) =>
        var inner := if header.Absent? then depth else depth + 1;
        var before, after := CaptionRows(header, depth, Section), CaptionRows(total, depth, SectionTotal);
        CaptionSum(header, depth, Section);
        CaptionSum(total, depth, SectionTotal);
        var middle: seq<Row> := [];
        match content {
          case Children(outlines) =>
            SumOfRows(outlines, inner);
            middle := RowsOfAll(outlines, inner);
          case Own(name, amount, id) =>
            middle := [Row(name, amount, depth, Data, id)];
            assert middle[1..] == [];
          case Nothing =>
        }
        DataSumAppend(before, middle);
        DataSumAppend(before + middle, after);
        assert RowsOf(o, depth) == before + middle + after;
    }
  }

  // ---- there is an outline for every payload ----

  lemma CaptionOf(value: Option<Json>, n: Numbers) returns (caption: Caption)
    ensures SendsCaption(value, caption, n)
  {
    if value.None? {
      caption := Absent;
    } else {
      var found, name, amount, id := OwnOf(value.value, n);
      caption := if found then Named(name, amount) else Blank;
    }
    hide SendsRow, SendsNoRow;
  }

  lemma OwnOf(holder: Json, n: Numbers)
    returns (found: bool, name: string, amount: Option<int>, id: Option<string>)
    ensures if found then SendsRow(holder, name, amount, id, n) else SendsNoRow(holder)
  {
    var cols := Elements(holder.At("ColData"));
    found, name, amount, id := false, "", None, None;
    if cols != [] && TextOf(cols[0].At("value"), n).Some? {
      found, name := true, Trim(TextOf(cols[0].At("value"), n).value);
      NameIff(cols[0].At("value"), name, n);
      id := TextOf(cols[0].At("id"), n);
      TextIff(cols[0].At("id"), id, n);
      if |cols| > 1 {
        amount := NumberOf(cols[1].At("value"), n);
        AmountIff(cols[1].At("value"), amount, n);
      }
    } else if cols != [] {
      TextIff(cols[0].At("value"), None, n);
    }
    hide SendsName, SendsText, SendsAmount, TextOf, NumberOf, Trim;
  }

  /** So the two statements above are about all payloads. */
  lemma {:induction false} EveryRowRenders(json: Json, n: Numbers) returns (o: Outline)
    ensures Renders(json, o, n)
    decreases json, 0
  {
    if !json.Object? {
      o := Item(Absent, Nothing, Absent);
    } else if json.At("group") == Text("GrandTotal") {
      var total := CaptionOf(Some(json.At("Summary")), n);
      AbsentIsNone(Some(json.At("Summary")), total, n);
      o := Grand(total);
    } else {
      var header := CaptionOf(json.Get("Header"), n);
      var total := CaptionOf(json.Get("Summary"), n);
      var content := Nothing;
      var rows := json.At("Rows").Get("Row");
      if rows.Some? {
        var os := EveryReportRenders(json.At("Rows").At("Row"), n);
        content := Children(os);
      } else if json.Get("ColData").Some? {
        var found, name, amount, id := OwnOf(json, n);
        content := if found then Own(name, amount, id) else Nothing;
      }
      o := Item(header, content, total);
      assert RendersContent(json, content, n);
    }
    hide SendsCaption, SendsRow, SendsNoRow;
  }

  lemma {:induction false} EveryReportRenders(value: Json, n: Numbers) returns (os: seq<Outline>)
    ensures RendersAll(Elements(value), os, n)
    decreases value, 1
  {
    hide Renders;
    var items := Elements(value);
    os := [];
    for i := 0 to |items|
      invariant |os| == i && forall k | 0 <= k < i :: Renders(items[k], os[k], n)
    {
      assert items[i] in items;
      var o := EveryRowRenders(items[i], n);
      os := os + [o];
    }
  }

  // ---- single rows ----

  lemma LowerOfNobody()
    ensures Lower(Trim("Not Specified")) == "not specified"
  {
    var capital, small := "Not Specified", "not specified";
    hide Lower, Trim;
    TrimStays(capital);
    assert SameLetters(capital, small) && NoCapitals(small);
    LowerIff(capital, small);
    LowerStays(small);
  }

  /** The rows "Not Specified" are told by their name, without regard to case and the white space around it. */
  lemma NotSpecifiedIff(r: Row)
    ensures r.IsNotSpecified() <==> r.kind == Data && SameName(r.name, "Not Specified")
  {
    hide Lower, Trim, SameName;
    LowerOfNobody();
    SameNameIff(r.name, "Not Specified");
  }

  predicate IsLastGrandTotal(rows: seq<Row>, i: nat) {
    i < |rows| && rows[i].kind == GrandTotal && forall j | i < j < |rows| :: rows[j].kind != GrandTotal
  }

  /** The report's total is the amount of its last grand total. */
  lemma {:induction false} ReportTotalIs(rows: seq<Row>, i: nat)
    requires IsLastGrandTotal(rows, i)
    ensures ReportTotal(rows) == rows[i].amount
    decreases |rows|
  {
    var n := |rows| - 1;
    if i == n {
    } else {
      assert rows[..n][i] == rows[i];
      ReportTotalIs(rows[..n], i);
    }
  }

  lemma {:induction false} NoReportTotal(rows: seq<Row>)
    requires forall r | r in rows :: r.kind != GrandTotal
    ensures ReportTotal(rows) == None
    decreases |rows|
  {
    if rows == [] {
    } else {
      assert rows[|rows| - 1] in rows && forall r | r in rows[..|rows| - 1] :: r in rows;
      NoReportTotal(rows[..|rows| - 1]);
    }
  }
}
