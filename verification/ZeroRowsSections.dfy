/** Exactly which section headers and totals survive the filter, in any list of rows and in a report's tree. */
module ZeroRowsSections {
  import opened Wrappers
  import opened Texts
  import opened Reports
  import opened ReportOutlines
  import opened ReportTrees
  import opened ZeroRows
  import opened ZeroRowsTheorems

  // ---- in a list of rows ----

  /** Behind a header: an ordinary row comes before anything that ends the section's chunk. */
  predicate OwnData(rest: seq<Row>) {
    rest != [] && !StopsChunk(rest[0]) && !rest[0].kind.SectionTotal? && (!rest[0].IsZero() || OwnData(rest[1..]))
  }

  /** Behind a header: only data rows up to a non-zero total, which closes the section. */
  function ClosingTotal(rest: seq<Row>): seq<Row> {
    if rest == [] || StopsChunk(rest[0]) then []
    else if rest[0].kind.SectionTotal? then (if rest[0].IsZero() then [] else [rest[0]])
    else ClosingTotal(rest[1..])
  }

  function Sections(rows: seq<Row>): seq<Row> {
    if rows == [] then [] else (if rows[0].kind.Section? then [rows[0]] else []) + Sections(rows[1..])
  }

  function Totals(rows: seq<Row>): seq<Row> {
    if rows == [] then [] else (if rows[0].kind.SectionTotal? then [rows[0]] else []) + Totals(rows[1..])
  }

  function KeptHeaders(rows: seq<Row>): seq<Row> {
    if rows == [] then [] else
    (if rows[0].kind.Section? && OwnData(rows[1..]) then [rows[0]] else []) + KeptHeaders(rows[1..])
  }

  function KeptTotals(rows: seq<Row>): seq<Row> {
    if rows == [] then [] else
    (if rows[0].kind.Section? && OwnData(rows[1..]) then ClosingTotal(rows[1..]) else []) + KeptTotals(rows[1..])
  }

  lemma {:induction false} SectionsFollow(a: seq<Row>, b: seq<Row>)
    ensures Sections(a + b) == Sections(a) + Sections(b)
    decreases |a|
  {
    if a == [] {
      assert a + b == b && [] + Sections(b) == Sections(b);
    } else {
      SectionsFollow(a[1..], b);
      assert (a + b)[0] == a[0] && (a + b)[1..] == a[1..] + b;
      var first := if a[0].kind.Section? then [a[0]] else [];
      assert Sections(a + b) == first + Sections((a + b)[1..]) && Sections(a) == first + Sections(a[1..]);
      hide Sections;
      assert first + (Sections(a[1..]) + Sections(b)) == (first + Sections(a[1..])) + Sections(b);
    }
  }

  lemma {:induction false} TotalsFollow(a: seq<Row>, b: seq<Row>)
    ensures Totals(a + b) == Totals(a) + Totals(b)
    decreases |a|
  {
    if a == [] {
      assert a + b == b && [] + Totals(b) == Totals(b);
    } else {
      TotalsFollow(a[1..], b);
      assert (a + b)[0] == a[0] && (a + b)[1..] == a[1..] + b;
      var first := if a[0].kind.SectionTotal? then [a[0]] else [];
      assert Totals(a + b) == first + Totals((a + b)[1..]) && Totals(a) == first + Totals(a[1..]);
      hide Totals;
      assert first + (Totals(a[1..]) + Totals(b)) == (first + Totals(a[1..])) + Totals(b);
    }
  }

  lemma SectionsAppend(a: seq<Row>, b: seq<Row>)
    ensures Sections(a + b) == Sections(a) + Sections(b) && Totals(a + b) == Totals(a) + Totals(b)
  {
    hide Sections, Totals;
    SectionsFollow(a, b);
    TotalsFollow(a, b);
  }

  /** What the chunk behind a header holds: data exactly as said, no header, and at most the closing total. */
  lemma {:induction false} ChunkHolds(rest: seq<Row>)
    ensures var kept := NonZero(rest[..ChunkLength(rest)]);
            && (HasData(kept) <==> OwnData(rest))
            && Sections(kept) == [] && Totals(kept) == ClosingTotal(rest)
    decreases |rest|
  {
    if rest == [] || StopsChunk(rest[0]) {
      EmptyChunkHolds(rest);
    } else if rest[0].kind.SectionTotal? {
      TotalChunkHolds(rest);
    } else {
      hide ChunkLength, OwnData, ClosingTotal, NonZero, HasData, Sections, Totals, StopsChunk;
      FirstOfChunk(rest);
      ChunkHolds(rest[1..]);
      var k := ChunkLength(rest[1..]);
      var later := rest[1..][..k];
      assert rest[..1 + k] == [rest[0]] + later;
      FirstNonZero(rest[0], later);
      DataInFront(rest[0], NonZero(later));
    }
  }

  lemma EmptyChunkHolds(rest: seq<Row>)
    requires rest == [] || StopsChunk(rest[0])
    ensures ChunkLength(rest) == 0 && NonZero(rest[..0]) == [] && !HasData(rest[..0]) && !OwnData(rest)
    ensures Sections(rest[..0]) == [] && Totals(rest[..0]) == [] && ClosingTotal(rest) == []
  {
  }

  lemma TotalChunkHolds(rest: seq<Row>)
    requires rest != [] && !StopsChunk(rest[0]) && rest[0].kind.SectionTotal?
    ensures ChunkLength(rest) == 1 && NonZero(rest[..1]) == ClosingTotal(rest)
    ensures !HasData(ClosingTotal(rest)) && !OwnData(rest)
    ensures Sections(ClosingTotal(rest)) == [] && Totals(ClosingTotal(rest)) == ClosingTotal(rest)
  {
    assert rest[..1] == [rest[0]];
    NonZeroOne(rest[0]);
    assert [rest[0]][1..] == [];
  }

  lemma FirstOfChunk(rest: seq<Row>)
    requires rest != [] && !StopsChunk(rest[0]) && !rest[0].kind.SectionTotal?
    ensures rest[0].kind.Data? && ChunkLength(rest) == 1 + ChunkLength(rest[1..])
    ensures OwnData(rest) <==> !rest[0].IsZero() || OwnData(rest[1..])
    ensures ClosingTotal(rest) == ClosingTotal(rest[1..])
  {
  }

  lemma FirstNonZero(r: Row, later: seq<Row>)
    ensures NonZero([r] + later) == if r.IsZero() then NonZero(later) else [r] + NonZero(later)
  {
    NonZeroAppend([r], later);
    NonZeroOne(r);
    hide NonZero;
    assert [] + NonZero(later) == NonZero(later);
  }

  lemma DataInFront(r: Row, rows: seq<Row>)
    requires r.kind.Data?
    ensures HasData([r] + rows) && Sections([r] + rows) == Sections(rows) && Totals([r] + rows) == Totals(rows)
  {
    assert r in [r] + rows && ([r] + rows)[1..] == rows;
  }

  /** Rows without headers are passed over. */
  lemma {:induction false} NoHeaders(rows: seq<Row>, n: nat)
    requires n <= |rows| && forall r | r in rows[..n] :: !r.kind.Section?
    ensures KeptHeaders(rows) == KeptHeaders(rows[n..]) && KeptTotals(rows) == KeptTotals(rows[n..])
    decreases n
  {
    if n == 0 {
      assert rows[0..] == rows;
    } else {
      assert rows[0] in rows[..n] && forall r | r in rows[1..][..n - 1] :: r in rows[..n];
      NoHeaders(rows[1..], n - 1);
      assert rows[1..][n - 1..] == rows[n..];
    }
  }

  lemma HeaderHasNoData(r: Row, rows: seq<Row>)
    requires r.kind.Section?
    ensures HasData([r] + rows) <==> HasData(rows)
    ensures Sections([r]) == [r] && Totals([r]) == []
  {
    assert [r][1..] == [];
    assert forall x | x in rows :: x in [r] + rows;
  }

  lemma SectionRoundHolds(rows: seq<Row>)
    requires rows != [] && rows[0].kind.Section?
    ensures var (out, n) := Round(rows);
            && Sections(out) + KeptHeaders(rows[n..]) == KeptHeaders(rows)
            && Totals(out) + KeptTotals(rows[n..]) == KeptTotals(rows)
  {
    var row, rest := rows[0], rows[1..];
    var k := ChunkLength(rest);
    ChunkHolds(rest);
    ChunkStops(rest);
    NoHeaders(rest, k);
    hide ChunkLength, NonZero, OwnData, ClosingTotal, HasData;
    var kept := NonZero(rest[..k]);
    assert rest[k..] == rows[1 + k..];
    HeaderHasNoData(row, kept);
    SectionsAppend([row], kept);
    assert Round(rows) == (if HasData([row] + kept) then [row] + kept else [], 1 + k);
    hide Round;
    assert [row] + [] == [row] && [] + ClosingTotal(rest) == ClosingTotal(rest);
  }

  lemma RoundHolds(rows: seq<Row>)
    requires rows != []
    ensures var (out, n) := Round(rows);
            && Sections(out) + KeptHeaders(rows[n..]) == KeptHeaders(rows)
            && Totals(out) + KeptTotals(rows[n..]) == KeptTotals(rows)
  {
    if rows[0].kind.Section? {
      SectionRoundHolds(rows);
    } else {
      hide ChunkLength, NonZero, OwnData, ClosingTotal, HasData;
      var out := Round(rows).0;
      assert out == [] || (out == [rows[0]] && [rows[0]][1..] == []);
      assert [] + KeptHeaders(rows[1..]) == KeptHeaders(rows) && [] + KeptTotals(rows[1..]) == KeptTotals(rows);
    }
  }

  /** In every list of rows: a header survives exactly when an ordinary row of its own comes before its chunk ends. */
  lemma {:induction false} HeadersKept(rows: seq<Row>)
    ensures Sections(Body(rows)) == KeptHeaders(rows) && Totals(Body(rows)) == KeptTotals(rows)
    decreases |rows|
  {
    if rows == [] {
    } else {
      var (out, n) := Round(rows);
      HeadersKept(rows[n..]);
      RoundHolds(rows);
      SectionsAppend(out, Body(rows[n..]));
      hide Round, KeptHeaders, KeptTotals, Sections, Totals;
    }
  }

  /** The rows moved to the end are neither headers nor section totals. */
  lemma SectionsOfOmit(rows: seq<Row>)
    ensures Sections(Omit(rows)) == KeptHeaders(rows) && Totals(Omit(rows)) == KeptTotals(rows)
  {
    HeadersKept(rows);
    LastsAreSpecial(rows);
    SectionsAppend(Body(rows), Tail(rows));
    TailHasNone(LastNotSpecified(rows), LastGrandTotal(rows));
    hide Body, LastNotSpecified, LastGrandTotal, KeptHeaders, KeptTotals, NonZero;
  }

  lemma TailHasNone(notSpecified: Option<Row>, grandTotal: Option<Row>)
    requires notSpecified.Some? ==> notSpecified.value.IsNotSpecified()
    requires grandTotal.Some? ==> grandTotal.value.kind.GrandTotal?
    ensures Sections(NonZero(AsSeq(notSpecified)) + AsSeq(grandTotal)) == []
    ensures Totals(NonZero(AsSeq(notSpecified)) + AsSeq(grandTotal)) == []
  {
    var a, b := NonZero(AsSeq(notSpecified)), AsSeq(grandTotal);
    TailRows(notSpecified, grandTotal);
    SectionsAppend(a, b);
    assert a != [] ==> a[1..] == [];
    assert b != [] ==> b[1..] == [];
  }

  /** The special rows at the end of a filtered report. */
  predicate IsTail(tail: seq<Row>) {
    tail == [] ||
    (|tail| == 1 && (tail[0].kind.GrandTotal? || (tail[0].IsNotSpecified() && !tail[0].IsZero()))) ||
    (|tail| == 2 && tail[0].IsNotSpecified() && !tail[0].IsZero() && tail[1].kind.GrandTotal?)
  }

  lemma SplitTail(tail: seq<Row>) returns (notSpecified: Option<Row>, grandTotal: Option<Row>)
    requires IsTail(tail)
    ensures AsSeq(notSpecified) + AsSeq(grandTotal) == tail
    ensures notSpecified.Some? ==> notSpecified.value.IsNotSpecified() && !notSpecified.value.IsZero()
    ensures grandTotal.Some? ==> grandTotal.value.kind.GrandTotal?
  {
    notSpecified, grandTotal := None, None;
    if tail == [] {
    } else if tail[0].kind.GrandTotal? {
      grandTotal := Some(tail[0]);
    } else {
      notSpecified := Some(tail[0]);
      if |tail| == 2 {
        grandTotal := Some(tail[1]);
      }
    }
  }

  lemma BodyUnchangedIffTidy(rows: seq<Row>)
    ensures Body(rows) == rows <==> Tidy(rows, Outside)
  {
    BodyIsTidy(rows);
    if Tidy(rows, Outside) {
      TidyStays(rows, []);
      assert rows + [] == rows;
    }
    hide *;
  }

  /** The filter leaves a report alone exactly when it is tidy up to the special rows at its end. */
  lemma UnchangedIffTidy(rows: seq<Row>)
    ensures Omit(rows) == rows <==>
            exists k | 0 <= k <= |rows| :: Tidy(rows[..k], Outside) && IsTail(rows[k..])
  {
    hide Tidy, Body, Tail, IsTail;
    if Omit(rows) == rows {
      var k := |Body(rows)|;
      assert rows[..k] == Body(rows) && rows[k..] == Tail(rows);
      BodyIsTidy(rows);
      TailIsTail(rows);
    }
    if k :| 0 <= k <= |rows| && Tidy(rows[..k], Outside) && IsTail(rows[k..]) {
      assert rows == rows[..k] + rows[k..];
      TidyWithTail(rows[..k], rows[k..]);
    }
  }

  lemma TailIsTail(rows: seq<Row>)
    ensures IsTail(Tail(rows))
  {
    LastsAreSpecial(rows);
    TailRows(LastNotSpecified(rows), LastGrandTotal(rows));
    hide NonZero, LastNotSpecified, LastGrandTotal;
  }

  lemma TidyWithTail(body: seq<Row>, tail: seq<Row>)
    requires Tidy(body, Outside) && IsTail(tail)
    ensures Omit(body + tail) == body + tail
  {
    var notSpecified, grandTotal := SplitTail(tail);
    var all := body + AsSeq(notSpecified) + AsSeq(grandTotal);
    assert all == body + (AsSeq(notSpecified) + AsSeq(grandTotal)) == body + tail;
    TidyStays(body, tail);
    TidyStays(body, []);
    assert body + [] == body;
    BodyFits(body);
    TailRows(notSpecified, grandTotal);
    hide Tidy, Body, NonZero;
    LastsBehind(body, notSpecified, grandTotal);
  }

  // ---- in a report's tree ----

  predicate IsNobodysName(name: string) { Lower(Trim(name)) == "not specified" }

  predicate IsPlain(t: Tree) { t.Leaf? && !IsNobodysName(t.name) }

  predicate IsZeroAmount(amount: Option<int>) { amount.None? || amount.value == 0 }

  /** Among a section's children, a leaf with an amount comes before the first section or "Not Specified" row. */
  predicate LeafData(children: seq<Tree>) {
    children != [] && IsPlain(children[0]) && (!IsZeroAmount(children[0].amount) || LeafData(children[1..]))
  }

  predicate AllPlain(children: seq<Tree>) { forall child | child in children :: IsPlain(child) }

  /** The headers of the sections that have such a leaf, in order. */
  function HeadersOf(ts: seq<Tree>, depth: nat): seq<Row>
    decreases ts
  {
    if ts == [] then [] else
    (if ts[0].Leaf? then []
     else (if LeafData(ts[0].children) then [HeaderRow(ts[0], depth)] else []) + HeadersOf(ts[0].children, depth + 1))
    + HeadersOf(ts[1..], depth)
  }

  /** The non-zero totals of the sections that have such a leaf and nothing but ordinary leaves. */
  function TotalsOf(ts: seq<Tree>, depth: nat): seq<Row>
    decreases ts
  {
    if ts == [] then [] else
    (if ts[0].Leaf? then []
     else (if LeafData(ts[0].children) && AllPlain(ts[0].children) && !IsZeroAmount(ts[0].total)
           then [TotalRow(ts[0], depth)] else []) + TotalsOf(ts[0].children, depth + 1))
    + TotalsOf(ts[1..], depth)
  }

  /** A section's own data and its closing total, read off its children. */
  lemma {:induction false} ChildrenDecide(children: seq<Tree>, depth: nat, total: Row, after: seq<Row>)
    requires total.kind.SectionTotal?
    ensures var rows := TreeRows(children, depth) + ([total] + after);
            && (OwnData(rows) <==> LeafData(children))
            && ClosingTotal(rows) == if AllPlain(children) && !total.IsZero() then [total] else []
    decreases children
  {
    hide TreeRows;
    if children == [] {
      NoTreeRows(depth);
      assert TreeRows(children, depth) + ([total] + after) == [total] + after;
    } else {
      var t, rest := children[0], children[1..];
      TreeRowsFirst(children, depth);
      var later := TreeRows(rest, depth) + ([total] + after);
      if t.Leaf? {
        var row := LeafRow(t, depth);
        assert TreeRows(children, depth) + ([total] + after) == [row] + later;
        ChildrenDecide(rest, depth, total, after);
        LeafDecides(t, row, later);
        assert AllPlain(children) <==> IsPlain(t) && AllPlain(rest) by { AllPlainFirst(children); }
      } else {
        assert (TreeRows(children, depth) + ([total] + after))[0] == HeaderRow(t, depth);
        assert !IsPlain(children[0]);
      }
    }
  }

  lemma AllPlainFirst(children: seq<Tree>)
    requires children != []
    ensures AllPlain(children) <==> IsPlain(children[0]) && AllPlain(children[1..])
  {
    assert forall child :: child in children <==> child == children[0] || child in children[1..];
  }

  lemma LeafDecides(t: Tree, row: Row, later: seq<Row>)
    requires t.Leaf? && row.kind.Data? && row.name == t.name && row.amount == t.amount
    ensures OwnData([row] + later) <==> IsPlain(t) && (!IsZeroAmount(t.amount) || OwnData(later))
    ensures ClosingTotal([row] + later) == if IsPlain(t) then ClosingTotal(later) else []
  {
    assert ([row] + later)[1..] == later;
  }

  lemma NodeHeaderRows(t: Tree, depth: nat, inner: seq<Row>, after: seq<Row>)
    requires t.Node?
    ensures var rest := inner + ([TotalRow(t, depth)] + after);
            && KeptHeaders([HeaderRow(t, depth)] + rest)
               == (if OwnData(rest) then [HeaderRow(t, depth)] else []) + KeptHeaders(rest)
            && KeptTotals([HeaderRow(t, depth)] + rest)
               == (if OwnData(rest) then ClosingTotal(rest) else []) + KeptTotals(rest)
            && KeptHeaders([TotalRow(t, depth)] + after) == KeptHeaders(after)
            && KeptTotals([TotalRow(t, depth)] + after) == KeptTotals(after)
  {
    hide OwnData, ClosingTotal;
    var rest := inner + ([TotalRow(t, depth)] + after);
    assert ([HeaderRow(t, depth)] + rest)[1..] == rest && ([TotalRow(t, depth)] + after)[1..] == after;
  }

  lemma LeafRowKeepsNone(row: Row, rest: seq<Row>)
    requires row.kind.Data?
    ensures KeptHeaders([row] + rest) == KeptHeaders(rest) && KeptTotals([row] + rest) == KeptTotals(rest)
  {
    assert ([row] + rest)[1..] == rest;
  }

  lemma HeadersOfFirst(ts: seq<Tree>, depth: nat)
    requires ts != []
    ensures HeadersOf(ts, depth) == HeadersOf([ts[0]], depth) + HeadersOf(ts[1..], depth)
  {
    var t := ts[0];
    var own := if t.Leaf? then []
    else (if LeafData(t.children) then [HeaderRow(t, depth)] else []) + HeadersOf(t.children, depth + 1);
    assert [t][1..] == [] && HeadersOf([t], depth) == own + HeadersOf([], depth);
    assert HeadersOf(ts, depth) == own + HeadersOf(ts[1..], depth);
    hide HeadersOf;
    assert own + [] == own;
  }

  lemma TotalsOfFirst(ts: seq<Tree>, depth: nat)
    requires ts != []
    ensures TotalsOf(ts, depth) == TotalsOf([ts[0]], depth) + TotalsOf(ts[1..], depth)
  {
    var t := ts[0];
    var own := if t.Leaf? then []
    else (if LeafData(t.children) && AllPlain(t.children) && !IsZeroAmount(t.total)
          then [TotalRow(t, depth)] else []) + TotalsOf(t.children, depth + 1);
    assert [t][1..] == [] && TotalsOf([t], depth) == own + TotalsOf([], depth);
    assert TotalsOf(ts, depth) == own + TotalsOf(ts[1..], depth);
    hide TotalsOf;
    assert own + [] == own;
  }

  lemma HeadersOfNode(t: Tree, depth: nat)
    ensures t.Leaf? ==> HeadersOf([t], depth) == [] && TotalsOf([t], depth) == []
    ensures t.Node? ==>
              && HeadersOf([t], depth)
                 == (if LeafData(t.children) then [HeaderRow(t, depth)] else []) + HeadersOf(t.children, depth + 1)
              && TotalsOf([t], depth)
                 == (if LeafData(t.children) && AllPlain(t.children) && !IsZeroAmount(t.total)
                     then [TotalRow(t, depth)] else [])
                    + TotalsOf(t.children, depth + 1)
  {
    assert [t][1..] == [];
  }

  /** A section with what its children keep, in front of `later`. */
  lemma KeptOfNode(t: Tree, depth: nat, inner: seq<Row>, later: seq<Row>)
    requires t.Node? && inner == TreeRows(t.children, depth + 1)
    requires var behind := [TotalRow(t, depth)] + later;
             && KeptHeaders(inner + behind) == HeadersOf(t.children, depth + 1) + KeptHeaders(behind)
             && KeptTotals(inner + behind) == TotalsOf(t.children, depth + 1) + KeptTotals(behind)
    ensures var rows := [HeaderRow(t, depth)] + (inner + ([TotalRow(t, depth)] + later));
            && KeptHeaders(rows) == HeadersOf([t], depth) + KeptHeaders(later)
            && KeptTotals(rows) == TotalsOf([t], depth) + KeptTotals(later)
  {
    hide KeptHeaders, KeptTotals, OwnData, ClosingTotal, LeafData, AllPlain, HeadersOf, TotalsOf, TreeRows;
    NodeHeaderRows(t, depth, inner, later);
    ChildrenDecide(t.children, depth + 1, TotalRow(t, depth), later);
    HeadersOfNode(t, depth);
  }

  lemma {:induction false} KeptOfForest(ts: seq<Tree>, depth: nat, after: seq<Row>)
    ensures KeptHeaders(TreeRows(ts, depth) + after) == HeadersOf(ts, depth) + KeptHeaders(after)
    ensures KeptTotals(TreeRows(ts, depth) + after) == TotalsOf(ts, depth) + KeptTotals(after)
    decreases ts
  {
    hide TreeRows, KeptHeaders, KeptTotals, LeafData, AllPlain;
    if ts == [] {
      NoTreeRows(depth);
      assert TreeRows(ts, depth) + after == after;
      assert [] + KeptHeaders(after) == KeptHeaders(after) && [] + KeptTotals(after) == KeptTotals(after);
    } else {
      hide HeadersOf, TotalsOf;
      var t, rest := ts[0], ts[1..];
      assert ts == [t] + rest;
      var later := TreeRows(rest, depth) + after;
      KeptOfForest(rest, depth, after);
      HeadersOfFirst(ts, depth);
      TotalsOfFirst(ts, depth);
      if t.Node? {
        KeptOfForest(t.children, depth + 1, [TotalRow(t, depth)] + later);
      }
      KeptOfFirst(ts, depth, later, after);
    }
  }

  lemma KeptOfFirst(ts: seq<Tree>, depth: nat, later: seq<Row>, after: seq<Row>)
    requires ts != [] && later == TreeRows(ts[1..], depth) + after
    requires ts[0].Node? ==>
               var inner, behind := TreeRows(ts[0].children, depth + 1), [TotalRow(ts[0], depth)] + later;
               && KeptHeaders(inner + behind) == HeadersOf(ts[0].children, depth + 1) + KeptHeaders(behind)
               && KeptTotals(inner + behind) == TotalsOf(ts[0].children, depth + 1) + KeptTotals(behind)
    ensures KeptHeaders(TreeRows(ts, depth) + after) == HeadersOf([ts[0]], depth) + KeptHeaders(later)
    ensures KeptTotals(TreeRows(ts, depth) + after) == TotalsOf([ts[0]], depth) + KeptTotals(later)
  {
    hide TreeRows, KeptHeaders, KeptTotals, HeadersOf, TotalsOf;
    var t := ts[0];
    TreeRowsFirst(ts, depth);
    HeadersOfNode(t, depth);
    if t.Leaf? {
      var row := LeafRow(t, depth);
      assert TreeRows(ts, depth) + after == [row] + later;
      LeafRowKeepsNone(row, later);
      assert [] + KeptHeaders(later) == KeptHeaders(later) && [] + KeptTotals(later) == KeptTotals(later);
    } else {
      var inner := TreeRows(t.children, depth + 1);
      assert TreeRows(ts, depth) + after == [HeaderRow(t, depth)] + (inner + ([TotalRow(t, depth)] + later));
      KeptOfNode(t, depth, inner, later);
    }
  }

  lemma TreeSectionsKept(ts: seq<Tree>, depth: nat, tail: seq<Row>)
    requires AllSpecial(tail)
    ensures var rows := Omit(TreeRows(ts, depth) + tail);
            Sections(rows) == HeadersOf(ts, depth) && Totals(rows) == TotalsOf(ts, depth)
  {
    hide Omit, TreeRows, HeadersOf, TotalsOf;
    SectionsOfOmit(TreeRows(ts, depth) + tail);
    KeptOfForest(ts, depth, tail);
    assert forall r | r in tail[..|tail|] :: !r.kind.Section?;
    NoHeaders(tail, |tail|);
  }

  /** A payload for a forest that is followed by "Not Specified" rows and grand totals only. */
  ghost predicate IsReport(value: Json, ts: seq<Tree>, n: Numbers) {
    exists last :: RendersAll(Elements(value), OutlinesOf(ts) + last, n) && AllSpecial(RowsOfAll(last, 0))
  }

  /**
   In a report a section's header survives exactly when a leaf with an amount comes before the section's first
   inner section or "Not Specified" row; its total survives exactly when, besides, there is no such child and it
   is not zero.
   */
  lemma ReportSectionsKept(value: Json, ts: seq<Tree>, n: Numbers)
    requires IsReport(value, ts, n)
    ensures var rows := Omit(Flatten(value, 0, n));
            Sections(rows) == HeadersOf(ts, 0) && Totals(rows) == TotalsOf(ts, 0)
  {
    hide RendersAll, RowsOfAll, Flatten, Omit, HeadersOf, TotalsOf, Sections, Totals, AllSpecial;
    var last :| RendersAll(Elements(value), OutlinesOf(ts) + last, n) && AllSpecial(RowsOfAll(last, 0));
    ReportIsRead(value, OutlinesOf(ts) + last, 0, n);
    RowsOfConcat(OutlinesOf(ts), last, 0);
    TreeSectionsKept(ts, 0, RowsOfAll(last, 0));
  }

  lemma Regroup(a: seq<Row>, b: seq<Row>, c: seq<Row>)
    ensures a + (b + c) == (a + b) + c
  {
  }

  lemma {:induction false} HeadersOfConcat(ts: seq<Tree>, more: seq<Tree>, depth: nat)
    ensures HeadersOf(ts + more, depth) == HeadersOf(ts, depth) + HeadersOf(more, depth)
    decreases |ts|
  {
    if ts == [] {
      assert HeadersOf(ts, depth) == [];
      hide *;
      assert ts + more == more;
      assert [] + HeadersOf(more, depth) == HeadersOf(more, depth);
    } else {
      hide *;
      assert (ts + more)[0] == ts[0] && (ts + more)[1..] == ts[1..] + more;
      HeadersOfFirst(ts, depth);
      HeadersOfFirst(ts + more, depth);
      HeadersOfConcat(ts[1..], more, depth);
      Regroup(HeadersOf([ts[0]], depth), HeadersOf(ts[1..], depth), HeadersOf(more, depth));
    }
  }

  lemma {:induction false} TotalsOfConcat(ts: seq<Tree>, more: seq<Tree>, depth: nat)
    ensures TotalsOf(ts + more, depth) == TotalsOf(ts, depth) + TotalsOf(more, depth)
    decreases |ts|
  {
    if ts == [] {
      assert TotalsOf(ts, depth) == [];
      hide *;
      assert ts + more == more;
      assert [] + TotalsOf(more, depth) == TotalsOf(more, depth);
    } else {
      hide *;
      assert (ts + more)[0] == ts[0] && (ts + more)[1..] == ts[1..] + more;
      TotalsOfFirst(ts, depth);
      TotalsOfFirst(ts + more, depth);
      TotalsOfConcat(ts[1..], more, depth);
      Regroup(TotalsOf([ts[0]], depth), TotalsOf(ts[1..], depth), TotalsOf(more, depth));
    }
  }

  lemma HeadersAround(before: seq<Tree>, t: Tree, after: seq<Tree>, depth: nat)
    ensures HeadersOf(before + [t] + after, depth)
         == HeadersOf(before, depth) + HeadersOf([t], depth) + HeadersOf(after, depth)
    ensures TotalsOf(before + [t] + after, depth)
         == TotalsOf(before, depth) + TotalsOf([t], depth) + TotalsOf(after, depth)
  {
    hide *;
    HeadersOfConcat(before + [t], after, depth);
    HeadersOfConcat(before, [t], depth);
    TotalsOfConcat(before + [t], after, depth);
    TotalsOfConcat(before, [t], depth);
  }

  lemma OuterKeepsNothing(t: Tree, depth: nat)
    requires t.Node? && exists child | child in t.children :: child.Node?
    ensures t.children[0].Node? ==> HeadersOf([t], depth) == HeadersOf(t.children, depth + 1)
    ensures TotalsOf([t], depth) == TotalsOf(t.children, depth + 1)
  {
    HeadersOfNode(t, depth);
    hide HeadersOf, TotalsOf;
    assert !AllPlain(t.children);
  }

  /**
   Wherever it stands at the top of a report, a section with an inner section has its total dropped by the filter, and
   one that begins with an inner section its header too: what is left of it are the headers and totals of what is inside.
   */
  lemma NestedSectionLosesOuter(value: Json, before: seq<Tree>, t: Tree, after: seq<Tree>, n: Numbers)
    requires IsReport(value, before + [t] + after, n)
    requires t.Node? && exists child | child in t.children :: child.Node?
    ensures var rows := Omit(Flatten(value, 0, n));
            && Totals(rows) == TotalsOf(before, 0) + TotalsOf(t.children, 1) + TotalsOf(after, 0)
            && (t.children[0].Node? ==>
                  Sections(rows) == HeadersOf(before, 0) + HeadersOf(t.children, 1) + HeadersOf(after, 0))
  {
    hide *;
    ReportSectionsKept(value, before + [t] + after, n);
    HeadersAround(before, t, after, 0);
    OuterKeepsNothing(t, 0);
  }
}
