/** What dropping zero rows keeps, drops, and leaves alone the second time. */
module ZeroRowsTheorems {
  import opened Wrappers
  import opened Texts
  import opened Reports
  import opened ReportOutlines
  import opened Reps
  import opened ZeroRows

  // ---- ordinary data survives, in order ----

  /** An amount other than zero, in a row that is not called "Not Specified". */
  predicate IsOrdinary(r: Row) { r.kind == Data && r.amount.Some? && r.amount.value != 0 && !r.IsNotSpecified() }

  function Ordinary(rows: seq<Row>): seq<Row> {
    if rows == [] then []
    else (if IsOrdinary(rows[0]) then [rows[0]] else []) + Ordinary(rows[1..])
  }

  lemma {:induction false} OrdinaryAppend(a: seq<Row>, b: seq<Row>)
    ensures Ordinary(a + b) == Ordinary(a) + Ordinary(b)
    decreases |a|
  {
    if a == [] {
      assert a + b == b && [] + Ordinary(b) == Ordinary(b);
    } else {
      OrdinaryAppend(a[1..], b);
      assert (a + b)[0] == a[0] && (a + b)[1..] == a[1..] + b;
      var first := if IsOrdinary(a[0]) then [a[0]] else [];
      assert Ordinary(a + b) == first + Ordinary((a + b)[1..]) && Ordinary(a) == first + Ordinary(a[1..]);
      hide Ordinary;
      assert first + (Ordinary(a[1..]) + Ordinary(b)) == (first + Ordinary(a[1..])) + Ordinary(b);
    }
  }

  lemma {:induction false} OrdinaryOfNonZero(rows: seq<Row>)
    ensures Ordinary(NonZero(rows)) == Ordinary(rows)
    decreases |rows|
  {
    if rows == [] {
    } else {
      OrdinaryOfNonZero(rows[1..]);
      OrdinaryAppend(if rows[0].IsZero() then [] else [rows[0]], NonZero(rows[1..]));
    }
  }

  lemma {:induction false} NoDataNoOrdinary(rows: seq<Row>)
    requires !HasData(rows)
    ensures Ordinary(rows) == []
    decreases |rows|
  {
    if rows == [] {
    } else {
      assert forall r | r in rows[1..] :: r in rows;
      NoDataNoOrdinary(rows[1..]);
    }
  }

  lemma SectionKeepsOrdinary(row: Row, taken: seq<Row>)
    requires row.kind.Section?
    ensures var chunk := [row] + NonZero(taken);
            Ordinary(if HasData(chunk) then chunk else []) == Ordinary([row] + taken)
  {
    var chunk := [row] + NonZero(taken);
    OrdinaryOfNonZero(taken);
    OrdinaryAppend([row], taken);
    OrdinaryAppend([row], NonZero(taken));
    if !HasData(chunk) {
      NoDataNoOrdinary(chunk);
    }
  }

  lemma RoundKeepsOrdinary(rows: seq<Row>)
    requires rows != []
    ensures Ordinary(Round(rows).0) == Ordinary(rows[..Round(rows).1])
  {
    var row, rest := rows[0], rows[1..];
    if row.kind.Section? {
      hide Ordinary, NonZero, HasData;
      var n := ChunkLength(rest);
      assert rows[..1 + n] == [row] + rest[..n];
      SectionKeepsOrdinary(row, rest[..n]);
    } else {
      assert rows[..1] == [row];
      OneRow(row);
    }
  }

  lemma {:induction false} BodyKeepsOrdinary(rows: seq<Row>)
    ensures Ordinary(Body(rows)) == Ordinary(rows)
    decreases |rows|
  {
    if rows == [] {
    } else {
      var (out, n) := Round(rows);
      BodyKeepsOrdinary(rows[n..]);
      RoundKeepsOrdinary(rows);
      OrdinaryAppend(out, Body(rows[n..]));
      OrdinaryAppend(rows[..n], rows[n..]);
      assert rows == rows[..n] + rows[n..];
    }
  }

  lemma LastsAreSpecial(rows: seq<Row>)
    ensures LastNotSpecified(rows).Some? ==> LastNotSpecified(rows).value.IsNotSpecified()
    ensures LastGrandTotal(rows).Some? ==> LastGrandTotal(rows).value.kind.GrandTotal?
  {
  }

  function NotSpecifiedSum(rows: seq<Row>): int {
    if rows == [] then 0
    else (if rows[0].IsNotSpecified() then rows[0].amount.GetOr(0) else 0) + NotSpecifiedSum(rows[1..])
  }

  lemma OneRow(r: Row)
    ensures Ordinary([r]) == if IsOrdinary(r) then [r] else []
    ensures NotSpecifiedSum([r]) == if r.IsNotSpecified() then r.amount.GetOr(0) else 0
  {
    assert [r][1..] == [];
  }

  /** What the two rows at the end add: no ordinary data, and the last "Not Specified" amount. */
  lemma TailAdds(notSpecified: Option<Row>, grandTotal: Option<Row>)
    requires notSpecified.Some? ==> notSpecified.value.IsNotSpecified()
    requires grandTotal.Some? ==> grandTotal.value.kind.GrandTotal?
    ensures Ordinary(NonZero(AsSeq(notSpecified)) + AsSeq(grandTotal)) == []
    ensures NotSpecifiedSum(NonZero(AsSeq(notSpecified)) + AsSeq(grandTotal))
         == if notSpecified.Some? then notSpecified.value.amount.GetOr(0) else 0
  {
    TailRows(notSpecified, grandTotal);
    var a, b := NonZero(AsSeq(notSpecified)), AsSeq(grandTotal);
    OrdinaryAppend(a, b);
    NotSpecifiedSumAppend(a, b);
    if notSpecified.Some? { OneRow(notSpecified.value); }
    if grandTotal.Some? { OneRow(grandTotal.value); }
  }

  /** Every non-zero data row not called "Not Specified" is kept exactly once, in the original order. */
  lemma OrdinaryRowsKept(rows: seq<Row>)
    ensures Ordinary(Omit(rows)) == Ordinary(rows)
  {
    BodyKeepsOrdinary(rows);
    OrdinaryAppend(Body(rows), Tail(rows));
    LastsAreSpecial(rows);
    TailAdds(LastNotSpecified(rows), LastGrandTotal(rows));
    hide Body, LastNotSpecified, LastGrandTotal, Ordinary;
  }

  // ---- nothing else stays without need ----

  lemma {:induction false} NonZeroIsNonZero(rows: seq<Row>)
    ensures forall r | r in NonZero(rows) :: r in rows && !r.IsZero()
    decreases |rows|
  {
    if rows == [] {
    } else {
      NonZeroIsNonZero(rows[1..]);
    }
  }

  /** What a row of the filtered body can be. */
  predicate Fits(r: Row) {
    r.kind.Section? || (!r.IsZero() && !r.kind.GrandTotal? && !r.IsNotSpecified())
  }

  lemma RoundFits(rows: seq<Row>)
    requires rows != []
    ensures forall r | r in Round(rows).0 :: Fits(r)
  {
    var rest := rows[1..];
    NonZeroIsNonZero(rest[..ChunkLength(rest)]);
    ChunkStops(rest);
  }

  lemma {:induction false} BodyFits(rows: seq<Row>)
    ensures forall r | r in Body(rows) :: Fits(r)
    decreases |rows|
  {
    if rows == [] {
    } else {
      RoundFits(rows);
      BodyFits(rows[Round(rows).1..]);
      hide Round;
    }
  }

  /** The only zero rows left are section headers and the grand total. */
  lemma OnlyHeadersMayBeZero(rows: seq<Row>)
    ensures forall r | r in Omit(rows) ::
              r.amount == None || r.amount == Some(0) ==> r.kind == Section || r.kind == GrandTotal
  {
    BodyFits(rows);
    LastsAreSpecial(rows);
    NonZeroIsNonZero(AsSeq(LastNotSpecified(rows)));
    hide Body, LastNotSpecified, LastGrandTotal, NonZero;
  }

  lemma NonZeroOne(r: Row)
    ensures NonZero([r]) == if r.IsZero() then [] else [r]
  {
    assert [r][1..] == [];
  }

  /** `xs` is `ys` without some of its elements. */
  ghost predicate IsPartOf<T>(xs: seq<T>, ys: seq<T>) {
    xs == [] || (ys != [] && ((xs[0] == ys[0] && IsPartOf(xs[1..], ys[1..])) || IsPartOf(xs, ys[1..])))
  }

  lemma {:induction false} PartInFront<T>(a: seq<T>, b: seq<T>, xs: seq<T>, ys: seq<T>)
    requires IsPartOf(a, b) && IsPartOf(xs, ys)
    ensures IsPartOf(a + xs, b + ys)
    decreases |b|
  {
    if b == [] {
      assert a + xs == xs && b + ys == ys;
    } else if a != [] && a[0] == b[0] && IsPartOf(a[1..], b[1..]) {
      PartInFront(a[1..], b[1..], xs, ys);
      assert (a + xs)[0] == (b + ys)[0] && (a + xs)[1..] == a[1..] + xs && (b + ys)[1..] == b[1..] + ys;
    } else {
      PartInFront(a, b[1..], xs, ys);
      assert (b + ys)[1..] == b[1..] + ys;
    }
  }

  lemma {:induction false} NonZeroIsPart(rows: seq<Row>)
    ensures IsPartOf(NonZero(rows), rows)
    decreases |rows|
  {
    if rows == [] {
    } else {
      NonZeroIsPart(rows[1..]);
      if rows[0].IsZero() {
        assert NonZero(rows) == NonZero(rows[1..]);
      } else {
        assert NonZero(rows)[0] == rows[0] && NonZero(rows)[1..] == NonZero(rows[1..]);
      }
    }
  }

  lemma RoundIsPart(rows: seq<Row>)
    requires rows != []
    ensures IsPartOf(Round(rows).0, rows[..Round(rows).1])
  {
    var row, rest := rows[0], rows[1..];
    if row.kind.Section? {
      var k := ChunkLength(rest);
      NonZeroIsPart(rest[..k]);
      var chunk := [row] + NonZero(rest[..k]);
      assert rows[..1 + k] == [row] + rest[..k];
      assert chunk[0] == rows[..1 + k][0] && chunk[1..] == NonZero(rest[..k]) && rows[..1 + k][1..] == rest[..k];
    } else {
      assert rows[..1] == [row] && [row][1..] == [];
    }
  }

  /** The rows that are left stand as they stood, in the same order and none of them twice. */
  lemma {:induction false} BodyIsPart(rows: seq<Row>)
    ensures IsPartOf(Body(rows), rows)
    decreases |rows|
  {
    if rows == [] {
    } else {
      var (out, n) := Round(rows);
      RoundIsPart(rows);
      BodyIsPart(rows[n..]);
      hide Round, IsPartOf;
      PartInFront(out, rows[..n], Body(rows[n..]), rows[n..]);
      assert rows == rows[..n] + rows[n..];
    }
  }

  predicate IsLastNotSpecified(rows: seq<Row>, i: nat) {
    i < |rows| && rows[i].IsNotSpecified() && forall j | i < j < |rows| :: !rows[j].IsNotSpecified()
  }

  lemma {:induction false} LastsAre(rows: seq<Row>)
    ensures forall i: nat | IsLastNotSpecified(rows, i) :: LastNotSpecified(rows) == Some(rows[i])
    ensures forall i: nat | IsLastGrandTotal(rows, i) :: LastGrandTotal(rows) == Some(rows[i])
    decreases |rows|
  {
    if rows == [] {
    } else {
      var n := |rows| - 1;
      LastsAre(rows[..n]);
      forall i: nat | IsLastNotSpecified(rows, i) ensures LastNotSpecified(rows) == Some(rows[i]) {
        if i < n {
          assert IsLastNotSpecified(rows[..n], i);
        }
      }
      forall i: nat | IsLastGrandTotal(rows, i) ensures LastGrandTotal(rows) == Some(rows[i]) {
        if i < n {
          assert IsLastGrandTotal(rows[..n], i);
        }
      }
    }
  }

  lemma {:induction false} LastsAreThere(rows: seq<Row>)
    ensures LastNotSpecified(rows).Some? ==> LastNotSpecified(rows).value in rows
    ensures LastGrandTotal(rows).Some? ==> LastGrandTotal(rows).value in rows
    decreases |rows|
  {
    if rows == [] {
    } else {
      LastsAreThere(rows[..|rows| - 1]);
      assert forall r | r in rows[..|rows| - 1] :: r in rows;
    }
  }

  /**
   The other rows that are left stand as they stood, in the same order and none of them twice; behind them come the
   last "Not Specified" row when it is not zero, and then the last grand total.
   */
  lemma SpecialRowsAtEnd(rows: seq<Row>) returns (body: seq<Row>, nobody: seq<Row>, total: seq<Row>)
    ensures Omit(rows) == body + nobody + total
    ensures IsPartOf(body, rows) && forall r | r in body :: !r.IsNotSpecified() && !r.kind.GrandTotal?
    ensures forall i: nat | IsLastNotSpecified(rows, i) :: nobody == if rows[i].IsZero() then [] else [rows[i]]
    ensures forall i: nat | IsLastGrandTotal(rows, i) :: total == [rows[i]]
    ensures (forall r | r in rows :: !r.IsNotSpecified()) ==> nobody == []
    ensures (forall r | r in rows :: !r.kind.GrandTotal?) ==> total == []
  {
    BodyFits(rows);
    BodyIsPart(rows);
    LastsAre(rows);
    LastsAreThere(rows);
    LastsAreSpecial(rows);
    TailRows(LastNotSpecified(rows), LastGrandTotal(rows));
    hide Body, LastNotSpecified, LastGrandTotal, NonZero, IsPartOf;
    body, nobody, total := Body(rows), NonZero(AsSeq(LastNotSpecified(rows))), AsSeq(LastGrandTotal(rows));
    assert Omit(rows) == body + nobody + total;
  }

  // ---- sums per sales rep ----

  function SumForRep(rows: seq<Row>, rep: string): int {
    if rows == [] then 0
    else
      (if rows[0].kind.Data? && MatchesRep(rows[0].name, rep) then rows[0].amount.GetOr(0) else 0)
      + SumForRep(rows[1..], rep)
  }

  function AmountFor(row: Row, rep: string): int {
    if row.kind == Data && row.amount.Some? && MatchesRep(row.name, rep) then row.amount.value else 0
  }

  /** The sum adds up the amounts of the data rows that match the rep, wherever they stand. */
  lemma {:induction false} SumAddsRow(before: seq<Row>, row: Row, after: seq<Row>, rep: string)
    ensures SumForRep([], rep) == 0
    ensures SumForRep(before + [row] + after, rep) == SumForRep(before, rep) + AmountFor(row, rep) + SumForRep(after, rep)
    decreases |before|
  {
    hide MatchesRep;
    var all := before + [row] + after;
    if before == [] {
      assert all[0] == row && all[1..] == after;
    } else {
      assert all[0] == before[0] && all[1..] == before[1..] + [row] + after;
      SumAddsRow(before[1..], row, after, rep);
    }
  }

  predicate IsNobody(rep: string) { Lower(Trim(rep)) == "not specified" }

  lemma NotSpecifiedMatches(name: string, rep: string)
    requires Lower(Trim(name)) == "not specified"
    ensures MatchesRep(name, rep) <==> IsNobody(rep)
  {
    if MatchesRep(name, rep) {
      NotSpecifiedIsNobody(name, rep);
    }
  }

  /** A rep's sum is made of the ordinary rows, and for a rep of that name of the "Not Specified" rows. */
  lemma {:induction false} SumIsOfOrdinary(rows: seq<Row>, rep: string)
    ensures SumForRep(rows, rep) == SumForRep(Ordinary(rows), rep) + if IsNobody(rep) then NotSpecifiedSum(rows) else 0
    decreases |rows|
  {
    if rows == [] {
    } else {
      var row := rows[0];
      SumIsOfOrdinary(rows[1..], rep);
      if row.IsNotSpecified() {
        NotSpecifiedMatches(row.name, rep);
      }
      hide MatchesRep;
      if IsOrdinary(row) {
        assert Ordinary(rows)[1..] == Ordinary(rows[1..]);
      } else {
        assert Ordinary(rows) == Ordinary(rows[1..]);
      }
    }
  }

  lemma {:induction false} NotSpecifiedSumAppend(a: seq<Row>, b: seq<Row>)
    ensures NotSpecifiedSum(a + b) == NotSpecifiedSum(a) + NotSpecifiedSum(b)
    decreases |a|
  {
    if a == [] {
      assert a + b == b;
    } else {
      NotSpecifiedSumAppend(a[1..], b);
      assert (a + b)[1..] == a[1..] + b;
    }
  }

  lemma {:induction false} NoneSpecifiedNoSum(rows: seq<Row>)
    requires forall r | r in rows :: !r.IsNotSpecified()
    ensures NotSpecifiedSum(rows) == 0
    decreases |rows|
  {
    if rows == [] {
    } else {
      NoneSpecifiedNoSum(rows[1..]);
    }
  }

  function LastNotSpecifiedAmount(rows: seq<Row>): int {
    var last := LastNotSpecified(rows);
    if last.Some? then last.value.amount.GetOr(0) else 0
  }

  lemma OmitNotSpecifiedSum(rows: seq<Row>)
    ensures NotSpecifiedSum(Omit(rows)) == LastNotSpecifiedAmount(rows)
  {
    BodyFits(rows);
    LastsAreSpecial(rows);
    hide Body, LastNotSpecified, LastGrandTotal;
    assert forall r | r in Body(rows) :: Fits(r) && !r.IsNotSpecified();
    NoneSpecifiedNoSum(Body(rows));
    NotSpecifiedSumAppend(Body(rows), Tail(rows));
    TailAdds(LastNotSpecified(rows), LastGrandTotal(rows));
  }

  /**
   A rep's sum is the same before and after, except for a rep named "Not Specified": that one keeps
   only the last row of the name, so its sum stays the same exactly when the others add up to zero.
   */
  lemma RepSumsKept(rows: seq<Row>, rep: string)
    ensures SumForRep(Omit(rows), rep) == SumForRep(rows, rep)
       <==> !IsNobody(rep) || NotSpecifiedSum(rows) == LastNotSpecifiedAmount(rows)
  {
    OrdinaryRowsKept(rows);
    SumIsOfOrdinary(rows, rep);
    SumIsOfOrdinary(Omit(rows), rep);
    OmitNotSpecifiedSum(rows);
    hide *;
  }

  // ---- doing it twice ----

  /** Where a scan of filtered rows is: outside a section, behind a header, or behind a section's data. */
  datatype Place = Outside | Opened | Filled

  function Next(place: Place, r: Row): Option<Place> {
    match r.kind
    case Section => if place.Opened? then None else Some(Opened)
    case Data => if r.IsZero() || r.IsNotSpecified() then None else Some(if place.Outside? then Outside else Filled)
    case SectionTotal => if r.IsZero() || !place.Filled? then None else Some(Outside)
    case GrandTotal => None
  }

  /** Every header has data behind it and every total closes a section: nothing here would be dropped. */
  predicate Tidy(rows: seq<Row>, place: Place) {
    if rows == [] then !place.Opened?
    else Next(place, rows[0]).Some? && Tidy(rows[1..], Next(place, rows[0]).value)
  }

  lemma {:induction false} TidyAfterSection(rows: seq<Row>)
    requires Tidy(rows, Outside)
    ensures Tidy(rows, Filled)
    decreases |rows|
  {
    if rows == [] || !rows[0].kind.Data? {
    } else {
      TidyAfterSection(rows[1..]);
    }
  }

  /** The non-zero rows of a chunk, with tidy rows behind them, are tidy behind the section's header. */
  lemma {:induction false} ChunkIsTidy(rows: seq<Row>, place: Place, more: seq<Row>)
    requires !place.Outside? && Tidy(more, Outside)
    requires place.Filled? || HasData(NonZero(rows[..ChunkLength(rows)]))
    ensures Tidy(NonZero(rows[..ChunkLength(rows)]) + more, place)
    decreases |rows|
  {
    var kept := NonZero(rows[..ChunkLength(rows)]);
    if rows == [] || StopsChunk(rows[0]) {
      assert kept + more == more;
      TidyAfterSection(more);
    } else if rows[0].kind.SectionTotal? {
      assert rows[..ChunkLength(rows)] == [rows[0]];
      NonZeroOne(rows[0]);
      if rows[0].IsZero() {
        assert kept + more == more;
        TidyAfterSection(more);
      } else {
        assert (kept + more)[1..] == more;
      }
    } else {
      var rest := NonZero(rows[1..][..ChunkLength(rows[1..])]);
      assert rows[..ChunkLength(rows)][1..] == rows[1..][..ChunkLength(rows[1..])];
      if rows[0].IsZero() {
        assert kept == rest;
        ChunkIsTidy(rows[1..], place, more);
      } else {
        assert kept == [rows[0]] + rest;
        assert (kept + more)[1..] == rest + more;
        ChunkIsTidy(rows[1..], Filled, more);
      }
    }
  }

  lemma RoundIsTidy(rows: seq<Row>, more: seq<Row>)
    requires rows != [] && Tidy(more, Outside)
    ensures Tidy(Round(rows).0 + more, Outside)
  {
    hide ChunkLength, NonZero;
    var out := Round(rows).0;
    if out == [] {
      assert out + more == more;
    } else if rows[0].kind.Section? {
      var kept := NonZero(rows[1..][..ChunkLength(rows[1..])]);
      assert out == [rows[0]] + kept && HasData(kept);
      ChunkIsTidy(rows[1..], Opened, more);
      assert (out + more)[0] == rows[0] && (out + more)[1..] == kept + more;
    } else {
      assert (out + more)[0] == rows[0] && (out + more)[1..] == more;
    }
  }

  lemma {:induction false} BodyIsTidy(rows: seq<Row>)
    ensures Tidy(Body(rows), Outside)
    decreases |rows|
  {
    if rows == [] {
    } else {
      var n := Round(rows).1;
      BodyIsTidy(rows[n..]);
      RoundIsTidy(rows, Body(rows[n..]));
      hide Round, Tidy;
    }
  }

  /** In front of `tail`, the rows up to the end of the open section are one chunk of non-zero rows. */
  predicate IsChunk(rows: seq<Row>, place: Place, n: nat) {
    && n <= |rows| && NonZero(rows[..n]) == rows[..n] && Tidy(rows[n..], Outside)
    && (place.Opened? ==> HasData(rows[..n]))
  }

  lemma ChunkEnds(rows: seq<Row>, place: Place, tail: seq<Row>)
    requires Tidy(rows, place) && !place.Outside? && AllSpecial(tail)
    requires rows != [] ==> !rows[0].kind.Data?
    ensures IsChunk(rows, place, ChunkLength(rows + tail))
  {
    if rows == [] {
      assert rows + tail == tail && (tail != [] ==> tail[0] in tail);
    } else {
      assert (rows + tail)[0] == rows[0] && rows[0..] == rows;
      if rows[0].kind.SectionTotal? {
        assert rows[..1] == [rows[0]];
        NonZeroOne(rows[0]);
      }
    }
  }

  lemma ChunkGoesOn(rows: seq<Row>, tail: seq<Row>)
    requires rows != [] && rows[0].kind.Data? && !StopsChunk(rows[0])
    ensures ChunkLength(rows + tail) == 1 + ChunkLength(rows[1..] + tail)
  {
    assert (rows + tail)[0] == rows[0] && (rows + tail)[1..] == rows[1..] + tail;
  }

  lemma ChunkGrows(rows: seq<Row>, n: nat)
    requires rows != [] && rows[0].kind.Data? && !rows[0].IsZero() && IsChunk(rows[1..], Filled, n)
    ensures IsChunk(rows, Opened, n + 1)
  {
    hide Tidy;
    assert rows[n + 1..] == rows[1..][n..];
    assert rows[..n + 1][0] == rows[0] && rows[..n + 1][1..] == rows[1..][..n];
    assert rows[..n + 1] == [rows[0]] + rows[1..][..n];
    assert rows[0] in rows[..n + 1];
  }

  lemma TidyData(rows: seq<Row>, place: Place)
    requires Tidy(rows, place) && !place.Outside? && rows != [] && rows[0].kind.Data?
    ensures Tidy(rows[1..], Filled) && !rows[0].IsZero() && !StopsChunk(rows[0])
  {
  }

  lemma {:induction false} TidyChunk(rows: seq<Row>, place: Place, tail: seq<Row>)
    requires Tidy(rows, place) && !place.Outside? && AllSpecial(tail)
    ensures IsChunk(rows, place, ChunkLength(rows + tail))
    decreases |rows|
  {
    if rows == [] || !rows[0].kind.Data? {
      ChunkEnds(rows, place, tail);
    } else {
      TidyData(rows, place);
      hide ChunkLength, NonZero, HasData, AllSpecial, Tidy, IsChunk, StopsChunk;
      TidyChunk(rows[1..], Filled, tail);
      ChunkGoesOn(rows, tail);
      ChunkGrows(rows, ChunkLength(rows[1..] + tail));
    }
  }

  lemma SectionRound(rows: seq<Row>, tail: seq<Row>, n: nat)
    requires rows != [] && rows[0].kind.Section? && n == ChunkLength(rows[1..] + tail) <= |rows| - 1
    requires NonZero(rows[1..][..n]) == rows[1..][..n] && HasData(rows[1..][..n])
    ensures Round(rows + tail) == (rows[..1 + n], 1 + n)
  {
    hide ChunkLength, NonZero;
    var all := rows + tail;
    assert all[0] == rows[0] && all[1..] == rows[1..] + tail;
    assert all[1..][..n] == rows[1..][..n];
    assert rows[..1 + n] == [rows[0]] + rows[1..][..n];
    var r :| r in rows[1..][..n] && r.kind.Data?;
    assert r in [rows[0]] + rows[1..][..n];
  }

  predicate AllSpecial(rows: seq<Row>) { forall r | r in rows :: r.kind.GrandTotal? || r.IsNotSpecified() }

  lemma TidyRound(rows: seq<Row>, tail: seq<Row>) returns (n: nat)
    requires Tidy(rows, Outside) && rows != [] && AllSpecial(tail)
    ensures 1 <= n <= |rows| && Round(rows + tail) == (rows[..n], n) && Tidy(rows[n..], Outside)
  {
    hide ChunkLength, NonZero, HasData;
    assert (rows + tail)[0] == rows[0];
    if rows[0].kind.Section? {
      TidyChunk(rows[1..], Opened, tail);
      var k := ChunkLength(rows[1..] + tail);
      SectionRound(rows, tail, k);
      assert rows[1..][k..] == rows[1 + k..];
      n := 1 + k;
    } else {
      assert rows[..1] == [rows[0]];
      n := 1;
    }
  }

  /** Tidy rows pass the filter unchanged; the special rows behind them are taken out. */
  lemma {:induction false} TidyStays(rows: seq<Row>, tail: seq<Row>)
    requires Tidy(rows, Outside) && AllSpecial(tail)
    ensures Body(rows + tail) == rows
    decreases |rows| + |tail|
  {
    hide ChunkLength, NonZero, HasData, Tidy;
    if rows == [] {
      assert rows + tail == tail;
      if tail != [] {
        TidyStays([], tail[1..]);
        assert [] + tail[1..] == tail[1..];
      }
    } else {
      var n := TidyRound(rows, tail);
      hide Round;
      TidyStays(rows[n..], tail);
      assert (rows + tail)[n..] == rows[n..] + tail;
      assert rows == rows[..n] + rows[n..];
    }
  }

  lemma {:induction false} LastsBehind(rows: seq<Row>, notSpecified: Option<Row>, grandTotal: Option<Row>)
    requires forall r | r in rows :: !r.kind.GrandTotal? && !r.IsNotSpecified()
    requires notSpecified.Some? ==> notSpecified.value.IsNotSpecified()
    requires grandTotal.Some? ==> grandTotal.value.kind.GrandTotal?
    ensures LastNotSpecified(rows + AsSeq(notSpecified) + AsSeq(grandTotal)) == notSpecified
    ensures LastGrandTotal(rows + AsSeq(notSpecified) + AsSeq(grandTotal)) == grandTotal
    decreases |rows| + |AsSeq(notSpecified)| + |AsSeq(grandTotal)|
  {
    var all := rows + AsSeq(notSpecified) + AsSeq(grandTotal);
    if grandTotal.Some? {
      LastsBehind(rows, notSpecified, None);
      assert all[..|all| - 1] == rows + AsSeq(notSpecified) + AsSeq(None);
    } else if notSpecified.Some? {
      LastsBehind(rows, None, None);
      assert all[..|all| - 1] == rows + AsSeq(None) + AsSeq(None);
    } else if rows == [] {
    } else {
      LastsBehind(rows[..|rows| - 1], None, None);
      assert all[..|all| - 1] == rows[..|rows| - 1] + AsSeq(None) + AsSeq(None);
    }
  }

  /** Dropping zero rows a second time changes nothing. */
  lemma OmitTwice(rows: seq<Row>)
    ensures Omit(Omit(rows)) == Omit(rows)
  {
    var body := Body(rows);
    var last, total := LastNotSpecified(rows), LastGrandTotal(rows);
    var kept := if last.Some? && !last.value.IsZero() then last else None;
    LastsAreSpecial(rows);
    BodyIsTidy(rows);
    BodyFits(rows);
    TailRows(last, total);
    TailRows(kept, total);
    assert Tail(rows) == AsSeq(kept) + AsSeq(total);
    hide NonZero, Tidy;
    TidyStays(body, AsSeq(kept) + AsSeq(total));
    assert Omit(rows) == body + AsSeq(kept) + AsSeq(total);
    LastsBehind(body, kept, total);
    hide Body, LastNotSpecified, LastGrandTotal;
    assert body + (AsSeq(kept) + AsSeq(total)) == Omit(rows);
  }
}
