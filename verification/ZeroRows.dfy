/** Dropping zero rows from a flattened report, and the sums that must not change. */
module ZeroRows {
  import opened Wrappers
  import opened Reports

  function NonZero(rows: seq<Row>): seq<Row> {
    if rows == [] then []
    else (if rows[0].IsZero() then [] else [rows[0]]) + NonZero(rows[1..])
  }

  predicate StopsChunk(row: Row) { row.kind.Section? || row.kind.GrandTotal? || row.IsNotSpecified() }

  /** How many rows after a section header belong to its chunk. */
  function ChunkLength(rows: seq<Row>): (n: nat)
    ensures n <= |rows|
  {
    if rows == [] || StopsChunk(rows[0]) then 0
    else if rows[0].kind.SectionTotal? then 1
    else 1 + ChunkLength(rows[1..])
  }

  predicate HasData(rows: seq<Row>) { exists r | r in rows :: r.kind.Data? }

  /** What one round of the loop appends, and how many rows it moves past. */
  function Round(rows: seq<Row>): (r: (seq<Row>, nat))
    requires rows != []
    ensures 1 <= r.1 <= |rows|
  {
    var row, rest := rows[0], rows[1..];
    if row.kind.GrandTotal? || row.IsNotSpecified() then ([], 1)
    else if row.kind.Section? then
      var n := ChunkLength(rest);
      var chunk := [row] + NonZero(rest[..n]);
      (if HasData(chunk) then chunk else [], 1 + n)
    else if row.kind.Data? && !row.IsZero() then ([row], 1)
    else ([], 1)
  }

  /** Everything but the last "Not Specified" row and the last grand total. */
  function Body(rows: seq<Row>): seq<Row>
    decreases |rows|
  {
    if rows == [] then [] else Round(rows).0 + Body(rows[Round(rows).1..])
  }

  function LastNotSpecified(rows: seq<Row>): Option<Row> {
    if rows == [] then None
    else if rows[|rows| - 1].IsNotSpecified() then Some(rows[|rows| - 1])
    else LastNotSpecified(rows[..|rows| - 1])
  }

  function LastGrandTotal(rows: seq<Row>): Option<Row> {
    if rows == [] then None
    else if rows[|rows| - 1].kind.GrandTotal? then Some(rows[|rows| - 1])
    else LastGrandTotal(rows[..|rows| - 1])
  }

  function AsSeq(row: Option<Row>): seq<Row> { if row.Some? then [row.value] else [] }

  function Tail(rows: seq<Row>): seq<Row> {
    NonZero(AsSeq(LastNotSpecified(rows))) + AsSeq(LastGrandTotal(rows))
  }

  function Omit(rows: seq<Row>): seq<Row> { Body(rows) + Tail(rows) }

  lemma {:induction false} NonZeroAppend(a: seq<Row>, b: seq<Row>)
    ensures NonZero(a + b) == NonZero(a) + NonZero(b)
    decreases |a|
  {
    if a == [] {
      assert a + b == b && [] + NonZero(b) == NonZero(b);
    } else {
      NonZeroAppend(a[1..], b);
      assert (a + b)[0] == a[0] && (a + b)[1..] == a[1..] + b;
      var first := if a[0].IsZero() then [] else [a[0]];
      assert NonZero(a + b) == first + NonZero((a + b)[1..]) && NonZero(a) == first + NonZero(a[1..]);
      hide NonZero;
      assert first + (NonZero(a[1..]) + NonZero(b)) == (first + NonZero(a[1..])) + NonZero(b);
    }
  }

  lemma Slices(rows: seq<Row>, lo: nat, mid: nat)
    requires lo <= mid < |rows|
    ensures rows[lo..mid + 1] == rows[lo..mid] + [rows[mid]]
    ensures rows[mid..][1..] == rows[mid + 1..]
    ensures rows[..mid + 1][..mid] == rows[..mid]
  {
  }

  lemma BodyNext(rows: seq<Row>, start: nat, index: nat)
    requires start < |rows| && index == start + Round(rows[start..]).1
    ensures index <= |rows| && Body(rows[start..]) == Round(rows[start..]).0 + Body(rows[index..])
  {
    assert rows[start..][index - start..] == rows[index..];
  }

  /** The index loop of the source, with its inner loop over a section's chunk. */
  method OmitZeroRows(rows: seq<Row>) returns (result: seq<Row>)
    ensures result == Omit(rows)
  {
    hide Body, NonZero, ChunkLength, HasData, Round;
    result := [];
    var notSpecified: Option<Row> := None;
    var grandTotal: Option<Row> := None;
    var index := 0;
    assert rows[0..] == rows;
    while index < |rows|
      invariant 0 <= index <= |rows|
      invariant Body(rows) == result + Body(rows[index..])
      invariant notSpecified == LastNotSpecified(rows[..index]) && grandTotal == LastGrandTotal(rows[..index])
    {
      var start := index;
      var out;
      Slices(rows, 0, start);
      out, index := OneRound(rows, start);
      BodyNext(rows, start, index);
      LastsUnchanged(rows, start + 1, index);
      result := result + out;
      if rows[start].kind.GrandTotal? {
        grandTotal := Some(rows[start]);
      } else if rows[start].IsNotSpecified() {
        notSpecified := Some(rows[start]);
      }
    }
    assert rows[..index] == rows;
    BodyOfNothing(rows[index..]);
    TailRows(notSpecified, grandTotal);
    if notSpecified.Some? && !notSpecified.value.IsZero() {
      result := result + [notSpecified.value];
    }
    if grandTotal.Some? {
      result := result + [grandTotal.value];
    }
  }

  lemma BodyOfNothing(rows: seq<Row>)
    requires rows == []
    ensures Body(rows) == []
  {
  }

  lemma TailRows(notSpecified: Option<Row>, grandTotal: Option<Row>)
    ensures NonZero(AsSeq(notSpecified))
         == if notSpecified.Some? && !notSpecified.value.IsZero() then AsSeq(notSpecified) else []
  {
  }

  /** One round: a row on its own, or a section header with its chunk. */
  method OneRound(rows: seq<Row>, start: nat) returns (out: seq<Row>, index: nat)
    requires start < |rows|
    ensures (out, index - start) == Round(rows[start..]) && index <= |rows|
    ensures start + 1 <= index <= start + 1 + ChunkLength(rows[start + 1..])
  {
    var row := rows[start];
    out, index := [], start + 1;
    if row.kind.GrandTotal? || row.IsNotSpecified() {
    } else if row.kind.Section? {
      var chunk;
      chunk, index := TakeChunk(rows, start + 1);
      assert rows[start..][1..] == rows[start + 1..];
      assert rows[start + 1..][..index - (start + 1)] == rows[start + 1..index];
      if exists r | r in [row] + chunk :: r.kind.Data? {
        out := [row] + chunk;
      }
    } else if row.kind.Data? && !row.IsZero() {
      out := [row];
    }
  }

  /** The inner loop: the rows after a header, up to its total or whatever starts something else. */
  method TakeChunk(rows: seq<Row>, first: nat) returns (chunk: seq<Row>, index: nat)
    requires first <= |rows|
    ensures index == first + ChunkLength(rows[first..]) && index <= |rows|
    ensures chunk == NonZero(rows[first..index])
  {
    chunk, index := [], first;
    while index < |rows|
      invariant first <= index <= |rows|
      invariant chunk == NonZero(rows[first..index])
      invariant ChunkLength(rows[first..]) == index - first + ChunkLength(rows[index..])
    {
      var next := rows[index];
      if next.kind.Section? || next.kind.GrandTotal? || next.IsNotSpecified() {
        break;
      }
      Slices(rows, first, index);
      NonZeroAppend(rows[first..index], [next]);
      index := index + 1;
      if next.kind.Section? || !next.IsZero() {
        chunk := chunk + [next];
      }
      if next.kind.SectionTotal? {
        return;
      }
    }
  }

  lemma {:induction false} ChunkStops(rows: seq<Row>)
    ensures forall r | r in rows[..ChunkLength(rows)] :: !StopsChunk(r)
    decreases |rows|
  {
    if rows == [] || StopsChunk(rows[0]) || rows[0].kind.SectionTotal? {
    } else {
      ChunkStops(rows[1..]);
      assert rows[..ChunkLength(rows)] == [rows[0]] + rows[1..][..ChunkLength(rows[1..])];
    }
  }

  lemma {:induction false} LastsUnchanged(rows: seq<Row>, lo: nat, hi: nat)
    requires lo <= hi <= |rows| && hi <= lo + ChunkLength(rows[lo..])
    ensures LastNotSpecified(rows[..hi]) == LastNotSpecified(rows[..lo])
    ensures LastGrandTotal(rows[..hi]) == LastGrandTotal(rows[..lo])
    decreases hi
  {
    if lo == hi {
    } else {
      LastsUnchanged(rows, lo, hi - 1);
      ChunkStops(rows[lo..]);
      assert rows[hi - 1] in rows[lo..][..ChunkLength(rows[lo..])];
      assert rows[..hi][..hi - 1] == rows[..hi - 1];
    }
  }
}
