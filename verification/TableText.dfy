/** Query results as text: a header and one line per row, `mysql --batch` style. */
module TableText {
  import opened Wrappers
  import opened Texts

  type Cells = seq<Option<string>>

  /** `s.replace(c, with)` */
  function Replace(s: string, c: char, with: string): string {
    if s == "" then "" else (if s[0] == c then with else [s[0]]) + Replace(s[1..], c, with)
  }

  function Escape(value: string): string {
    Replace(Replace(Replace(value, '\\', "\\\\"), '\t', "\\t"), '\n', "\\n")
  }

  function CellText(cell: Option<string>): string { if cell.None? then "NULL" else Escape(cell.value) }

  function RowLine(row: Cells): string {
    Join(seq(|row|, i requires 0 <= i < |row| => CellText(row[i])), '\t')
  }

  function HeaderLine(columns: seq<string>): string {
    Join(seq(|columns|, i requires 0 <= i < |columns| => Escape(columns[i])), '\t')
  }

  function Lines(columns: seq<string>, rows: seq<Cells>): seq<string> {
    [HeaderLine(columns)] + seq(|rows|, i requires 0 <= i < |rows| => RowLine(rows[i]))
  }

  method FormatTable(columns: seq<string>, rows: seq<Cells>) returns (out: string)
    ensures out == Join(Lines(columns, rows), '\n')
  {
    hide Escape, CellText, HeaderLine, RowLine;
    out := HeaderLine(columns);
    for i := 0 to |rows|
      invariant out == Join(Lines(columns, rows[..i]), '\n')
    {
      assert Lines(columns, rows[..i + 1]) == Lines(columns, rows[..i]) + [RowLine(rows[i])];
      JoinMore(Lines(columns, rows[..i]), RowLine(rows[i]), '\n');
      out := out + "\n";
      var line := RowLine(rows[i]);
      out := out + line;
    }
    assert rows[..|rows|] == rows;
  }

  /** The line that ends a cut text. */
  function Marker(): string { "... (truncated; add a LIMIT or aggregate)" }

  method Truncate(text: string, max: nat) returns (r: string)
    ensures r == Truncated(text, max)
    ensures |text| <= max ==> r == text
    ensures |text| > max ==>
              Split(r, '\n') == Split(text[..max], '\n') + ["... (truncated; add a LIMIT or aggregate)"]
    ensures |text| > max ==> Extends(Split(text[..max], '\n'), Split(text, '\n'))
  {
    hide Split, Extends;
    r := text;
    if |text| > max {
      r := r[..max];
      r := r + "\n" + Marker();
      TruncatedLines(text, max);
    }
  }

  function Truncated(text: string, max: nat): string {
    if |text| > max then text[..max] + "\n" + Marker() else text
  }

  // ---- reading ----

  /** Undoes the escapes; other uses of the backslash have no reading. */
  function Unescape(s: string): Option<string> {
    if s == "" then Some("")
    else if s[0] != '\\' then Before(s[0], Unescape(s[1..]))
    else if |s| == 1 then None
    else if s[1] == '\\' then Before('\\', Unescape(s[2..]))
    else if s[1] == 't' then Before('\t', Unescape(s[2..]))
    else if s[1] == 'n' then Before('\n', Unescape(s[2..]))
    else None
  }

  function Before(c: char, rest: Option<string>): Option<string> {
    if rest.None? then None else Some([c] + rest.value)
  }

  function UnescapeAll(parts: seq<string>): Option<seq<string>> {
    if parts == [] then Some([]) else
    var first, rest := Unescape(parts[0]), UnescapeAll(parts[1..]);
    if first.None? || rest.None? then None else Some([first.value] + rest.value)
  }

  function ReadLine(line: string): Option<seq<string>> { UnescapeAll(Split(line, '\t')) }

  function ReadLines(lines: seq<string>): Option<seq<seq<string>>> {
    if lines == [] then Some([]) else
    var first, rest := ReadLine(lines[0]), ReadLines(lines[1..]);
    if first.None? || rest.None? then None else Some([first.value] + rest.value)
  }

  function ReadTable(text: string): Option<seq<seq<string>>> { ReadLines(Split(text, '\n')) }

  // ---- escaping ----

  function EscapeChar(c: char): string {
    if c == '\\' then "\\\\" else if c == '\t' then "\\t" else if c == '\n' then "\\n" else [c]
  }

  /** Each character on its own. */
  function OnePass(s: string): string {
    if s == "" then "" else EscapeChar(s[0]) + OnePass(s[1..])
  }

  lemma {:induction false} ReplaceAppend(a: string, b: string, c: char, with: string)
    ensures Replace(a + b, c, with) == Replace(a, c, with) + Replace(b, c, with)
    decreases |a|
  {
    if a == "" {
      assert a + b == b;
    } else {
      assert (a + b)[1..] == a[1..] + b;
      ReplaceAppend(a[1..], b, c, with);
    }
  }

  lemma {:induction false} ReplaceAbsent(s: string, c: char, with: string)
    requires c !in s
    ensures Replace(s, c, with) == s
  {
    if s == "" {
    } else {
      assert s[0] != c && c !in s[1..];
      ReplaceAbsent(s[1..], c, with);
    }
  }

  lemma ReplaceOne(c: char, d: char, with: string)
    ensures Replace([c], d, with) == if c == d then with else [c]
  {
    assert [c][1..] == "";
  }

  lemma EscapeOne(c: char)
    ensures Escape([c]) == EscapeChar(c)
  {
    ReplaceOne(c, '\\', "\\\\");
    if c == '\\' {
      ReplaceAbsent("\\\\", '\t', "\\t");
      ReplaceAbsent("\\\\", '\n', "\\n");
    } else {
      ReplaceOne(c, '\t', "\\t");
      if c == '\t' {
        ReplaceAbsent("\\t", '\n', "\\n");
      } else {
        ReplaceOne(c, '\n', "\\n");
      }
    }
  }

  /** The three replacements one after the other do not disturb each other. */
  lemma {:induction false} EscapeIsOnePass(s: string)
    ensures Escape(s) == OnePass(s)
  {
    if s == "" {
    } else {
      var once := Replace([s[0]], '\\', "\\\\");
      var twice := Replace(once, '\t', "\\t");
      assert s == [s[0]] + s[1..];
      ReplaceAppend([s[0]], s[1..], '\\', "\\\\");
      ReplaceAppend(once, Replace(s[1..], '\\', "\\\\"), '\t', "\\t");
      ReplaceAppend(twice, Replace(Replace(s[1..], '\\', "\\\\"), '\t', "\\t"), '\n', "\\n");
      EscapeOne(s[0]);
      EscapeIsOnePass(s[1..]);
    }
  }

  lemma CodeReadsBack(c: char, rest: string)
    ensures Unescape(EscapeChar(c) + rest) == Before(c, Unescape(rest))
    ensures '\t' !in EscapeChar(c) && '\n' !in EscapeChar(c)
  {
    assert (EscapeChar(c) + rest)[|EscapeChar(c)|..] == rest;
  }

  lemma {:induction false} OnePassReadsBack(s: string)
    ensures Unescape(OnePass(s)) == Some(s)
    ensures '\t' !in OnePass(s) && '\n' !in OnePass(s)
  {
    if s == "" {
    } else {
      OnePassReadsBack(s[1..]);
      assert OnePass(s) == EscapeChar(s[0]) + OnePass(s[1..]) && s == [s[0]] + s[1..];
      hide OnePass, Unescape, EscapeChar;
      CodeReadsBack(s[0], OnePass(s[1..]));
    }
  }

  lemma EscapeReadsBack(s: string)
    ensures Unescape(Escape(s)) == Some(s)
    ensures '\t' !in Escape(s) && '\n' !in Escape(s)
  {
    EscapeIsOnePass(s);
    OnePassReadsBack(s);
  }

  // ---- the round trip ----

  /** How a cell reads: a null is the text NULL. */
  function Shown(cell: Option<string>): string { cell.GetOr("NULL") }

  function ShownRow(row: Cells): seq<string> { seq(|row|, i requires 0 <= i < |row| => Shown(row[i])) }

  lemma NullIsPlain()
    ensures Escape("NULL") == "NULL"
  {
    hide Replace;
    ReplaceAbsent("NULL", '\\', "\\\\");
    ReplaceAbsent("NULL", '\t', "\\t");
    ReplaceAbsent("NULL", '\n', "\\n");
  }

  lemma CellReadsBack(cell: Option<string>)
    ensures Unescape(CellText(cell)) == Some(Shown(cell))
    ensures '\t' !in CellText(cell) && '\n' !in CellText(cell)
  {
    if cell.Some? {
      EscapeReadsBack(cell.value);
    } else {
      EscapeReadsBack("NULL");
      NullIsPlain();
    }
  }

  lemma {:induction false} AllReadBack(parts: seq<string>, values: seq<string>)
    requires |parts| == |values| && forall i | 0 <= i < |parts| :: Unescape(parts[i]) == Some(values[i])
    ensures UnescapeAll(parts) == Some(values)
    decreases |parts|
  {
    hide Unescape;
    if parts == [] {
    } else {
      AllReadBack(parts[1..], values[1..]);
      assert values == [values[0]] + values[1..];
    }
  }

  lemma {:induction false} JoinHasNo(parts: seq<string>, c: char, d: char)
    requires c != d && forall part | part in parts :: d !in part
    ensures d !in Join(parts, c)
    decreases |parts|
  {
    if |parts| <= 1 {
    } else {
      JoinHasNo(parts[1..], c, d);
    }
  }

  lemma RowReadsBack(row: Cells)
    requires row != []
    ensures ReadLine(RowLine(row)) == Some(ShownRow(row)) && '\n' !in RowLine(row)
  {
    hide CellText, Shown, Split, Join, UnescapeAll;
    var parts := seq(|row|, i requires 0 <= i < |row| => CellText(row[i]));
    forall i | 0 <= i < |row|
      ensures Unescape(parts[i]) == Some(ShownRow(row)[i]) && '\t' !in parts[i] && '\n' !in parts[i]
    {
      CellReadsBack(row[i]);
    }
    SplitJoin(parts, '\t');
    JoinHasNo(parts, '\t', '\n');
    AllReadBack(parts, ShownRow(row));
  }

  function AsCells(columns: seq<string>): Cells {
    seq(|columns|, i requires 0 <= i < |columns| => Some(columns[i]))
  }

  lemma HeaderIsRow(columns: seq<string>)
    ensures HeaderLine(columns) == RowLine(AsCells(columns)) && ShownRow(AsCells(columns)) == columns
  {
    assert seq(|columns|, i requires 0 <= i < |columns| => Escape(columns[i]))
        == seq(|columns|, i requires 0 <= i < |columns| => CellText(AsCells(columns)[i]));
  }

  /** The header and the rows as they read. */
  function ShownTable(columns: seq<string>, rows: seq<Cells>): seq<seq<string>> {
    [columns] + seq(|rows|, i requires 0 <= i < |rows| => ShownRow(rows[i]))
  }

  lemma LinesReadBack(columns: seq<string>, rows: seq<Cells>)
    requires columns != [] && forall row | row in rows :: row != []
    ensures forall i | 0 <= i <= |rows| ::
              ReadLine(Lines(columns, rows)[i]) == Some(ShownTable(columns, rows)[i]) && '\n' !in Lines(columns, rows)[i]
  {
    hide ReadLine, RowLine, HeaderLine, ShownRow;
    forall i | 0 <= i <= |rows|
      ensures ReadLine(Lines(columns, rows)[i]) == Some(ShownTable(columns, rows)[i]) && '\n' !in Lines(columns, rows)[i]
    {
      if i == 0 {
        HeaderIsRow(columns);
        RowReadsBack(AsCells(columns));
      } else {
        assert rows[i - 1] in rows;
        RowReadsBack(rows[i - 1]);
      }
    }
  }

  lemma {:induction false} AllLinesReadBack(lines: seq<string>, table: seq<seq<string>>)
    requires |lines| == |table| && forall i | 0 <= i < |lines| :: ReadLine(lines[i]) == Some(table[i])
    ensures ReadLines(lines) == Some(table)
    decreases |lines|
  {
    hide ReadLine;
    if lines == [] {
    } else {
      AllLinesReadBack(lines[1..], table[1..]);
      assert table == [table[0]] + table[1..];
    }
  }

  lemma {:induction false} LinesHaveCells(lines: seq<string>)
    ensures ReadLines(lines).Some? ==> forall cells | cells in ReadLines(lines).value :: cells != []
    decreases |lines|
  {
    if lines == [] {
    } else {
      LinesHaveCells(lines[1..]);
    }
  }

  /** Header and cells come back exactly when there is a column and no row is empty. */
  lemma TableRoundTrip(columns: seq<string>, rows: seq<Cells>)
    ensures ReadTable(Join(Lines(columns, rows), '\n')) == Some(ShownTable(columns, rows))
       <==> columns != [] && forall row | row in rows :: row != []
  {
    var table := ShownTable(columns, rows);
    if columns != [] && forall row | row in rows :: row != [] {
      hide ReadLine, ReadLines, Split, Join, Lines, ShownTable;
      LinesReadBack(columns, rows);
      assert |Lines(columns, rows)| == |table| == |rows| + 1 by { SameLength(columns, rows); }
      SplitJoin(Lines(columns, rows), '\n');
      AllLinesReadBack(Lines(columns, rows), table);
    } else {
      hide ReadLine, ReadLines, Split, Join, Lines;
      LinesHaveCells(Split(Join(Lines(columns, rows), '\n'), '\n'));
      if columns == [] {
        assert table[0] == [] && table[0] in table;
      } else {
        var row :| row in rows && row == [];
        var i :| 0 <= i < |rows| && rows[i] == row;
        assert table[i + 1] == ShownRow(row) == [] && table[i + 1] in table;
      }
    }
  }

  lemma SameLength(columns: seq<string>, rows: seq<Cells>)
    ensures |Lines(columns, rows)| == |ShownTable(columns, rows)| == |rows| + 1
  {
  }

  /** A null and the text NULL cannot be told apart. */
  lemma NullIsAmbiguous()
    ensures RowLine([None]) == RowLine([Some("NULL")])
  {
    NullIsPlain();
    assert CellText(None) == CellText(Some("NULL"));
  }

  // ---- truncation ----

  /** Lines before the cut stay whole, the line at the cut keeps its beginning, and the marker is a line of its own. */
  lemma TruncatedLines(text: string, max: nat)
    requires |text| > max
    ensures var kept := Split(text[..max], '\n');
            Split(Truncated(text, max), '\n') == kept + [Marker()] &&
            Extends(kept, Split(text, '\n'))
  {
    MarkerIsOneLine();
    hide Split, Extends, Marker;
    MarkerIsLine(text[..max], Marker());
    CutExtends(text, max);
  }

  lemma MarkerIsOneLine()
    ensures '\n' !in Marker()
  {
  }

  lemma MarkerIsLine(kept: string, marker: string)
    requires '\n' !in marker
    ensures Split(kept + "\n" + marker, '\n') == Split(kept, '\n') + [marker]
  {
    NoSeparator(marker, '\n');
    hide Split;
    SplitAtSeparator(kept, '\n', marker);
  }

  lemma CutExtends(text: string, max: nat)
    requires |text| > max
    ensures Extends(Split(text[..max], '\n'), Split(text, '\n'))
  {
    hide Split, Extends;
    SplitMore(text[..max], text[max..], '\n');
    assert text == text[..max] + text[max..];
  }

  /** After a cut, every line of the table before it still reads back. */
  lemma TruncatedTableReads(columns: seq<string>, rows: seq<Cells>, max: nat, i: nat)
    requires columns != [] && forall row | row in rows :: row != []
    requires |Join(Lines(columns, rows), '\n')| > max
    requires i + 1 < |Split(Join(Lines(columns, rows), '\n')[..max], '\n')|
    ensures i < |ShownTable(columns, rows)|
    ensures var lines := Split(Truncated(Join(Lines(columns, rows), '\n'), max), '\n');
            i < |lines| && ReadLine(lines[i]) == Some(ShownTable(columns, rows)[i])
  {
    hide ReadLine, Split, Join, Lines, ShownTable, Truncated, Marker;
    var text := Join(Lines(columns, rows), '\n');
    TruncatedLines(text, max);
    LinesReadBack(columns, rows);
    SameLength(columns, rows);
    SplitJoin(Lines(columns, rows), '\n');
    var kept := Split(text[..max], '\n');
    assert kept[i] == kept[..|kept| - 1][i] == Split(text, '\n')[..|kept| - 1][i];
  }
}
