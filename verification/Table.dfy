/** Markdown tables: `markdown_rows` and the printer it undoes. */
module Table {
  import opened Json
  import opened Text

  type Record = map<string, string>

  // ---------- one line ----------

  function LStripBars(s: string): string {
    if s != "" && s[0] == '|' then LStripBars(s[1..]) else s
  }

  function RStripBars(s: string): string {
    if s != "" && s[|s| - 1] == '|' then RStripBars(s[..|s| - 1]) else s
  }

  /** `s.split("|")` */
  function SplitBars(s: string): (pieces: seq<string>)
    ensures pieces != []
  {
    if s == "" then [""]
    else
      var rest := SplitBars(s[1..]);
      if s[0] == '|' then [""] + rest else [[s[0]] + rest[0]] + rest[1..]
  }

  predicate NoBars(s: string) {
    '|' !in s
  }

  function StripAll(pieces: seq<string>): (cells: seq<string>)
    ensures |cells| == |pieces|
    ensures forall i :: 0 <= i < |pieces| ==> cells[i] == Strip(pieces[i])
  {
    if pieces == [] then [] else [Strip(pieces[0])] + StripAll(pieces[1..])
  }

  function CellsOf(line: string): (cells: seq<string>)
    ensures cells != []
  {
    StripAll(SplitBars(RStripBars(LStripBars(Strip(line)))))
  }

  function WithoutColons(s: string): string {
    if s == "" then "" else (if s[0] == ':' then "" else [s[0]]) + WithoutColons(s[1..])
  }

  function Uncoloned(c: char): string {
    if c == ':' then "" else [c]
  }

  lemma ColonFirst(c: char, s: string)
    ensures WithoutColons([c] + s) == Uncoloned(c) + WithoutColons(s)
  {
    assert ([c] + s)[1..] == s;
  }

  /** Removing colons keeps everything else in its place. */
  lemma {:induction false} WithoutColonsAppend(a: string, b: string)
    ensures WithoutColons(a + b) == WithoutColons(a) + WithoutColons(b)
  {
    hide Uncoloned;
    if a == "" {
      assert a + b == b;
    } else {
      var c, rest := a[0], a[1..];
      assert a == [c] + rest && a + b == [c] + (rest + b);
      hide WithoutColons;
      ColonFirst(c, rest);
      ColonFirst(c, rest + b);
      WithoutColonsAppend(rest, b);
    }
  }

  /** A cell that may belong to the rule under a header. */
  predicate RuleCell(cell: string) {
    forall c :: c in Strip(WithoutColons(cell)) ==> c == '-'
  }

  predicate IsRule(cells: seq<string>) {
    forall cell :: cell in cells ==> RuleCell(cell)
  }

  /** `dict(zip(headers, cells))`: of equal headers the last one wins. */
  function Zip(headers: seq<string>, cells: seq<string>): (r: Record)
    requires |headers| == |cells|
    ensures forall k :: k in r <==> k in headers
  {
    if headers == [] then map[]
    else
      var n := |headers| - 1;
      assert headers == headers[..n] + [headers[n]];
      Zip(headers[..n], cells[..n])[headers[n] := cells[n]]
  }

  // ---------- the loop ----------

  /** What a line does to the header in force. */
  function NextHeaders(headers: Option<seq<string>>, line: string): Option<seq<string>> {
    if !StartsWith(line, "|") then None
    else if IsRule(CellsOf(line)) || headers.Some? then headers
    else Some(CellsOf(line))
  }

  /** The rows that a line adds. */
  function RowsOf(headers: Option<seq<string>>, line: string): seq<Record> {
    if StartsWith(line, "|") && !IsRule(CellsOf(line)) && headers.Some? && |CellsOf(line)| == |headers.value|
    then [Zip(headers.value, CellsOf(line))]
    else []
  }

  function RowsFrom(headers: Option<seq<string>>, lines: seq<string>): seq<Record>
    decreases lines
  {
    if lines == [] then [] else RowsOf(headers, lines[0]) + RowsFrom(NextHeaders(headers, lines[0]), lines[1..])
  }

  /** `markdown_rows` */
  function Parse(lines: seq<string>): seq<Record> {
    RowsFrom(None, lines)
  }

  method MarkdownRows(text: string) returns (rows: seq<Record>)
    ensures rows == Parse(SplitLines(text))
  {
    hide CellsOf, IsRule, Zip, SplitLines;
    var lines := SplitLines(text);
    var headers: Option<seq<string>> := None;
    rows := [];
    for i := 0 to |lines|
      invariant rows + RowsFrom(headers, lines[i..]) == Parse(lines)
    {
      var line := lines[i];
      assert lines[i..][0] == line && lines[i..][1..] == lines[i + 1..];
      ghost var before, done := headers, rows;
      if !StartsWith(line, "|") {
        headers := None;
      } else {
        var cells := CellsOf(line);
        if !IsRule(cells) {
          if headers.None? {
            headers := Some(cells);
          } else if |cells| == |headers.value| {
            rows := rows + [Zip(headers.value, cells)];
          }
        }
      }
      assert headers == NextHeaders(before, line) && rows == done + RowsOf(before, line);
    }
  }

  // ---------- printing ----------

  function JoinCells(cells: seq<string>): string {
    if cells == [] then "" else " " + cells[0] + " " + if |cells| == 1 then "" else "|" + JoinCells(cells[1..])
  }

  /** `| a | b |` */
  function PrintRow(cells: seq<string>): string {
    "|" + JoinCells(cells) + "|"
  }

  function Dashes(n: nat): seq<string> {
    seq(n, i => "---")
  }

  function PrintRows(rows: seq<seq<string>>): seq<string> {
    if rows == [] then [] else [PrintRow(rows[0])] + PrintRows(rows[1..])
  }

  datatype Table = Table(headers: seq<string>, rows: seq<seq<string>>)

  /** What a cell can hold and get back: no bar, no outer whitespace. */
  predicate PlainCell(cell: string) {
    NoBars(cell) && Strip(cell) == cell
  }

  predicate PlainRow(cells: seq<string>) {
    cells != [] && forall c :: c in cells ==> PlainCell(c)
  }

  predicate Uniform(rows: seq<seq<string>>, width: nat) {
    forall i :: 0 <= i < |rows| ==> |rows[i]| == width
  }

  predicate PlainRows(rows: seq<seq<string>>, width: nat) {
    Uniform(rows, width) && forall i :: 0 <= i < |rows| ==> PlainRow(rows[i])
  }

  predicate NoRules(rows: seq<seq<string>>) {
    forall i :: 0 <= i < |rows| ==> !IsRule(rows[i])
  }

  predicate Printable(t: Table) {
    PlainRow(t.headers) && PlainRows(t.rows, |t.headers|)
  }

  function PrintTable(t: Table): seq<string> {
    [PrintRow(t.headers), PrintRow(Dashes(|t.headers|))] + PrintRows(t.rows)
  }

  function Records(headers: seq<string>, rows: seq<seq<string>>): (r: seq<Record>)
    requires Uniform(rows, |headers|)
    ensures |r| == |rows|
  {
    if rows == [] then [] else [Zip(headers, rows[0])] + Records(headers, rows[1..])
  }

  // ---------- reading one printed row back ----------

  lemma StripFixed(s: string)
    requires s != "" && !IsSpace(s[0]) && !IsSpace(s[|s| - 1])
    ensures Strip(s) == s
  {
  }

  lemma {:induction false} SplitPiece(piece: string, rest: string)
    requires NoBars(piece)
    ensures SplitBars(piece) == [piece]
    ensures SplitBars(piece + "|" + rest) == [piece] + SplitBars(rest)
  {
    var all := piece + "|" + rest;
    if piece == "" {
      assert all[0] == '|' && all[1..] == rest;
    } else {
      assert piece[1..] + "|" + rest == all[1..];
      SplitPiece(piece[1..], rest);
      assert [piece[0]] + piece[1..] == piece;
    }
  }

  lemma {:induction false} PadsAway(cell: string)
    requires Strip(cell) == cell
    ensures Strip(" " + cell + " ") == cell
  {
    var s := " " + cell + " ";
    assert s[1..] == cell + " ";
    if cell == "" {
      assert LStrip(s) == LStrip(" ") == LStrip("");
    } else {
      OuterVisible(cell);
      assert LStrip(s) == cell + " ";
      assert (cell + " ")[..|cell|] == cell;
    }
  }

  lemma {:induction false} LStripShrinks(s: string)
    ensures |LStrip(s)| <= |s|
    ensures |LStrip(s)| == |s| ==> LStrip(s) == s
  {
    if s != "" && IsSpace(s[0]) {
      LStripShrinks(s[1..]);
    }
  }

  lemma OuterVisible(cell: string)
    requires Strip(cell) == cell && cell != ""
    ensures !IsSpace(cell[0]) && !IsSpace(cell[|cell| - 1])
  {
    LStripShrinks(cell);
  }

  function Padded(cells: seq<string>): (r: seq<string>)
    ensures |r| == |cells|
  {
    seq(|cells|, i requires 0 <= i < |cells| => " " + cells[i] + " ")
  }

  lemma {:induction false} SplitJoined(cells: seq<string>)
    requires cells != [] && forall c :: c in cells ==> NoBars(c)
    ensures SplitBars(JoinCells(cells)) == Padded(cells)
  {
    var first := " " + cells[0] + " ";
    assert cells[0] in cells;
    assert NoBars(first);
    if |cells| == 1 {
      SplitPiece(first, "");
      assert JoinCells(cells) == first;
      assert Padded(cells) == [first];
    } else {
      var rest := cells[1..];
      assert forall c :: c in rest ==> c in cells;
      SplitJoined(rest);
      SplitPiece(first, JoinCells(rest));
      assert JoinCells(cells) == first + "|" + JoinCells(rest);
      assert Padded(cells) == [first] + Padded(rest);
    }
  }

  lemma {:induction false} JoinedEnds(cells: seq<string>)
    requires cells != []
    ensures var s := JoinCells(cells); s != "" && s[0] == ' ' && s[|s| - 1] == ' '
  {
    if |cells| > 1 {
      JoinedEnds(cells[1..]);
    }
  }

  /** A printed row gives its cells back. */
  lemma RowRoundTrip(cells: seq<string>)
    requires PlainRow(cells)
    ensures StartsWith(PrintRow(cells), "|") && CellsOf(PrintRow(cells)) == cells
  {
    var inner, line := JoinCells(cells), PrintRow(cells);
    JoinedEnds(cells);
    StripFixed(line);
    assert line[1..] == inner + "|";
    assert LStripBars(line) == inner + "|";
    assert (inner + "|")[..|inner|] == inner;
    assert RStripBars(inner + "|") == inner;
    SplitJoined(cells);
    var back := StripAll(Padded(cells));
    forall i | 0 <= i < |cells|
      ensures back[i] == cells[i]
    {
      assert cells[i] in cells;
      PadsAway(cells[i]);
    }
    assert back == cells;
  }

  lemma RuleRow(n: nat)
    requires n > 0
    ensures PlainRow(Dashes(n)) && IsRule(Dashes(n))
  {
    assert WithoutColons("---") == "---";
    StripFixed("---");
    assert forall c :: c in Dashes(n) ==> c == "---";
    assert Dashes(n)[0] == "---";
  }

  // ---------- whole tables ----------

  /** Rows that survive under a header: all but those that look like a rule. */
  function Kept(headers: seq<string>, rows: seq<seq<string>>): (r: seq<Record>)
    requires Uniform(rows, |headers|)
    ensures |r| <= |rows|
    ensures |r| == |rows| <==> NoRules(rows)
    ensures |r| == |rows| ==> r == Records(headers, rows)
  {
    if rows == [] then []
    else
      assert NoRules(rows) <==> !IsRule(rows[0]) && NoRules(rows[1..]) by {
        assert forall i :: 1 <= i < |rows| ==> rows[i] == rows[1..][i - 1];
      }
      (if IsRule(rows[0]) then [] else [Zip(headers, rows[0])]) + Kept(headers, rows[1..])
  }

  lemma {:induction false} RowsUnderHeader(headers: seq<string>, rows: seq<seq<string>>)
    requires PlainRows(rows, |headers|)
    ensures RowsFrom(Some(headers), PrintRows(rows)) == Kept(headers, rows)
  {
    if rows != [] {
      RowRoundTrip(rows[0]);
      RowsUnderHeader(headers, rows[1..]);
      assert PrintRows(rows)[1..] == PrintRows(rows[1..]);
    }
  }

  /** Where the header row is taken for a rule, the first row that is not one becomes the header. */
  lemma {:induction false} RowsWithoutHeader(width: nat, rows: seq<seq<string>>)
    requires PlainRows(rows, width)
    ensures var got := RowsFrom(None, PrintRows(rows)); if rows == [] then got == [] else |got| < |rows|
  {
    if rows != [] {
      var first, rest := rows[0], rows[1..];
      RowRoundTrip(first);
      assert PrintRows(rows)[1..] == PrintRows(rest);
      if IsRule(first) {
        RowsWithoutHeader(width, rest);
      } else {
        RowsUnderHeader(first, rest);
      }
    }
  }

  /**
   Round trip: a printed table comes back row by row exactly when it has no rows at all, or neither
   the header nor any row looks like a rule.
   */
  lemma TableRoundTrip(t: Table)
    requires Printable(t)
    ensures Parse(PrintTable(t)) == Records(t.headers, t.rows) <==>
            t.rows == [] || (!IsRule(t.headers) && NoRules(t.rows))
  {
    var lines, n := PrintTable(t), |t.headers|;
    RowRoundTrip(t.headers);
    RuleRow(n);
    RowRoundTrip(Dashes(n));
    assert lines[1..][1..] == PrintRows(t.rows);
    if IsRule(t.headers) {
      assert RowsFrom(None, lines) == RowsFrom(None, lines[1..]) == RowsFrom(None, PrintRows(t.rows));
      RowsWithoutHeader(n, t.rows);
    } else {
      assert RowsFrom(None, lines) == RowsFrom(Some(t.headers), lines[1..]) == RowsFrom(Some(t.headers), PrintRows(t.rows));
      RowsUnderHeader(t.headers, t.rows);
    }
  }

  /** Under distinct headers every cell of a record can be looked up. */
  lemma {:induction false} DistinctHeaders(headers: seq<string>, cells: seq<string>, i: nat)
    requires |headers| == |cells| && i < |cells|
    requires forall j, k :: 0 <= j < k < |headers| ==> headers[j] != headers[k]
    ensures headers[i] in Zip(headers, cells) && Zip(headers, cells)[headers[i]] == cells[i]
  {
    var n := |headers| - 1;
    if i < n {
      DistinctHeaders(headers[..n], cells[..n], i);
      assert headers[n] != headers[i];
    }
  }

  // ---------- several tables ----------

  lemma GapCloses(headers: Option<seq<string>>, gap: string)
    requires !StartsWith(gap, "|")
    ensures RowsOf(headers, gap) == [] && NextHeaders(headers, gap) == None
  {
  }

  lemma {:induction false} RowsFromAppend(headers: Option<seq<string>>, a: seq<string>, gap: string, b: seq<string>)
    requires !StartsWith(gap, "|")
    ensures RowsFrom(headers, a + [gap] + b) == RowsFrom(headers, a) + Parse(b)
    decreases a
  {
    hide RowsOf, NextHeaders;
    var all := a + [gap] + b;
    if a == [] {
      GapCloses(headers, gap);
      assert all[0] == gap && all[1..] == b;
    } else {
      assert all[0] == a[0] && all[1..] == a[1..] + [gap] + b;
      RowsFromAppend(NextHeaders(headers, a[0]), a[1..], gap, b);
    }
  }

  /** A line outside any table separates: what is before it and what is after it are read on their own. */
  lemma GapSeparates(a: seq<string>, gap: string, b: seq<string>)
    requires !StartsWith(gap, "|")
    ensures Parse(a + [gap] + b) == Parse(a) + Parse(b)
  {
    RowsFromAppend(None, a, gap, b);
  }

  predicate AllPrintable(tables: seq<Table>) {
    forall i :: 0 <= i < |tables| ==> Printable(tables[i])
  }

  predicate Recoverable(t: Table) {
    Printable(t) && (t.rows == [] || (!IsRule(t.headers) && NoRules(t.rows)))
  }

  /** Tables, each followed by a line that is not part of one. */
  function PrintDocument(tables: seq<Table>, gap: string): seq<string> {
    if tables == [] then [] else PrintTable(tables[0]) + [gap] + PrintDocument(tables[1..], gap)
  }

  function AllRecords(tables: seq<Table>): seq<Record>
    requires AllPrintable(tables)
  {
    if tables == [] then []
    else
      assert Printable(tables[0]);
      Records(tables[0].headers, tables[0].rows) + AllRecords(tables[1..])
  }

  lemma {:induction false} DocumentRoundTrip(tables: seq<Table>, gap: string)
    requires !StartsWith(gap, "|") && AllPrintable(tables) && forall i :: 0 <= i < |tables| ==> Recoverable(tables[i])
    ensures Parse(PrintDocument(tables, gap)) == AllRecords(tables)
  {
    if tables != [] {
      TableRoundTrip(tables[0]);
      GapSeparates(PrintTable(tables[0]), gap, PrintDocument(tables[1..], gap));
      DocumentRoundTrip(tables[1..], gap);
    }
  }

  predicate OneLineRow(cells: seq<string>) {
    forall i :: 0 <= i < |cells| ==> NoBreaks(cells[i])
  }

  predicate OneLineTable(t: Table) {
    OneLineRow(t.headers) && forall i :: 0 <= i < |t.rows| ==> OneLineRow(t.rows[i])
  }

  lemma {:induction false} PrintedRowIsLine(cells: seq<string>)
    requires OneLineRow(cells)
    ensures NoBreaks(JoinCells(cells)) && NoBreaks(PrintRow(cells))
  {
    if cells != [] {
      PrintedRowIsLine(cells[1..]);
    }
  }

  lemma {:induction false} PrintedRowsAreLines(rows: seq<seq<string>>)
    requires forall i :: 0 <= i < |rows| ==> OneLineRow(rows[i])
    ensures AreLines(PrintRows(rows))
  {
    if rows != [] {
      PrintedRowIsLine(rows[0]);
      PrintedRowsAreLines(rows[1..]);
    }
  }

  lemma {:induction false} DocumentIsLines(tables: seq<Table>, gap: string)
    requires NoBreaks(gap) && forall i :: 0 <= i < |tables| ==> OneLineTable(tables[i])
    ensures AreLines(PrintDocument(tables, gap))
  {
    if tables != [] {
      var t := tables[0];
      assert OneLineTable(t);
      PrintedRowIsLine(t.headers);
      PrintedRowIsLine(Dashes(|t.headers|));
      PrintedRowsAreLines(t.rows);
      var rows, rest := PrintRows(t.rows), PrintDocument(tables[1..], gap);
      DocumentIsLines(tables[1..], gap);
      assert PrintDocument(tables, gap) == [PrintRow(t.headers), PrintRow(Dashes(|t.headers|))] + rows + [gap] + rest;
    }
  }

  /** The whole text of such a document, as `markdown_rows` receives it. */
  lemma TextRoundTrip(tables: seq<Table>, gap: string)
    requires NoBreaks(gap) && !StartsWith(gap, "|") && AllPrintable(tables)
    requires forall i :: 0 <= i < |tables| ==> Recoverable(tables[i]) && OneLineTable(tables[i])
    ensures Parse(SplitLines(Unlines(PrintDocument(tables, gap)))) == AllRecords(tables)
  {
    hide *;
    assert forall i :: 0 <= i < |tables| ==> OneLineTable(tables[i]);
    DocumentIsLines(tables, gap);
    SplitUnlines(PrintDocument(tables, gap));
    DocumentRoundTrip(tables, gap);
  }
}
