/** Query results (`System.Data.DataTable`, reduced to column names and the text of
    every cell) and their rendering as a Markdown table (`DataTableToMarkdown`). */
module DataTables {
  import opened Text

  /** A query result: the column names and, per row, `cell.ToString()` of each item. */
  datatype Table = Table(columns: seq<string>, rows: seq<seq<string>>)

  /** Every row of a `DataTable` has one item per column. */
  predicate WellFormed(t: Table) {
    forall r :: 0 <= r < |t.rows| ==> |t.rows[r]| == |t.columns|
  }

  const NoData: string := "Nessun dato trovato."

  /** One cell as the renderer writes it: `"| " + text + " "`. */
  function Cell(x: string): string {
    "| " + x + " "
  }

  function Cells(xs: seq<string>): string {
    if xs == [] then "" else Cells(xs[..|xs| - 1]) + Cell(xs[|xs| - 1])
  }

  /** A header or data line, without its line terminator. */
  function CellsLine(xs: seq<string>): string {
    Cells(xs) + "|"
  }

  function Repeat(s: string, n: nat): string {
    if n == 0 then "" else Repeat(s, n - 1) + s
  }

  /** The divider line for n columns, without its line terminator. */
  function DividerLine(n: nat): string {
    Repeat("|---", n) + "|"
  }

  function RowLines(rows: seq<seq<string>>): (ls: seq<string>)
    ensures |ls| == |rows|
    ensures forall i :: 0 <= i < |rows| ==> ls[i] == CellsLine(rows[i])
  {
    seq(|rows|, i requires 0 <= i < |rows| => CellsLine(rows[i]))
  }

  /** The lines of a non-empty table: header, divider, then one line per row. */
  function MarkdownLines(t: Table): seq<string> {
    [CellsLine(t.columns), DividerLine(|t.columns|)] + RowLines(t.rows)
  }

  /** Lines joined by `AppendLine`: each one followed by the line terminator. */
  function Lines(ls: seq<string>): string {
    if ls == [] then "" else Lines(ls[..|ls| - 1]) + ls[|ls| - 1] + NewLine
  }

  function Markdown(t: Table): string {
    if |t.rows| == 0 then NoData else Lines(MarkdownLines(t))
  }

  lemma LinesSnoc(ls: seq<string>, l: string)
    ensures Lines(ls + [l]) == Lines(ls) + l + NewLine
  {
    assert (ls + [l])[..|ls|] == ls;
  }

  lemma {:induction false} LinesAppend(a: seq<string>, b: seq<string>)
    ensures Lines(a + b) == Lines(a) + Lines(b)
  {
    if b != [] {
      assert (a + b)[..|a + b| - 1] == a + b[..|b| - 1];
      LinesAppend(a, b[..|b| - 1]);
    } else {
      assert a + b == a;
    }
  }

  /** Appends `"| " + x + " "` for each x, as the inner `foreach` loops do. */
  method AppendCells(sb: string, xs: seq<string>) returns (sb': string)
    ensures sb' == sb + Cells(xs)
  {
    sb' := sb;
    var k := 0;
    while k < |xs|
      invariant 0 <= k <= |xs|
      invariant sb' == sb + Cells(xs[..k])
    {
      assert xs[..k + 1][..k] == xs[..k];
      sb' := sb' + Cell(xs[k]);
      k := k + 1;
    }
    assert xs[..k] == xs;
  }

  /** Appends one `"|---"` per column. */
  method AppendDivider(sb: string, n: nat) returns (sb': string)
    ensures sb' == sb + Repeat("|---", n)
  {
    sb' := sb;
    var c := 0;
    while c < n
      invariant 0 <= c <= n
      invariant sb' == sb + Repeat("|---", c)
    {
      sb' := sb' + "|---";
      c := c + 1;
    }
  }

  lemma HeaderText(columns: seq<string>)
    ensures Lines(MarkdownLines(Table(columns, [])))
         == CellsLine(columns) + NewLine + DividerLine(|columns|) + NewLine
  {
    var ls := MarkdownLines(Table(columns, []));
    assert ls == [CellsLine(columns)] + [DividerLine(|columns|)];
    LinesSnoc([CellsLine(columns)], DividerLine(|columns|));
    LinesSnoc([], CellsLine(columns));
  }

  lemma RowsSnoc(columns: seq<string>, rows: seq<seq<string>>, r: nat)
    requires r < |rows|
    ensures Lines(MarkdownLines(Table(columns, rows[..r + 1])))
         == Lines(MarkdownLines(Table(columns, rows[..r]))) + CellsLine(rows[r]) + NewLine
  {
    assert rows[..r + 1] == rows[..r] + [rows[r]];
    assert MarkdownLines(Table(columns, rows[..r + 1])) == MarkdownLines(Table(columns, rows[..r])) + [CellsLine(rows[r])];
    LinesSnoc(MarkdownLines(Table(columns, rows[..r])), CellsLine(rows[r]));
  }

  /** The header line and the divider line, each followed by the line terminator. */
  method AppendHeader(columns: seq<string>) returns (sb: string)
    ensures sb == Lines(MarkdownLines(Table(columns, [])))
  {
    var header := AppendCells("", columns);
    header := header + "|";
    var divider := AppendDivider("", |columns|);
    divider := divider + "|";
    sb := header + NewLine + divider + NewLine;
    HeaderText(columns);
  }

  /** `DataTableToMarkdown`: a table without rows renders as the no-data message;
      otherwise header, divider and row lines are appended cell by cell. */
  method DataTableToMarkdown(t: Table) returns (md: string)
    ensures md == Markdown(t)
    ensures |t.rows| == 0 ==> md == NoData
  {
    if |t.rows| == 0 {
      return NoData;
    }
    var sb := AppendHeader(t.columns);
    assert t.rows[..0] == [];
    var r := 0;
    while r < |t.rows|
      invariant 0 <= r <= |t.rows|
      invariant sb == Lines(MarkdownLines(Table(t.columns, t.rows[..r])))
    {
      var row := t.rows[r];
      sb := AppendCells(sb, row);
      sb := sb + "|" + NewLine;
      RowsSnoc(t.columns, t.rows, r);
      r := r + 1;
    }
    assert t.rows[..r] == t.rows;
    md := sb;
  }

  /** The number of occurrences of c in s. */
  function Count(c: char, s: string): nat {
    if s == [] then 0 else Count(c, s[..|s| - 1]) + (if s[|s| - 1] == c then 1 else 0)
  }

  lemma {:induction false} CountAppend(c: char, a: string, b: string)
    ensures Count(c, a + b) == Count(c, a) + Count(c, b)
  {
    if b != [] {
      assert (a + b)[..|a + b| - 1] == a + b[..|b| - 1];
      CountAppend(c, a, b[..|b| - 1]);
    } else {
      assert a + b == a;
    }
  }

  lemma {:induction false} CountCells(xs: seq<string>)
    requires forall i :: 0 <= i < |xs| ==> Count('|', xs[i]) == 0
    ensures Count('|', Cells(xs)) == |xs|
  {
    if xs != [] {
      var init := xs[..|xs| - 1];
      var x := xs[|xs| - 1];
      CountCells(init);
      CountAppend('|', Cells(init), Cell(x));
      CountAppend('|', "| " + x, " ");
      CountAppend('|', "| ", x);
      assert Count('|', "| ") == 1 by { assert "| "[..1] == "|"; assert "|"[..0] == ""; }
      assert Count('|', " ") == 0 by { assert " "[..0] == ""; }
    }
  }

  lemma {:induction false} CountRepeat(n: nat)
    ensures Count('|', Repeat("|---", n)) == n
  {
    if n > 0 {
      CountRepeat(n - 1);
      CountAppend('|', Repeat("|---", n - 1), "|---");
      assert "|---"[..3] == "|--" && "|--"[..2] == "|-" && "|-"[..1] == "|" && "|"[..0] == "";
    }
  }

  /** A rendered table with rows has rows + 2 lines; each ends in `|`; and when no
      name or cell contains `|`, each line holds exactly one `| x ` cell per column
      (columns + 1 bars, the divider included). */
  lemma MarkdownShape(t: Table)
    requires |t.rows| > 0
    ensures Markdown(t) == Lines(MarkdownLines(t))
    ensures |MarkdownLines(t)| == |t.rows| + 2
    ensures forall i :: 0 <= i < |MarkdownLines(t)| ==>
              var l := MarkdownLines(t)[i]; |l| > 0 && l[|l| - 1] == '|'
    ensures WellFormed(t) && (forall i :: 0 <= i < |t.columns| ==> Count('|', t.columns[i]) == 0)
            && (forall r, i :: 0 <= r < |t.rows| && 0 <= i < |t.rows[r]| ==> Count('|', t.rows[r][i]) == 0)
            ==> forall i :: 0 <= i < |MarkdownLines(t)| ==> Count('|', MarkdownLines(t)[i]) == |t.columns| + 1
  {
    var ls := MarkdownLines(t);
    forall i | 0 <= i < |ls| ensures |ls[i]| > 0 && ls[i][|ls[i]| - 1] == '|' {
      if i >= 2 {
        assert ls[i] == CellsLine(t.rows[i - 2]);
      }
    }
    if WellFormed(t) && (forall i :: 0 <= i < |t.columns| ==> Count('|', t.columns[i]) == 0)
       && (forall r, i :: 0 <= r < |t.rows| && 0 <= i < |t.rows[r]| ==> Count('|', t.rows[r][i]) == 0)
    {
      assert Count('|', "|") == 1 by { assert "|"[..0] == ""; }
      forall i | 0 <= i < |ls| ensures Count('|', ls[i]) == |t.columns| + 1 {
        if i == 0 {
          CountCells(t.columns);
          CountAppend('|', Cells(t.columns), "|");
        } else if i == 1 {
          CountRepeat(|t.columns|);
          CountAppend('|', Repeat("|---", |t.columns|), "|");
        } else {
          var row := t.rows[i - 2];
          assert ls[i] == CellsLine(row);
          CountCells(row);
          CountAppend('|', Cells(row), "|");
        }
      }
    }
  }
}
