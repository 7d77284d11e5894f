/**
 * `convertPipeTablesToHtml` of the side panel: GitHub-style pipe tables in an
 * assistant answer (a header line, an alignment line of dashes, then rows
 * written between pipes) become single-line HTML tables; every other line is
 * kept as it is. A table cell whose `<br>`-separated parts are all bullet
 * items (`- x` or `* x`) becomes a `<ul>` list.
 */
module PipeTables {
  import opened Wrappers
  import opened Text

  // ---------------------------------------------------------------------------
  // Recognising lines

  /**
   * A line that trims to a pipe, at least `minInner` characters that are not
   * line terminators, and a pipe: `/^\s*\|.+\|\s*$/` for `minInner` 1 (a
   * header) and `/^\s*\|.*\|\s*$/` for `minInner` 0 (a row).
   */
  predicate PipeLine(line: string, minInner: nat) {
    var t := Trim(line);
    && |t| >= minInner + 2
    && t[0] == '|' && t[|t| - 1] == '|'
    && NoBreak(t[1..|t| - 1])
  }

  predicate IsHeaderLine(line: string) {
    PipeLine(line, 1)
  }

  predicate IsRowLine(line: string) {
    PipeLine(line, 0)
  }

  /**
   * The regular expression read literally: white space, a pipe at `i`, the
   * inner characters, a pipe at `j`, white space.
   */
  ghost predicate PipeMatch(line: string, minInner: nat) {
    exists i: nat, j: nat | i < j < |line| ::
      && line[i] == '|' && line[j] == '|' && j - i - 1 >= minInner
      && AllSpace(line[..i]) && AllSpace(line[j + 1..]) && NoBreak(line[i + 1..j])
  }

  /** Recognising a header or a row through `trim` is the same as matching its regular expression. */
  lemma PipeLineMatches(line: string, minInner: nat)
    ensures PipeLine(line, minInner) <==> PipeMatch(line, minInner)
  {
    if PipeLine(line, minInner) {
      PipeLineMatch(line, minInner);
    }
    if PipeMatch(line, minInner) {
      var i: nat, j: nat :| i < j < |line|
        && line[i] == '|' && line[j] == '|' && j - i - 1 >= minInner
        && AllSpace(line[..i]) && AllSpace(line[j + 1..]) && NoBreak(line[i + 1..j]);
      MatchPipeLine(line, minInner, i, j);
    }
  }

  lemma PipeLineMatch(line: string, minInner: nat)
    requires PipeLine(line, minInner)
    ensures PipeMatch(line, minInner)
  {
    TrimStartSpec(line);
    var u := TrimStart(line);
    TrimEndSpec(u);
    var t := TrimEnd(u);
    var a := |line| - |u|;
    var j := a + |t| - 1;
    assert t == line[a..a + |t|];
    assert line[a + |t|..] == u[|t|..];
    assert line[a] == t[0] && line[j] == t[|t| - 1];
    SliceOfSlice(line, a, a + |t|, 1, |t| - 1);
    assert line[j + 1..] == line[a + |t|..];
    assert a < j < |line| && line[a] == '|' && line[j] == '|' && j - a - 1 >= minInner
      && AllSpace(line[..a]) && AllSpace(line[j + 1..]) && NoBreak(line[a + 1..j]);
  }

  lemma MatchPipeLine(line: string, minInner: nat, i: nat, j: nat)
    requires i < j < |line|
    requires line[i] == '|' && line[j] == '|' && j - i - 1 >= minInner
    requires AllSpace(line[..i]) && AllSpace(line[j + 1..]) && NoBreak(line[i + 1..j])
    ensures PipeLine(line, minInner)
  {
    TrimStartAt(line, i);
    var u := line[i..];
    assert u[j - i + 1..] == line[j + 1..];
    assert u[j - i] == '|';
    TrimEndAt(u, j - i + 1);
    var t := Trim(line);
    assert t == line[i..j + 1];
    SliceOfSlice(line, i, j + 1, 1, j - i);
  }

  lemma SliceOfSlice(s: string, a: nat, b: nat, c: nat, d: nat)
    requires a <= b <= |s| && c <= d <= b - a
    ensures s[a..b][c..d] == s[a + c..a + d]
  {
    assert forall k :: 0 <= k < d - c ==> s[a..b][c..d][k] == s[a + c + k];
  }

  /** `:?-{3,}:?`: an optional colon, at least three dashes, an optional colon. */
  predicate IsAlignment(t: string) {
    var u := if |t| > 0 && t[0] == ':' then t[1..] else t;
    var v := if |u| > 0 && u[|u| - 1] == ':' then u[..|u| - 1] else u;
    |v| >= 3 && forall k :: 0 <= k < |v| ==> v[k] == '-'
  }

  /**
   * `/^\s*\|\s*:?-{3,}:?\s*(\|\s*:?-{3,}:?\s*)+\|\s*$/`: a line that trims
   * to pipes around at least two cells, each an alignment once trimmed.
   */
  predicate IsSeparatorLine(line: string) {
    var t := Trim(line);
    && |t| >= 2 && t[0] == '|' && t[|t| - 1] == '|'
    && var cells := Split(t[1..|t| - 1], "|");
       |cells| >= 2 && forall k :: 0 <= k < |cells| ==> IsAlignment(Trim(cells[k]))
  }

  /** A table starts at `i`: a header line followed by a separator (`lines[i + 1] || ''`). */
  predicate TableAt(lines: seq<string>, i: nat)
    requires i < |lines|
  {
    IsHeaderLine(lines[i]) && IsSeparatorLine(if i + 1 < |lines| then lines[i + 1] else "")
  }

  /** The line after a table's header is its separator, so a table takes at least two lines. */
  lemma TableHasSeparator(lines: seq<string>, i: nat)
    requires i < |lines| && TableAt(lines, i)
    ensures i + 1 < |lines| && IsSeparatorLine(lines[i + 1])
  {
  }

  // ---------------------------------------------------------------------------
  // Cells

  function TrimAll(xs: seq<string>): (ys: seq<string>)
    ensures |ys| == |xs|
    ensures forall k :: 0 <= k < |xs| ==> ys[k] == Trim(xs[k])
  {
    seq(|xs|, k requires 0 <= k < |xs| => Trim(xs[k]))
  }

  /** `line.trim().slice(1, -1)`. */
  function Inner(line: string): string {
    var t := Trim(line);
    if |t| >= 2 then t[1..|t| - 1] else []
  }

  /** The trimmed cells between the outer pipes of a line. */
  function Cells(line: string): (cells: seq<string>)
    ensures |cells| >= 1
  {
    TrimAll(Split(Inner(line), "|"))
  }

  /** The number of `<br\s*\/?>` characters at `i`, when one starts there. */
  function BrAt(s: string, i: nat): (n: Option<nat>)
    ensures n.Some? ==> 4 <= n.value && i + n.value <= |s|
  {
    if i + 3 <= |s| && s[i..i + 3] == "<br" then
      var j := SpacesFrom(s, i + 3);
      var k := if j < |s| && s[j] == '/' then j + 1 else j;
      if k < |s| && s[k] == '>' then Some(k + 1 - i) else None
    else None
  }


  /** The leftmost `<br>` at or after `from`: its position and its length. */
  function FirstBr(s: string, from: nat): (r: Option<(nat, nat)>)
    requires from <= |s|
    ensures r.Some? ==> from <= r.value.0 && BrAt(s, r.value.0) == Some(r.value.1)
    ensures r.Some? ==> forall k :: from <= k < r.value.0 ==> BrAt(s, k).None?
    ensures r.None? ==> forall k :: from <= k <= |s| ==> BrAt(s, k).None?
    decreases |s| - from
  {
    if from == |s| then None
    else match BrAt(s, from)
      case Some(n) => Some((from, n))
      case None => FirstBr(s, from + 1)
  }

  /**
   * `c.split(/<br\s*\/?>|\n/)`: the pieces between the leftmost matches. A
   * cell comes from one line, so it holds no `\n` and only `<br>` splits it.
   */
  function SplitBr(s: string): (parts: seq<string>)
    ensures |parts| >= 1
    decreases |s|
  {
    match FirstBr(s, 0)
    case None => [s]
    case Some((i, n)) => [s[..i]] + SplitBr(s[i + n..])
  }

  /** `.filter(s => s)`: the non-empty strings, in order. */
  function NonEmpty(xs: seq<string>): (ys: seq<string>)
    ensures |ys| <= |xs|
    ensures forall k :: 0 <= k < |ys| ==> ys[k] != [] && ys[k] in xs
  {
    if xs == [] then []
    else if xs[0] != [] then [xs[0]] + NonEmpty(xs[1..])
    else NonEmpty(xs[1..])
  }

  /** `/^[-*]\s+/`. */
  predicate IsBullet(p: string) {
    |p| >= 2 && (p[0] == '-' || p[0] == '*') && IsSpace(p[1])
  }

  /** `p.replace(/^[-*]\s+/, '')` for a bullet: the marker and the white space after it go. */
  function Unbullet(p: string): string
    requires |p| >= 1
  {
    TrimStart(p[1..])
  }

  /** The parts of a cell: split at `<br>`, trimmed, empty ones dropped. */
  function CellParts(c: string): seq<string> {
    NonEmpty(TrimAll(SplitBr(c)))
  }

  predicate AllBullets(parts: seq<string>) {
    forall k :: 0 <= k < |parts| ==> IsBullet(parts[k])
  }

  function ListItems(parts: seq<string>): seq<string>
    requires AllBullets(parts)
  {
    seq(|parts|, k requires 0 <= k < |parts| => "<li>" + Unbullet(parts[k]) + "</li>")
  }

  /** `formatCell`: a cell made only of bullet items becomes a list; any other cell stays as it is. */
  function FormatCell(c: string): string {
    var parts := CellParts(c);
    if |parts| > 0 && AllBullets(parts) then "<ul>" + Concat(ListItems(parts)) + "</ul>" else c
  }

  // ---------------------------------------------------------------------------
  // Tables

  function HeaderHtml(cells: seq<string>): string {
    Concat(seq(|cells|, k requires 0 <= k < |cells| => "<th>" + cells[k] + "</th>"))
  }

  function RowHtml(line: string): string {
    var cells := Cells(line);
    "<tr>" + Concat(seq(|cells|, k requires 0 <= k < |cells| => "<td>" + FormatCell(cells[k]) + "</td>")) + "</tr>"
  }

  function BodyHtml(rows: seq<string>): string {
    Concat(seq(|rows|, k requires 0 <= k < |rows| => RowHtml(rows[k])))
  }

  /** The one line that replaces a table. */
  function TableHtml(header: string, rows: seq<string>): string {
    "<table><thead><tr>" + HeaderHtml(Cells(header)) + "</tr></thead><tbody>" + BodyHtml(rows) + "</tbody></table>"
  }

  /** Where the run of row lines that starts at `j` ends. */
  function RowsEnd(lines: seq<string>, j: nat): (e: nat)
    requires j <= |lines|
    ensures j <= e <= |lines|
    ensures forall k :: j <= k < e ==> IsRowLine(lines[k])
    ensures e < |lines| ==> !IsRowLine(lines[e])
    decreases |lines| - j
  {
    if j < |lines| && IsRowLine(lines[j]) then RowsEnd(lines, j + 1) else j
  }

  /** The output lines for `lines[i..]`: each table becomes one line, every other line is kept. */
  function ConvertFrom(lines: seq<string>, i: nat): (out: seq<string>)
    requires i <= |lines|
    ensures |out| <= |lines| - i
    ensures i < |lines| ==> |out| >= 1
    decreases |lines| - i
  {
    if i == |lines| then []
    else if TableAt(lines, i) then
      TableHasSeparator(lines, i);
      var e := RowsEnd(lines, i + 2);
      [TableHtml(lines[i], lines[i + 2..e])] + ConvertFrom(lines, e)
    else [lines[i]] + ConvertFrom(lines, i + 1)
  }

  /** The converted text. */
  function Converted(input: string): string {
    var lines := Split(input, "\n");
    Join(ConvertFrom(lines, 0), "\n")
  }

  /** The inner loop of `convertPipeTablesToHtml`: the row lines from `from` on, and where they end. */
  method CollectRows(lines: seq<string>, from: nat) returns (rows: seq<string>, e: nat)
    requires from <= |lines|
    ensures e == RowsEnd(lines, from) && rows == lines[from..e]
  {
    rows := [];
    e := from;
    while e < |lines| && IsRowLine(lines[e])
      invariant from <= e <= |lines|
      invariant rows == lines[from..e]
      invariant RowsEnd(lines, from) == RowsEnd(lines, e)
      decreases |lines| - e
    {
      rows := rows + [lines[e]];
      e := e + 1;
    }
  }

  /**
   * One pass of the loop of `convertPipeTablesToHtml` at line `i`: a table
   * and its rows become one output line, any other line is copied.
   */
  method ConvertAt(lines: seq<string>, i: nat) returns (piece: string, next: nat)
    requires i < |lines|
    ensures i < next <= |lines|
    ensures ConvertFrom(lines, i) == [piece] + ConvertFrom(lines, next)
  {
    var headerLine := lines[i];
    var isHeader := IsHeaderLine(headerLine);
    var sepLine := if i + 1 < |lines| then lines[i + 1] else "";
    var isSeparator := IsSeparatorLine(sepLine);
    if isHeader && isSeparator {
      TableConsumesRows(lines, i);
      var bodyRows;
      bodyRows, next := CollectRows(lines, i + 2);
      piece := TableHtml(headerLine, bodyRows);
    } else {
      PlainLineKept(lines, i);
      piece, next := headerLine, i + 1;
    }
  }

  /** `convertPipeTablesToHtml`. */
  method ConvertPipeTablesToHtml(input: string) returns (output: string)
    ensures output == Converted(input)
  {
    var lines := Split(input, "\n");
    var out: seq<string> := [];
    var i := 0;
    while i < |lines|
      invariant i <= |lines|
      invariant out + ConvertFrom(lines, i) == ConvertFrom(lines, 0)
      decreases |lines| - i
    {
      var piece, next := ConvertAt(lines, i);
      assert (out + [piece]) + ConvertFrom(lines, next) == out + ([piece] + ConvertFrom(lines, next));
      out, i := out + [piece], next;
    }
    assert out + [] == out;
    output := Join(out, "\n");
  }

  // ---------------------------------------------------------------------------
  // Properties

  /** Some line starts a table. */
  predicate HasTable(lines: seq<string>) {
    exists k :: 0 <= k < |lines| && TableAt(lines, k)
  }

  /** Without a table the lines come out as they went in. */
  lemma {:induction false} ConvertFromPlain(lines: seq<string>, i: nat)
    requires i <= |lines|
    requires forall k :: i <= k < |lines| ==> !TableAt(lines, k)
    ensures ConvertFrom(lines, i) == lines[i..]
    decreases |lines| - i
  {
    if i < |lines| {
      ConvertFromPlain(lines, i + 1);
      assert lines[i..] == [lines[i]] + lines[i + 1..];
    }
  }

  /** Text in which no header line is followed by a separator line is returned unchanged. */
  lemma NoTableUnchanged(input: string)
    requires !HasTable(Split(input, "\n"))
    ensures Converted(input) == input
  {
    var lines := Split(input, "\n");
    ConvertFromPlain(lines, 0);
    assert lines[0..] == lines;
    JoinSplit(input, "\n");
  }

  /** A character of a piece of a joined sequence is a character of the whole. */
  lemma {:induction false} CharInJoin(parts: seq<string>, sep: string, k: nat, c: char)
    requires k < |parts| && c in parts[k]
    ensures c in Join(parts, sep)
  {
    if |parts| > 1 {
      JoinStep(parts[0], parts[1..], sep);
      assert parts == [parts[0]] + parts[1..];
      if k > 0 {
        CharInJoin(parts[1..], sep, k - 1, c);
      }
    }
  }

  /** A header line holds a pipe. */
  lemma HeaderHasPipe(line: string)
    requires IsHeaderLine(line)
    ensures '|' in line
  {
    TrimSpec(line);
    var t := Trim(line);
    var a := |line| - |TrimStart(line)|;
    assert line[a] == t[0];
  }

  /** Text without a pipe is returned unchanged. */
  lemma PipeFreeUnchanged(input: string)
    requires '|' !in input
    ensures Converted(input) == input
  {
    var lines := Split(input, "\n");
    JoinSplit(input, "\n");
    forall k | 0 <= k < |lines|
      ensures !TableAt(lines, k)
    {
      if IsHeaderLine(lines[k]) {
        HeaderHasPipe(lines[k]);
        CharInJoin(lines, "\n", k, '|');
      }
    }
    NoTableUnchanged(input);
  }

  /** A line that does not start a table is kept as it is. */
  lemma PlainLineKept(lines: seq<string>, i: nat)
    requires i < |lines| && !TableAt(lines, i)
    ensures ConvertFrom(lines, i) == [lines[i]] + ConvertFrom(lines, i + 1)
  {
  }

  /** A table is its header, its separator and every row line right after them, and it becomes one line. */
  lemma TableConsumesRows(lines: seq<string>, i: nat)
    requires i < |lines| && TableAt(lines, i)
    ensures var e := RowsEnd(lines, i + 2);
      && i + 2 <= e
      && (forall k :: i + 2 <= k < e ==> IsRowLine(lines[k]))
      && (e < |lines| ==> !IsRowLine(lines[e]))
      && ConvertFrom(lines, i) == [TableHtml(lines[i], lines[i + 2..e])] + ConvertFrom(lines, e)
  {
    TableHasSeparator(lines, i);
  }

  // ---------------------------------------------------------------------------
  // The output keeps one table per line

  lemma {:induction false} ConcatWithout(xs: seq<string>, c: char)
    requires forall k :: 0 <= k < |xs| ==> c !in xs[k]
    ensures c !in Concat(xs)
  {
    if xs != [] {
      ConcatWithout(xs[1..], c);
    }
  }

  lemma TrimWithout(s: string, c: char)
    requires c !in s
    ensures c !in Trim(s) && c !in TrimStart(s)
  {
    TrimStartSpec(s);
    var u := TrimStart(s);
    TrimEndSpec(u);
    var t := TrimEnd(u);
    assert forall x :: x in u ==> x in s;
    assert forall x :: x in t ==> x in u;
  }

  lemma SplitPiecesWithout(s: string, sep: string, c: char)
    requires |sep| > 0 && c !in s
    ensures forall k :: 0 <= k < |Split(s, sep)| ==> c !in Split(s, sep)[k]
  {
    JoinSplit(s, sep);
    forall k | 0 <= k < |Split(s, sep)|
      ensures c !in Split(s, sep)[k]
    {
      if c in Split(s, sep)[k] {
        CharInJoin(Split(s, sep), sep, k, c);
      }
    }
  }

  lemma {:induction false} SplitBrWithout(s: string, c: char)
    requires c !in s
    ensures forall k :: 0 <= k < |SplitBr(s)| ==> c !in SplitBr(s)[k]
    decreases |s|
  {
    match FirstBr(s, 0)
    case None =>
    case Some((i, n)) =>
      assert forall x :: x in s[i + n..] ==> x in s;
      assert forall x :: x in s[..i] ==> x in s;
      SplitBrWithout(s[i + n..], c);
  }

  lemma CellsWithout(line: string, c: char)
    requires c !in line
    ensures forall k :: 0 <= k < |Cells(line)| ==> c !in Cells(line)[k]
  {
    TrimWithout(line, c);
    var t := Trim(line);
    assert forall x :: x in Inner(line) ==> x in t;
    SplitPiecesWithout(Inner(line), "|", c);
    forall k | 0 <= k < |Cells(line)|
      ensures c !in Cells(line)[k]
    {
      TrimWithout(Split(Inner(line), "|")[k], c);
    }
  }

  lemma FormatCellWithout(cell: string, c: char)
    requires c !in cell && c !in "<ul></ul><li></li>"
    ensures c !in FormatCell(cell)
  {
    var parts := CellParts(cell);
    if |parts| > 0 && AllBullets(parts) {
      SplitBrWithout(cell, c);
      var pieces := SplitBr(cell);
      forall k | 0 <= k < |pieces|
        ensures c !in TrimAll(pieces)[k]
      {
        TrimWithout(pieces[k], c);
      }
      var items := ListItems(parts);
      forall k | 0 <= k < |items|
        ensures c !in items[k]
      {
        assert parts[k] in TrimAll(pieces);
        assert forall x :: x in parts[k][1..] ==> x in parts[k];
        TrimWithout(parts[k][1..], c);
        assert c !in "<li>" && c !in "</li>";
      }
      ConcatWithout(items, c);
      assert c !in "<ul>" && c !in "</ul>";
    }
  }

  lemma RowHtmlWithout(line: string, c: char)
    requires c !in line && c !in "<tr></tr><td></td><ul></ul><li></li>"
    ensures c !in RowHtml(line)
  {
    var cells := Cells(line);
    CellsWithout(line, c);
    var tds := seq(|cells|, k requires 0 <= k < |cells| => "<td>" + FormatCell(cells[k]) + "</td>");
    forall k | 0 <= k < |cells|
      ensures c !in tds[k]
    {
      FormatCellWithout(cells[k], c);
      assert c !in "<td>" && c !in "</td>";
    }
    ConcatWithout(tds, c);
    assert c !in "<tr>" && c !in "</tr>";
  }

  lemma TableHtmlWithout(header: string, rows: seq<string>)
    requires '\n' !in header
    requires forall k :: 0 <= k < |rows| ==> '\n' !in rows[k]
    ensures '\n' !in TableHtml(header, rows)
  {
    HeaderHtmlWithout(header);
    BodyHtmlWithout(rows);
    var h, b := HeaderHtml(Cells(header)), BodyHtml(rows);
    assert '\n' !in "<table><thead><tr>" && '\n' !in "</tr></thead><tbody>" && '\n' !in "</tbody></table>";
    assert forall x :: x in TableHtml(header, rows) ==>
      x in "<table><thead><tr>" || x in h || x in "</tr></thead><tbody>" || x in b || x in "</tbody></table>";
  }

  lemma HeaderHtmlWithout(header: string)
    requires '\n' !in header
    ensures '\n' !in HeaderHtml(Cells(header))
  {
    var cells := Cells(header);
    CellsWithout(header, '\n');
    var ths := seq(|cells|, k requires 0 <= k < |cells| => "<th>" + cells[k] + "</th>");
    forall k | 0 <= k < |cells|
      ensures '\n' !in ths[k]
    {
      assert '\n' !in "<th>" && '\n' !in "</th>";
    }
    ConcatWithout(ths, '\n');
  }

  lemma BodyHtmlWithout(rows: seq<string>)
    requires forall k :: 0 <= k < |rows| ==> '\n' !in rows[k]
    ensures '\n' !in BodyHtml(rows)
  {
    var trs := seq(|rows|, k requires 0 <= k < |rows| => RowHtml(rows[k]));
    forall k | 0 <= k < |rows|
      ensures '\n' !in trs[k]
    {
      RowHtmlWithout(rows[k], '\n');
    }
    ConcatWithout(trs, '\n');
  }

  lemma {:induction false} ConvertFromWithout(lines: seq<string>, i: nat)
    requires i <= |lines|
    requires forall k :: 0 <= k < |lines| ==> '\n' !in lines[k]
    ensures forall k :: 0 <= k < |ConvertFrom(lines, i)| ==> '\n' !in ConvertFrom(lines, i)[k]
    decreases |lines| - i
  {
    if i < |lines| {
      var out := ConvertFrom(lines, i);
      if TableAt(lines, i) {
        TableHasSeparator(lines, i);
        var e := RowsEnd(lines, i + 2);
        var rows := lines[i + 2..e];
        SliceWithout(lines, i + 2, e);
        TableHtmlWithout(lines[i], rows);
        ConvertFromWithout(lines, e);
        HeadWithout(out, TableHtml(lines[i], rows), ConvertFrom(lines, e));
      } else {
        ConvertFromWithout(lines, i + 1);
        HeadWithout(out, lines[i], ConvertFrom(lines, i + 1));
      }
    }
  }

  lemma SliceWithout(lines: seq<string>, a: nat, b: nat)
    requires a <= b <= |lines|
    requires forall k :: 0 <= k < |lines| ==> '\n' !in lines[k]
    ensures forall k :: 0 <= k < b - a ==> '\n' !in lines[a..b][k]
  {
    forall k | 0 <= k < b - a
      ensures '\n' !in lines[a..b][k]
    {
      assert lines[a..b][k] == lines[a + k];
    }
  }

  lemma HeadWithout(out: seq<string>, head: string, tail: seq<string>)
    requires out == [head] + tail && '\n' !in head
    requires forall k :: 0 <= k < |tail| ==> '\n' !in tail[k]
    ensures forall k :: 0 <= k < |out| ==> '\n' !in out[k]
  {
    forall k | 0 <= k < |out|
      ensures '\n' !in out[k]
    {
      if k > 0 {
        assert out[k] == tail[k - 1];
      }
    }
  }

  /**
   * The lines of the converted text are exactly the converted lines: a table
   * collapses into one line and no other line is split or merged.
   */
  lemma ConvertedLines(input: string)
    ensures Split(Converted(input), "\n") == ConvertFrom(Split(input, "\n"), 0)
  {
    var lines := Split(input, "\n");
    SplitPiecesFree(input, "\n");
    forall k | 0 <= k < |lines|
      ensures '\n' !in lines[k]
    {
      ContainsChar(lines[k], '\n');
    }
    ConvertFromWithout(lines, 0);
    SplitJoin(ConvertFrom(lines, 0), '\n');
  }

  /** A cell without bullet markers is left as it is. */
  lemma PlainCellUnchanged(cell: string)
    requires '-' !in cell && '*' !in cell
    ensures FormatCell(cell) == cell
  {
    var parts := CellParts(cell);
    if |parts| > 0 {
      SplitBrWithout(cell, '-');
      SplitBrWithout(cell, '*');
      var pieces := SplitBr(cell);
      assert parts[0] in TrimAll(pieces);
      var k :| 0 <= k < |pieces| && parts[0] == Trim(pieces[k]);
      TrimWithout(pieces[k], '-');
      TrimWithout(pieces[k], '*');
      assert !IsBullet(parts[0]);
    }
  }
}
