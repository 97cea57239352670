/** The diff-to-SVG generator: old and new lines are paired by position;
    an equal pair becomes one plain row, an unequal pair a removed row
    (when the old line exists) followed by an added row (when the new
    line exists). Rows are laid out 25 pixels apart from y = 95, indented
    by their leading whitespace, and numbered once per pair. The SVG
    markup is modelled as its row records and its two heights. */
module DiffGenerator {
  import opened Wrappers
  import opened Text

  /** A theme's colours. */
  datatype SyntaxColors = SyntaxColors(keyword: string, str: string, functionName: string, params: string)
  datatype Colors = Colors(
    background: string,
    headerBg: string,
    text: string,
    removedBg: string,
    addedBg: string,
    border: string,
    lineNumbers: string,
    removedText: string,
    addedText: string,
    syntax: SyntaxColors)

  datatype ThemeName = Light | Dark

  /** The GitHub-like light and dark themes. */
  function Theme(t: ThemeName): Colors {
    match t
    case Light =>
      Colors("#ffffff", "#f6f8fa", "#24292f", "#ffd7d5", "#ccffd8", "#d0d7de", "#6e7781", "#cf222e", "#24292f",
             SyntaxColors("#cf222e", "#0a3069", "#953800", "#24292f"))
    case Dark =>
      Colors("#0d1117", "#161b22", "#e6edf3", "#3c1414", "#1a4d1a", "#30363d", "#8b949e", "#ff7b72", "#3fb950",
             SyntaxColors("#ff7b72", "#a5d6ff", "#ffa657", "#e6edf3"))
  }

  /** Pixels per space, spaces per indentation level, and the x position
      of unindented code. */
  const SpaceWidth := 8
  const IndentSize := 4
  const BaseX := 90
  /** The baseline of the `j`-th row: the first at 95, the rest 25 apart. */
  function Baseline(j: int): int {
    95 + 25 * j
  }

  // ---------------------------------------------------------------------
  // Indentation

  /** `line.match(/^(\s*)/)[1].length`: the length of the leading run of
      whitespace. */
  function MeasureIndentation(line: string): (r: nat)
    ensures r <= |line|
    ensures forall j :: 0 <= j < r ==> IsWhitespace(line[j])
    ensures r == |line| || !IsWhitespace(line[r])
    decreases |line|
  {
    if |line| > 0 && IsWhitespace(line[0]) then 1 + MeasureIndentation(line[1..]) else 0
  }

  /** `line.trimLeft()`: the line without its leading whitespace. */
  function TrimLeft(line: string): (r: string)
    ensures |r| <= |line|
    ensures |r| > 0 ==> !IsWhitespace(r[0])
    decreases |line|
  {
    if |line| > 0 && IsWhitespace(line[0]) then TrimLeft(line[1..]) else line
  }

  /** The shown text is the line with exactly the measured indentation
      removed: the indentation followed by the shown text is the line. */
  lemma {:induction false} IndentationThenText(line: string)
    ensures TrimLeft(line) == line[MeasureIndentation(line)..]
    ensures line == line[..MeasureIndentation(line)] + TrimLeft(line)
    decreases |line|
  {
    if |line| > 0 && IsWhitespace(line[0]) {
      IndentationThenText(line[1..]);
      assert line[1..][MeasureIndentation(line[1..])..] == line[MeasureIndentation(line)..];
    }
  }

  /** The x position of a line: two pixels per character of indentation
      right of the code margin. */
  function CodeX(line: string): (x: int)
    ensures x >= BaseX
  {
    BaseX + 2 * MeasureIndentation(line)
  }

  /** The x position is the source's `BASE_X + indent * SPACE_WIDTH /
      INDENT_SIZE`, which is always a whole number: the division is
      exact. */
  lemma CodeXExact(line: string)
    ensures CodeX(line) == BaseX + MeasureIndentation(line) * SpaceWidth / IndentSize
    ensures (MeasureIndentation(line) * SpaceWidth) % IndentSize == 0
  {
    var m := MeasureIndentation(line);
    assert m * SpaceWidth == 4 * (2 * m);
  }

  /** `syntaxHighlight`: the empty line gives the empty markup; the
      regular-expression replacements on other lines are the parameter
      `replace`. */
  function SyntaxHighlight(line: string, replace: string -> string): (r: string)
    ensures line == "" ==> r == ""
    ensures line != "" ==> r == replace(line)
  {
    if line == "" then "" else replace(line)
  }

  // ---------------------------------------------------------------------
  // Rows

  datatype RowKind = Unchanged | Removed | Added

  /** The `-`/`+` marker and its colour. */
  datatype Marker = Marker(symbol: char, fill: string)

  /** One emitted row: its kind, line number, baseline y, code x, shown
      (unhighlighted) text, background fill of the row rectangle, and
      marker. The line number is drawn in the theme's line-number colour
      and the code in its text colour. */
  datatype Row = Row(
    kind: RowKind,
    lineNumber: int,
    y: int,
    x: int,
    text: string,
    background: Option<string>,
    marker: Option<Marker>)

  /** `lines[i]`, undefined past the end. */
  function At(lines: seq<string>, i: nat): (r: Option<string>)
    ensures r.Some? <==> i < |lines|
    ensures r.Some? ==> r.value == lines[i]
  {
    if i < |lines| then Some(lines[i]) else None
  }

  /** The shape a row's kind calls for: a plain row has no background
      and no marker; a removed row the removed background and a `-` in the
      removed colour; an added row the added background and a `+` in the
      added colour. */
  predicate RowShape(c: Colors, r: Row) {
    match r.kind
    case Unchanged => r.background.None? && r.marker.None?
    case Removed => r.background == Some(c.removedBg) && r.marker == Some(Marker('-', c.removedText))
    case Added => r.background == Some(c.addedBg) && r.marker == Some(Marker('+', c.addedText))
  }

  /** The row for `line` of the given kind. */
  function LineRow(c: Colors, kind: RowKind, line: string, lineNumber: int, y: int): (r: Row)
    ensures r.kind == kind && r.lineNumber == lineNumber && r.y == y
    ensures r.x == CodeX(line) && r.text == TrimLeft(line)
    ensures RowShape(c, r)
  {
    match kind
    case Unchanged => Row(Unchanged, lineNumber, y, CodeX(line), TrimLeft(line), None, None)
    case Removed => Row(Removed, lineNumber, y, CodeX(line), TrimLeft(line), Some(c.removedBg), Some(Marker('-', c.removedText)))
    case Added => Row(Added, lineNumber, y, CodeX(line), TrimLeft(line), Some(c.addedBg), Some(Marker('+', c.addedText)))
  }

  /** The rows of one pair of lines, the first at baseline `y`. */
  function PairRows(c: Colors, oldLine: Option<string>, newLine: Option<string>, lineNumber: int, y: int): (rows: seq<Row>)
    requires oldLine.Some? || newLine.Some?
    ensures 1 <= |rows| <= 2
    ensures forall j :: 0 <= j < |rows| ==> rows[j].lineNumber == lineNumber && rows[j].y == y + 25 * j
    ensures forall j :: 0 <= j < |rows| ==> RowShape(c, rows[j])
  {
    if oldLine == newLine then [LineRow(c, Unchanged, oldLine.value, lineNumber, y)]
    else
      var removed := if oldLine.Some? then [LineRow(c, Removed, oldLine.value, lineNumber, y)] else [];
      var added := if newLine.Some? then [LineRow(c, Added, newLine.value, lineNumber, y + 25 * |removed|)] else [];
      removed + added
  }

  /** What a pair shows: equal lines one plain row with the line's text;
      unequal lines a removed row exactly when the old line exists, then
      an added row exactly when the new line exists, each with its own
      line's text. */
  lemma PairRowsKinds(c: Colors, oldLine: Option<string>, newLine: Option<string>, lineNumber: int, y: int)
    requires oldLine.Some? || newLine.Some?
    ensures var rows := PairRows(c, oldLine, newLine, lineNumber, y);
            oldLine == newLine ==> |rows| == 1 && rows[0].kind == Unchanged && rows[0].text == TrimLeft(oldLine.value)
    ensures var rows := PairRows(c, oldLine, newLine, lineNumber, y);
            oldLine != newLine ==>
              && |rows| == (if oldLine.Some? then 1 else 0) + (if newLine.Some? then 1 else 0)
              && (oldLine.Some? <==> rows[0].kind == Removed)
              && (oldLine.Some? ==> rows[0].text == TrimLeft(oldLine.value))
              && (newLine.Some? <==> rows[|rows| - 1].kind == Added)
              && (newLine.Some? ==> rows[|rows| - 1].text == TrimLeft(newLine.value))
  {
  }

  /** The rows of the first `k` pairs: pair `i` is numbered `i + 1` and
      starts where the previous rows end. */
  function DiffRows(c: Colors, olds: seq<string>, news: seq<string>, k: nat): seq<Row>
    requires k <= Max(|olds|, |news|)
    decreases k
  {
    if k == 0 then []
    else
      var prev := DiffRows(c, olds, news, k - 1);
      prev + PairRows(c, At(olds, k - 1), At(news, k - 1), k, Baseline(|prev|))
  }

  function Max(a: int, b: int): int {
    if a >= b then a else b
  }

  /** Rows are evenly spaced: row `j` has baseline `95 + 25 j`. */
  lemma {:induction false} RowsEvenlySpaced(c: Colors, olds: seq<string>, news: seq<string>, k: nat)
    requires k <= Max(|olds|, |news|)
    ensures forall j :: 0 <= j < |DiffRows(c, olds, news, k)| ==> DiffRows(c, olds, news, k)[j].y == Baseline(j)
    decreases k
  {
    if k > 0 {
      RowsEvenlySpaced(c, olds, news, k - 1);
      var prev := DiffRows(c, olds, news, k - 1);
      var pair := PairRows(c, At(olds, k - 1), At(news, k - 1), k, Baseline(|prev|));
      var rows := prev + pair;
      assert rows == DiffRows(c, olds, news, k);
      forall j | 0 <= j < |rows|
        ensures rows[j].y == Baseline(j)
      {
        if j < |prev| {
          assert rows[j] == prev[j];
        } else {
          assert rows[j] == pair[j - |prev|];
        }
      }
    }
  }

  /** Each pair gives one row or two. */
  lemma {:induction false} RowCount(c: Colors, olds: seq<string>, news: seq<string>, k: nat)
    requires k <= Max(|olds|, |news|)
    ensures k <= |DiffRows(c, olds, news, k)| <= 2 * k
    decreases k
  {
    if k > 0 {
      RowCount(c, olds, news, k - 1);
    }
  }

  /** The line numbers lie between 1 and `k`. */
  lemma {:induction false} RowsNumbered(c: Colors, olds: seq<string>, news: seq<string>, k: nat)
    requires k <= Max(|olds|, |news|)
    ensures forall j :: 0 <= j < |DiffRows(c, olds, news, k)| ==> 1 <= DiffRows(c, olds, news, k)[j].lineNumber <= k
    decreases k
  {
    if k > 0 {
      RowsNumbered(c, olds, news, k - 1);
      var prev := DiffRows(c, olds, news, k - 1);
      var pair := PairRows(c, At(olds, k - 1), At(news, k - 1), k, Baseline(|prev|));
      var rows := prev + pair;
      assert rows == DiffRows(c, olds, news, k);
      forall j | 0 <= j < |rows|
        ensures 1 <= rows[j].lineNumber <= k
      {
        if j < |prev| {
          assert rows[j] == prev[j];
        } else {
          assert rows[j] == pair[j - |prev|];
        }
      }
    }
  }

  /** The last row carries the number of the last pair. */
  lemma LastRowNumber(c: Colors, olds: seq<string>, news: seq<string>, k: nat)
    requires 0 < k <= Max(|olds|, |news|)
    ensures |DiffRows(c, olds, news, k)| > 0
    ensures DiffRows(c, olds, news, k)[|DiffRows(c, olds, news, k)| - 1].lineNumber == k
  {
    var prev := DiffRows(c, olds, news, k - 1);
    var pair := PairRows(c, At(olds, k - 1), At(news, k - 1), k, Baseline(|prev|));
    assert DiffRows(c, olds, news, k) == prev + pair;
    assert (prev + pair)[|prev + pair| - 1] == pair[|pair| - 1];
  }

  /** Line numbers never go down and never skip: between two rows the
      number grows by at most the distance between them. */
  predicate Consecutive(rows: seq<Row>) {
    forall i, j :: 0 <= i < j < |rows| ==>
      rows[i].lineNumber <= rows[j].lineNumber <= rows[i].lineNumber + (j - i)
  }

  /** Appending rows numbered `k` after rows ending at `k - 1` keeps the
      numbering consecutive. */
  lemma ConsecutiveAppend(prev: seq<Row>, pair: seq<Row>, k: int)
    requires Consecutive(prev)
    requires |prev| > 0 ==> prev[|prev| - 1].lineNumber == k - 1
    requires forall j :: 0 <= j < |pair| ==> pair[j].lineNumber == k
    ensures Consecutive(prev + pair)
  {
    var rows := prev + pair;
    forall i, j | 0 <= i < j < |rows|
      ensures rows[i].lineNumber <= rows[j].lineNumber <= rows[i].lineNumber + (j - i)
    {
      if j < |prev| {
        assert rows[i] == prev[i] && rows[j] == prev[j];
      } else if i < |prev| {
        assert rows[i] == prev[i] && rows[j] == pair[j - |prev|];
        if i < |prev| - 1 {
          assert prev[i].lineNumber <= prev[|prev| - 1].lineNumber <= prev[i].lineNumber + (|prev| - 1 - i);
        }
      } else {
        assert rows[i] == pair[i - |prev|] && rows[j] == pair[j - |prev|];
      }
    }
  }

  /** The rows of every prefix of pairs are numbered consecutively. */
  lemma {:induction false} RowsConsecutive(c: Colors, olds: seq<string>, news: seq<string>, k: nat)
    requires k <= Max(|olds|, |news|)
    ensures Consecutive(DiffRows(c, olds, news, k))
    decreases k
  {
    if k > 0 {
      RowsConsecutive(c, olds, news, k - 1);
      var prev := DiffRows(c, olds, news, k - 1);
      var pair := PairRows(c, At(olds, k - 1), At(news, k - 1), k, Baseline(|prev|));
      if k > 1 {
        LastRowNumber(c, olds, news, k - 1);
      } else {
        assert prev == [];
      }
      ConsecutiveAppend(prev, pair, k);
    }
  }

  /** Every row has the shape its kind calls for. */
  lemma {:induction false} RowShapes(c: Colors, olds: seq<string>, news: seq<string>, k: nat)
    requires k <= Max(|olds|, |news|)
    ensures forall j :: 0 <= j < |DiffRows(c, olds, news, k)| ==> RowShape(c, DiffRows(c, olds, news, k)[j])
    decreases k
  {
    if k > 0 {
      RowShapes(c, olds, news, k - 1);
      var prev := DiffRows(c, olds, news, k - 1);
      var pair := PairRows(c, At(olds, k - 1), At(news, k - 1), k, Baseline(|prev|));
      var rows := prev + pair;
      assert rows == DiffRows(c, olds, news, k);
      forall j | 0 <= j < |rows|
        ensures RowShape(c, rows[j])
      {
        if j < |prev| {
          assert rows[j] == prev[j];
        } else {
          assert rows[j] == pair[j - |prev|];
        }
      }
    }
  }

  /** Comparing a text with itself shows no change: one plain row per
      line. */
  lemma {:induction false} SameLinesUnchanged(c: Colors, lines: seq<string>, k: nat)
    requires k <= |lines|
    ensures |DiffRows(c, lines, lines, k)| == k
    ensures forall j :: 0 <= j < k ==>
              DiffRows(c, lines, lines, k)[j] == LineRow(c, Unchanged, lines[j], j + 1, Baseline(j))
    decreases k
  {
    if k > 0 {
      SameLinesUnchanged(c, lines, k - 1);
    }
  }

  // ---------------------------------------------------------------------
  // The SVG

  /** The input of `createSVG`. */
  datatype DiffData = DiffData(filename: string, oldLines: seq<string>, newLines: seq<string>)

  /** The generated picture: its colours, file name, total height (of the
      view box and background), code-container height, and rows. */
  datatype Svg = Svg(colors: Colors, filename: string, height: int, containerHeight: int, rows: seq<Row>)

  /** One pass of `createSVG`'s loop body: an equal pair emits a plain
      row; otherwise a removed row if the old line exists and an added row
      if the new line exists; the cursor moves 25 pixels per row. */
  method EmitPair(colors: Colors, oldLine: Option<string>, newLine: Option<string>, lineNumber: int, y: int)
    returns (pair: seq<Row>, yNext: int)
    requires oldLine.Some? || newLine.Some?
    ensures pair == PairRows(colors, oldLine, newLine, lineNumber, y)
    ensures yNext == y + 25 * |pair|
  {
    pair, yNext := [], y;
    if oldLine == newLine {
      pair := pair + [LineRow(colors, Unchanged, oldLine.value, lineNumber, yNext)];
      yNext := yNext + 25;
    } else {
      if oldLine.Some? {
        pair := pair + [LineRow(colors, Removed, oldLine.value, lineNumber, yNext)];
        yNext := yNext + 25;
      }
      if newLine.Some? {
        pair := pair + [LineRow(colors, Added, newLine.value, lineNumber, yNext)];
        yNext := yNext + 25;
      }
    }
  }

  /** `createSVG`: walk the pairs, emitting rows and moving the y cursor
      and the line number; then size the picture from the final cursor. */
  method CreateSvg(theme: ThemeName, data: DiffData) returns (svg: Svg)
    ensures svg.colors == Theme(theme) && svg.filename == data.filename
    ensures svg.rows == DiffRows(Theme(theme), data.oldLines, data.newLines, Max(|data.oldLines|, |data.newLines|))
    ensures svg.height == Max(500, Baseline(|svg.rows|) + 50)
    ensures svg.containerHeight == Max(410, Baseline(|svg.rows|) - 60)
  {
    var colors := Theme(theme);
    var y := 95;
    var rows: seq<Row> := [];
    var lineNumber := 1;
    var n := Max(|data.oldLines|, |data.newLines|);
    for i := 0 to n
      invariant rows == DiffRows(colors, data.oldLines, data.newLines, i)
      invariant y == Baseline(|rows|)
      invariant lineNumber == i + 1
    {
      var oldLine, newLine := At(data.oldLines, i), At(data.newLines, i);
      var pair, yNext := EmitPair(colors, oldLine, newLine, lineNumber, y);
      rows := rows + pair;
      y := yNext;
      lineNumber := lineNumber + 1;
    }
    svg := Svg(colors, data.filename, Max(500, y + 50), Max(410, y - 60), rows);
  }

  /** The Generate button: split both texts on newlines and draw the
      light and the dark picture. Each text gives at least one line. */
  method GenerateDiff(oldCode: string, newCode: string, filename: string) returns (light: Svg, dark: Svg)
    ensures light.rows == DiffRows(Theme(Light), Split(oldCode, '\n'), Split(newCode, '\n'),
                                   Max(|Split(oldCode, '\n')|, |Split(newCode, '\n')|))
    ensures dark.rows == DiffRows(Theme(Dark), Split(oldCode, '\n'), Split(newCode, '\n'),
                                  Max(|Split(oldCode, '\n')|, |Split(newCode, '\n')|))
    ensures |light.rows| >= 1 && |dark.rows| >= 1
    ensures light.filename == filename && dark.filename == filename
  {
    var data := DiffData(filename, Split(oldCode, '\n'), Split(newCode, '\n'));
    light := CreateSvg(Light, data);
    dark := CreateSvg(Dark, data);
    RowCount(Theme(Light), data.oldLines, data.newLines, Max(|data.oldLines|, |data.newLines|));
    RowCount(Theme(Dark), data.oldLines, data.newLines, Max(|data.oldLines|, |data.newLines|));
  }
}
