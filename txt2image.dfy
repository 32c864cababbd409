/**
 * `text_to_image`: lays a table of text out as columns side by side. Font
 * loading and drawing are not modelled; the font's measurement of a
 * multi-line text is the function `measure`, and the picture is its size
 * together with the texts drawn on it and where.
 */
module TextImage {
  import opened Wrappers
  import opened Strings
  import opened Seqs

  /** The (width, height) `getsize_multiline` gives for a text. */
  datatype Size = Size(width: nat, height: nat)

  /** One `multiline_text` call: the point it draws at and the text. */
  datatype Drawn = Drawn(x: int, y: int, text: string)

  /** The picture: its size and the texts drawn on it, in drawing order. */
  datatype Image = Image(width: int, height: int, drawn: seq<Drawn>)

  /** `max(map(len, items))` on an empty list raises ValueError. */
  datatype ImageError = NoRows

  /** A table row: a missing cell (`None`) or a text. */
  type Row = seq<Option<string>>

  /** `line[idx] or '' if len(line) > idx else ''`: a missing or empty cell
      reads as the empty text. */
  function Cell(row: Row, idx: nat): string
  {
    if idx < |row| && row[idx].Some? then row[idx].value else ""
  }

  /** Column `idx`: one line per row, in row order. */
  function Column(rows: seq<Row>, idx: nat): (col: seq<string>)
    ensures |col| == |rows|
  {
    seq(|rows|, r requires 0 <= r < |rows| => Cell(rows[r], idx))
  }

  /** `"\n".join(lines)` for column `idx`. */
  function ColumnText(rows: seq<Row>, idx: nat): string
  {
    Join(Column(rows, idx), "\n")
  }

  /** Where column `idx` is drawn: 10 for the first, then each column
      starts 20 past the measured width of the one before. */
  function Offset(rows: seq<Row>, measure: string -> Size, idx: nat): int
  {
    if idx == 0 then 10
    else Offset(rows, measure, idx - 1) + measure(ColumnText(rows, idx - 1)).width + 20
  }

  /** The tallest of the first `n` columns' measured heights, 0 for none. */
  function MaxHeight(rows: seq<Row>, measure: string -> Size, n: nat): nat
  {
    if n == 0 then 0
    else
      var h := measure(ColumnText(rows, n - 1)).height;
      var rest := MaxHeight(rows, measure, n - 1);
      if h >= rest then h else rest
  }

  /** The image `text_to_image` produces: one column per cell of the
      longest row; as wide as the last offset (0 without columns) and 30
      taller than the tallest column; column `i` drawn at `(offset_i, 0)`. */
  function Render(rows: seq<Row>, measure: string -> Size): (r: Result<Image, ImageError>)
    ensures r.Err? <==> rows == []
  {
    if rows == [] then Err(NoRows)
    else
      var n := Longest(rows);
      Ok(Image(if n == 0 then 0 else Offset(rows, measure, n),
               MaxHeight(rows, measure, n) + 30,
               seq(n, i requires 0 <= i < n => Drawn(Offset(rows, measure, i), 0, ColumnText(rows, i)))))
  }

  /** `text_to_image(items, ...)`: the number of columns, the loop that
      measures them and accumulates the offsets, then the loop that draws
      them. */
  method TextToImage(items: seq<Row>, measure: string -> Size) returns (r: Result<Image, ImageError>)
    ensures r == Render(items, measure)
  {
    if items == [] {
      return Err(NoRows);
    }
    var countries := Longest(items);
    var offsets, linesToDraw, maxX, maxY := MeasureColumns(items, measure, countries);
    var drawn := DrawColumns(offsets, linesToDraw);
    ghost var spec := Render(items, measure);
    assert spec.value.drawn == drawn by {
      forall k | 0 <= k < countries ensures spec.value.drawn[k] == drawn[k] {
        assert Join(linesToDraw[k], "\n") == ColumnText(items, k);
      }
    }
    r := Ok(Image(maxX, maxY + 30, drawn));
  }

  /** The measuring loop: `offset` starts at 10 and grows by each column's
      width plus 20; `max_x` and `max_y` follow the largest offset and
      height seen. */
  method MeasureColumns(items: seq<Row>, measure: string -> Size, countries: nat)
    returns (offsets: seq<int>, linesToDraw: seq<seq<string>>, maxX: int, maxY: nat)
    ensures |offsets| == |linesToDraw| == countries
    ensures forall i :: 0 <= i < countries ==> offsets[i] == Offset(items, measure, i)
    ensures forall i :: 0 <= i < countries ==> linesToDraw[i] == Column(items, i)
    ensures maxX == if countries == 0 then 0 else Offset(items, measure, countries)
    ensures maxY == MaxHeight(items, measure, countries)
  {
    maxY, maxX := 0, 0;
    var offset := 10;
    offsets, linesToDraw := [], [];
    for idx := 0 to countries
      invariant offset == Offset(items, measure, idx)
      invariant |offsets| == |linesToDraw| == idx
      invariant forall i :: 0 <= i < idx ==> offsets[i] == Offset(items, measure, i)
      invariant forall i :: 0 <= i < idx ==> linesToDraw[i] == Column(items, i)
      invariant offset >= 10 && maxX == if idx == 0 then 0 else offset
      invariant maxY == MaxHeight(items, measure, idx)
    {
      var lines := Column(items, idx);
      Snoc(offsets, offset);
      Snoc(linesToDraw, lines);
      offsets := offsets + [offset];
      linesToDraw := linesToDraw + [lines];
      var size := measure(Join(lines, "\n"));
      MeasureNext(items, measure, idx);
      offset := offset + size.width;
      offset := offset + 20;
      maxX := if maxX >= offset then maxX else offset;
      maxY := if maxY >= size.height then maxY else size.height;
    }
  }

  /** One more measured column moves the offset past the previous one and
      may raise the tallest height. */
  lemma MeasureNext(items: seq<Row>, measure: string -> Size, idx: nat)
    ensures var size := measure(Join(Column(items, idx), "\n"));
      && Offset(items, measure, idx + 1) == Offset(items, measure, idx) + size.width + 20
      && Offset(items, measure, idx + 1) > Offset(items, measure, idx)
      && MaxHeight(items, measure, idx + 1)
        == if MaxHeight(items, measure, idx) >= size.height then MaxHeight(items, measure, idx) else size.height
  {
  }

  /** The drawing loop: each column's lines, joined, at `(offset, 0)`. */
  method DrawColumns(offsets: seq<int>, linesToDraw: seq<seq<string>>) returns (drawn: seq<Drawn>)
    requires |offsets| == |linesToDraw|
    ensures |drawn| == |offsets|
    ensures forall k :: 0 <= k < |drawn| ==> drawn[k] == Drawn(offsets[k], 0, Join(linesToDraw[k], "\n"))
  {
    drawn := [];
    for i := 0 to |offsets|
      invariant |drawn| == i
      invariant forall k :: 0 <= k < i ==> drawn[k] == Drawn(offsets[k], 0, Join(linesToDraw[k], "\n"))
    {
      drawn := drawn + [Drawn(offsets[i], 0, Join(linesToDraw[i], "\n"))];
    }
  }

  // ---------------------------------------------------------------------
  // Properties of the layout

  /** The widths of the first `n` columns, added up. */
  function SumWidths(rows: seq<Row>, measure: string -> Size, n: nat): nat
  {
    if n == 0 then 0 else SumWidths(rows, measure, n - 1) + measure(ColumnText(rows, n - 1)).width
  }

  /** Column `i` starts at 10 plus, for each column before it, its width
      and a 20-wide gap. */
  lemma {:induction false} OffsetClosedForm(rows: seq<Row>, measure: string -> Size, i: nat)
    ensures Offset(rows, measure, i) == 10 + 20 * i + SumWidths(rows, measure, i)
  {
    if i > 0 {
      OffsetClosedForm(rows, measure, i - 1);
    }
  }

  /** Columns never overlap: each starts at least 20 past the start of the
      one before, so the offsets strictly increase. */
  lemma {:induction false} OffsetsIncrease(rows: seq<Row>, measure: string -> Size, i: nat, j: nat)
    requires i < j
    ensures Offset(rows, measure, i) + 20 * (j - i) <= Offset(rows, measure, j)
    decreases j
  {
    if i < j - 1 {
      OffsetsIncrease(rows, measure, i, j - 1);
    }
  }

  /** The image is `10 + Σ(width_i + 20)` wide when there is a column, and
      30 taller than the tallest column; it fails only for no rows. */
  lemma RenderSize(rows: seq<Row>, measure: string -> Size)
    ensures Render(rows, measure).Err? <==> rows == []
    ensures rows != [] && Longest(rows) > 0 ==>
      var n := Longest(rows);
      && Render(rows, measure).value.width == 10 + 20 * n + SumWidths(rows, measure, n)
      && (forall k :: 0 <= k < n ==>
            Render(rows, measure).value.height >= measure(ColumnText(rows, k)).height + 30)
  {
    if rows != [] {
      OffsetClosedForm(rows, measure, Longest(rows));
      MaxHeightIsMax(rows, measure, Longest(rows));
    }
  }

  /** The height is a maximum: no column of the first `n` is taller, and
      one of them (if any) is exactly that tall. */
  lemma {:induction false} MaxHeightIsMax(rows: seq<Row>, measure: string -> Size, n: nat)
    ensures forall k :: 0 <= k < n ==> measure(ColumnText(rows, k)).height <= MaxHeight(rows, measure, n)
    ensures n > 0 ==> exists k :: 0 <= k < n && measure(ColumnText(rows, k)).height == MaxHeight(rows, measure, n)
  {
    if n > 0 {
      MaxHeightIsMax(rows, measure, n - 1);
    }
  }

  /** A column's `k`-th line is row `k`'s cell: its text when the row is
      long enough and the cell holds a non-empty text, otherwise empty. */
  lemma ColumnCell(rows: seq<Row>, idx: nat, k: nat)
    requires k < |rows|
    ensures Column(rows, idx)[k] == (if idx < |rows[k]| && rows[k][idx].Some? then rows[k][idx].value else "")
    ensures Column(rows, idx)[k] != [] ==> idx < |rows[k]| && rows[k][idx] == Some(Column(rows, idx)[k])
  {
  }

  /** One row with one cell, `[["test"]]`: a single column at 10, and for a
      font that measures the text as 16 by 11 a 46 by 41 picture. */
  lemma SingleCellImage(measure: string -> Size)
    requires measure("test") == Size(16, 11)
    ensures Render([[Some("test")]], measure) == Ok(Image(46, 41, [Drawn(10, 0, "test")]))
  {
    var rows: seq<Row> := [[Some("test")]];
    assert Longest(rows) == 1;
    assert Column(rows, 0) == ["test"];
    assert ColumnText(rows, 0) == "test";
    assert Offset(rows, measure, 1) == 46;
    assert MaxHeight(rows, measure, 1) == 11;
    var drawn := seq(1, i requires 0 <= i < 1 => Drawn(Offset(rows, measure, i), 0, ColumnText(rows, i)));
    assert drawn == [Drawn(10, 0, "test")];
  }
}
