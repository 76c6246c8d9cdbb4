/** The ASCII canvas of one image: the grayscale samples it is read from, the grid
    of glyph rows, and its text form, which keeps only the even-indexed rows. */
module Canvas {
  import opened Outcomes
  import opened Glyphs

  /** A grayscale image: PIL's size (width, height) and NumPy's row-major samples. */
  datatype Gray = Gray(width: nat, height: nat, pixels: seq<seq<Sample>>)
  {
    /** NumPy's array of an image has `height` rows of `width` samples each. */
    predicate Rectangular()
    {
      |pixels| == height && forall r :: 0 <= r < |pixels| ==> |pixels[r]| == width
    }
  }

  /** The images the converter can be given. */
  type Raster = g: Gray | g.Rectangular() witness Gray(0, 0, [])

  /** The image that is quantized (lines 116-117). A source within the budget is used as
      it is. Otherwise the scale is the square root of budget / (width * height): the
      division fails for an empty source (the budget is then negative), the root of a
      negative ratio is complex and int() of it fails, and a zero budget asks PIL for a
      (0, 0) image, which it refuses. For a positive budget, `resize(source, budget)`
      stands for PIL's resize to the scaled, truncated dimensions; PIL refuses those too
      when a side truncates to zero. */
  function Sampled(source: Raster, budget: int, resize: (Raster, int) -> Raster): (r: Result<Raster>)
    ensures source.width * source.height <= budget ==> r == Ok(source)
    ensures r.Err? <==> (source.width * source.height > budget &&
      (budget <= 0 || resize(source, budget).width == 0 || resize(source, budget).height == 0))
    ensures source.width * source.height > budget && r.Ok? ==> r.value == resize(source, budget)
    ensures source.width * source.height > budget && source.width * source.height == 0 ==>
      r == Err(ZeroDivisionError)
    ensures source.width * source.height > 0 && budget < 0 ==> r == Err(ComplexScaleError)
    ensures r.Err? && source.width * source.height > 0 && budget >= 0 ==> r == Err(EmptyResizeError)
  {
    var pixels := source.width * source.height;
    if pixels <= budget then Ok(source)
    else if pixels == 0 then Err(ZeroDivisionError)
    else if budget < 0 then Err(ComplexScaleError)
    else if budget == 0 then Err(EmptyResizeError)
    else
      var resized := resize(source, budget);
      if resized.width == 0 || resized.height == 0 then Err(EmptyResizeError) else Ok(resized)
  }

  /** An empty image under a negative budget divides by zero; a non-empty image under a
      negative budget takes a complex root; under a zero budget it is resized to (0, 0);
      a 100 x 50 image fits a budget of 10000 and is kept as it is. */
  lemma ResizeGuardExamples(resize: (Raster, int) -> Raster, big: Raster)
    requires big.width == 100 && big.height == 50
    ensures Sampled(Gray(0, 3, [[], [], []]), -1, resize) == Err(ZeroDivisionError)
    ensures Sampled(Gray(1, 1, [[0]]), -1, resize) == Err(ComplexScaleError)
    ensures Sampled(Gray(1, 1, [[0]]), 0, resize) == Err(EmptyResizeError)
    ensures Sampled(big, 10000, resize) == Ok(big)
  {
  }

  /** One row of samples as one line of glyphs. */
  function RowText(row: seq<Sample>): (s: string)
    ensures |s| == |row|
    ensures forall j :: 0 <= j < |s| ==> s[j] in Ramp
  {
    seq(|row|, j requires 0 <= j < |row| => Glyph(row[j]))
  }

  /** The canvas of an image: one line of glyphs per pixel row. */
  function AsciiRows(img: Raster): (rows: seq<string>)
    ensures |rows| == img.height
  {
    seq(|img.pixels|, i requires 0 <= i < |img.pixels| => RowText(img.pixels[i]))
  }

  /** A canvas has one line per pixel row, one glyph per sample, and only ramp glyphs. */
  lemma AsciiRowsShape(img: Raster)
    ensures |AsciiRows(img)| == img.height
    ensures forall i :: 0 <= i < img.height ==> |AsciiRows(img)[i]| == img.width
    ensures forall i, j :: 0 <= i < img.height && 0 <= j < img.width ==>
      AsciiRows(img)[i][j] == Ramp[GlyphIndex(img.pixels[i][j])] && AsciiRows(img)[i][j] in Ramp
  {
  }

  /** No line of a canvas holds a line break. */
  lemma AsciiRowsHaveNoNewline(img: Raster)
    ensures forall i :: 0 <= i < |AsciiRows(img)| ==> '\n' !in AsciiRows(img)[i]
  {
    RampHasNoNewline();
    forall i | 0 <= i < |AsciiRows(img)| ensures '\n' !in AsciiRows(img)[i] {
      var row := AsciiRows(img)[i];
      forall j | 0 <= j < |row| ensures row[j] != '\n' {
        assert row[j] in Ramp;
      }
    }
  }

  // ---- Serialisation ----

  /** Rows 0, 2, 4, ... of a canvas, in order: the ceiling of half its rows. */
  function EvenRows(rows: seq<string>): seq<string>
  {
    seq((|rows| + 1) / 2, j requires 0 <= j < (|rows| + 1) / 2 => rows[2 * j])
  }

  /** Python's "\n".join(lines). */
  function Join(lines: seq<string>): string
  {
    if |lines| == 0 then ""
    else if |lines| == 1 then lines[0]
    else Join(lines[..|lines| - 1]) + "\n" + lines[|lines| - 1]
  }

  /** Every line followed by a line break, as the serialisation loop accumulates them. */
  function Terminated(lines: seq<string>): string
  {
    if |lines| == 0 then "" else Terminated(lines[..|lines| - 1]) + lines[|lines| - 1] + "\n"
  }

  /** What str() of a canvas is meant to be: its even rows joined by line breaks. */
  function Text(rows: seq<string>): string
  {
    Join(EvenRows(rows))
  }

  /** Python's s.split("\n"): never empty, "" for the empty string. */
  function Split(s: string): (r: seq<string>)
    ensures |r| >= 1
  {
    if |s| == 0 then [""]
    else
      var rest := Split(s[1..]);
      if s[0] == '\n' then [""] + rest else [[s[0]] + rest[0]] + rest[1..]
  }

  /** Dropping the last character of the accumulated text leaves the joined lines. */
  lemma {:induction false} TerminatedIsJoinPlusNewline(lines: seq<string>)
    requires |lines| > 0
    ensures Terminated(lines) == Join(lines) + "\n"
  {
    if |lines| > 1 {
      TerminatedIsJoinPlusNewline(lines[..|lines| - 1]);
    }
  }

  lemma {:induction false} SplitAtNewline(x: string, y: string)
    ensures Split(x + "\n" + y) == Split(x) + Split(y)
  {
    if |x| == 0 {
      assert x + "\n" + y == "\n" + y;
      assert ("\n" + y)[1..] == y;
    } else {
      assert (x + "\n" + y)[1..] == x[1..] + "\n" + y;
      SplitAtNewline(x[1..], y);
    }
  }

  lemma {:induction false} SplitWithoutNewline(x: string)
    requires '\n' !in x
    ensures Split(x) == [x]
  {
    if |x| > 0 {
      assert '\n' !in x[1..];
      SplitWithoutNewline(x[1..]);
      assert [x[0]] + x[1..] == x;
    }
  }

  /** Splitting joined lines that hold no line break gives the lines back. */
  lemma {:induction false} SplitJoin(lines: seq<string>)
    requires |lines| > 0
    requires forall i :: 0 <= i < |lines| ==> '\n' !in lines[i]
    ensures Split(Join(lines)) == lines
  {
    var n := |lines|;
    SplitWithoutNewline(lines[n - 1]);
    if n > 1 {
      var init := lines[..n - 1];
      SplitJoin(init);
      SplitAtNewline(Join(init), lines[n - 1]);
      assert init + [lines[n - 1]] == lines;
    }
  }

  /** The text of a canvas is "" when it has no rows; otherwise its lines are the rows
      at even indices 0, 2, 4, ..., in order, ceil(R / 2) of them. */
  lemma TextLines(rows: seq<string>)
    requires forall i :: 0 <= i < |rows| ==> '\n' !in rows[i]
    ensures |rows| == 0 ==> Text(rows) == ""
    ensures |rows| > 0 ==> Split(Text(rows)) == EvenRows(rows)
    ensures |EvenRows(rows)| == (|rows| + 1) / 2
    ensures forall j :: 0 <= j < |EvenRows(rows)| ==> EvenRows(rows)[j] == rows[2 * j]
  {
    if |rows| > 0 {
      SplitJoin(EvenRows(rows));
    }
  }

  /** The widest row: Python's max(len(l) for l in rows) on a non-empty list. */
  function MaxLen(rows: seq<string>): (m: nat)
    requires |rows| > 0
    ensures forall i :: 0 <= i < |rows| ==> |rows[i]| <= m
    ensures exists i :: 0 <= i < |rows| && |rows[i]| == m
  {
    if |rows| == 1 then |rows[0]|
    else
      var rest := MaxLen(rows[1..]);
      assert forall i :: 1 <= i < |rows| ==> |rows[i]| == |rows[1..][i - 1]|;
      if |rows[0]| >= rest then |rows[0]| else rest
  }
}
