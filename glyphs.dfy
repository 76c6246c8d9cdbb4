/** The glyph ramp shared by every conversion and the luminance quantizer built on it. */
module Glyphs {

  /** One sample of an 8-bit grayscale ("L") image as NumPy hands it over. */
  type Sample = v: int | 0 <= v <= 255

  /** The ramp, densest ink first: index 0 is '#', the last index is ' '. */
  const Ramp: seq<char> := ['#', '@', '&', '$', '{', '(', '=', '*', ';', ':', '.', ' ']

  /** The ramp index the source computes as int(v / 256 * len(grille)).
      v / 256 is a float with at most eight significant bits and the product
      with 12 adds at most four more, so the float result is exact and int()
      truncates a non-negative number: the index is v * 12 div 256. The source
      never clamps the index; the range of a Sample keeps it inside the ramp. */
  function GlyphIndex(v: Sample): (k: nat)
    ensures k < |Ramp|
  {
    v * |Ramp| / 256
  }

  /** The character chosen for sample v. */
  function Glyph(v: Sample): (c: char)
    ensures c in Ramp
  {
    Ramp[GlyphIndex(v)]
  }

  /** The integer index is the floor of the real quotient v / 256 * 12. */
  lemma GlyphIndexIsFloor(v: Sample)
    ensures (GlyphIndex(v) as real) <= (v as real) / 256.0 * (|Ramp| as real)
    ensures (v as real) / 256.0 * (|Ramp| as real) < (GlyphIndex(v) + 1) as real
  {
    var k := GlyphIndex(v);
    assert k * 256 <= v * 12 < (k + 1) * 256;
    assert (k * 256) as real <= (v * 12) as real < ((k + 1) * 256) as real;
    assert (v as real) / 256.0 * 12.0 == (v * 12) as real / 256.0;
  }

  /** Brighter samples never get a denser glyph. */
  lemma GlyphIndexMonotone(v: Sample, w: Sample)
    requires v <= w
    ensures GlyphIndex(v) <= GlyphIndex(w)
  {
    var k, m := GlyphIndex(v), GlyphIndex(w);
    assert k * 256 <= v * 12;
    assert w * 12 < (m + 1) * 256;
    if k > m {
      assert false;
    }
  }

  /** Black maps to '#', white to ' ' and mid-gray 128 to '='. */
  lemma GlyphExamples()
    ensures GlyphIndex(0) == 0 && Glyph(0) == '#'
    ensures GlyphIndex(255) == |Ramp| - 1 && Glyph(255) == ' '
    ensures GlyphIndex(128) == 6 && Glyph(128) == '='
  {
  }

  /** No glyph is a line break, so a row of glyphs is one line of text. */
  lemma RampHasNoNewline()
    ensures '\n' !in Ramp
  {
  }
}
