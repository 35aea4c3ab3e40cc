/** The console screen: character cells drawn into the bit planes of a framebuffer. */
module ConsoleScreen {
  import opened Arithmetic
  import opened ConsolePlane
  import opened Memory

  const SPACE: Byte := 0x20

  type Screen = seq<Rows>

  /** A framebuffer of rows of `rowBytes` bytes, at least as large as the grid of 8 by 8 character cells. */
  datatype Dims = Dims(rowBytes: nat, pixelRows: nat, columns: nat, lines: nat) {
    predicate Ok() {
      1 <= columns <= rowBytes && 1 <= lines && 8 * lines <= pixelRows
    }
  }

  ghost predicate ScreenOk(s: Screen, d: Dims) {
    |s| <= 8 && forall p :: 0 <= p < |s| ==> |s[p]| == d.pixelRows && Wide(s[p], d.rowBytes)
  }

  // ---------------------------------------------------------------------------------------
  // Colors

  function Pow2(p: nat): (r: nat)
    ensures r > 0
  {
    if p == 0 then 1 else 2 * Pow2(p - 1)
  }

  predicate BitOf(index: nat, p: nat) {
    index / Pow2(p) % 2 == 1
  }

  /** The color index that is stored across the first `n` planes. */
  function Composed(bits: seq<bool>, n: nat): nat
    requires n <= |bits|
  {
    if n == 0 then 0 else Composed(bits, n - 1) + if bits[n - 1] then Pow2(n - 1) else 0
  }

  lemma {:induction false} ComposedIs(index: nat, bits: seq<bool>, n: nat)
    requires n <= |bits| && forall p :: 0 <= p < n ==> bits[p] == BitOf(index, p)
    ensures Composed(bits, n) == index % Pow2(n)
  {
    if n > 0 {
      ComposedIs(index, bits, n - 1);
      NextBit(index, Pow2(n - 1));
    }
  }

  lemma NextBit(index: nat, m: nat)
    requires m > 0
    ensures index % (2 * m) == index % m + m * (index / m % 2)
  {
    var q, b := index / m, index / m % 2;
    assert index == m * q + index % m && q == 2 * (q / 2) + b;
    assert m * q == 2 * m * (q / 2) + m * b by { assert m * (2 * (q / 2) + b) == 2 * m * (q / 2) + m * b; }
    var rest := index % m + m * b;
    assert m * b <= m;
    Remainder(index, 2 * m, q / 2, rest);
  }

  // ---------------------------------------------------------------------------------------
  // Fonts

  datatype Font = Font(glyphs: Bytes, encoding: seq<nat>)

  ghost predicate FontOk(f: Font) {
    && |f.encoding| == 128
    && (forall ch :: 0 <= ch < 128 ==> f.encoding[ch] + 8 <= |f.glyphs|)
    && (forall i :: 0 <= i < 8 ==> Glyph(f, SPACE)[i] == 0)
  }

  predicate HasGlyph(ch: Byte) {
    ch < 128
  }

  function Glyph(f: Font, ch: Byte): (g: Bytes)
    requires HasGlyph(ch) && |f.encoding| == 128 && f.encoding[ch] + 8 <= |f.glyphs|
    ensures |g| == 8
  {
    f.glyphs[f.encoding[ch]..f.encoding[ch] + 8]
  }

  datatype Style = Style(foreground: nat, background: nat, isReverse: bool, isHidden: bool) {
    function Ink(): nat {
      if isReverse then background else foreground
    }

    function Paper(): nat {
      if isReverse then foreground else background
    }
  }

  // ---------------------------------------------------------------------------------------
  // Glyphs

  function GlyphInPlane(s: Screen, d: Dims, glyph: Bytes, xc: nat, yc: nat, fg: nat, bg: nat, p: nat): (r: Rows)
    requires d.Ok() && ScreenOk(s, d) && |glyph| == 8 && xc < d.columns && yc < d.lines && p < |s|
    ensures |r| == d.pixelRows && Wide(r, d.rowBytes)
  {
    GlyphDrawn(s[p], xc, 8 * yc, glyph, BitOf(fg, p), BitOf(bg, p), 8)
  }

  function DrawnGlyph(s: Screen, d: Dims, glyph: Bytes, xc: nat, yc: nat, fg: nat, bg: nat): (r: Screen)
    requires d.Ok() && ScreenOk(s, d) && |glyph| == 8 && xc < d.columns && yc < d.lines
    ensures ScreenOk(r, d) && |r| == |s|
  {
    seq(|s|, p requires 0 <= p < |s| => GlyphInPlane(s, d, glyph, xc, yc, fg, bg, p))
  }

  /** The pixel at column `x` of byte `v`. */
  predicate PixelBit(v: Byte, x: nat)
    requires x < 8
  {
    v as int / Pow2(7 - x) % 2 == 1
  }

  function PixelBits(s: Screen, d: Dims, y: nat, x: nat): (bits: seq<bool>)
    requires ScreenOk(s, d) && y < d.pixelRows && x < 8 * d.rowBytes
    ensures |bits| == |s|
  {
    seq(|s|, p requires 0 <= p < |s| => PixelBit(s[p][y][x / 8], x % 8))
  }

  /** The color index of a pixel. */
  function Pixel(s: Screen, d: Dims, y: nat, x: nat): nat
    requires ScreenOk(s, d) && y < d.pixelRows && x < 8 * d.rowBytes
  {
    Composed(PixelBits(s, d, y, x), |s|)
  }

  lemma PowersOf2()
    ensures Pow2(0) == 1 && Pow2(1) == 2 && Pow2(2) == 4 && Pow2(3) == 8
    ensures Pow2(4) == 16 && Pow2(5) == 32 && Pow2(6) == 64 && Pow2(7) == 128
  {
  }

  lemma PowProduct(x: nat)
    requires x < 8
    ensures Pow2(7 - x) * (2 * Pow2(x)) == 256
  {
    PowersOf2();
    assert x == 0 || x == 1 || x == 2 || x == 3 || x == 4 || x == 5 || x == 6 || x == 7;
  }

  lemma QuotientBelow(v: nat, k: nat, n: nat)
    requires k > 0 && v < k * n
    ensures v / k < n
  {
    var q := v / k;
    assert v == k * q + v % k;
    Difference(k, q, n);
    if q > n { Multiple(k, q - n); }
  }

  lemma ComplementQuotient(v: nat, k: nat, n: nat, q: nat, r: nat)
    requires k * n == 256 && v < 256 && v == k * q + r && r < k && q < n
    ensures (255 - v) / k == n - 1 - q
  {
    Difference(k, n - 1, q);
    Difference(k, n, 1);
    Remainder(255 - v, k, n - 1 - q, k - 1 - r);
  }

  lemma Complement(v: nat, k: nat, t: nat)
    requires v < 256 && k > 0 && k * (2 * t) == 256
    ensures (255 - v) / k % 2 == 1 - v / k % 2
  {
    var q := v / k;
    assert v == k * q + v % k;
    QuotientBelow(v, k, 2 * t);
    ComplementQuotient(v, k, 2 * t, q, v % k);
    Parity(t, q);
  }

  lemma Parity(t: nat, q: nat)
    ensures (2 * t - 1 - q) % 2 == 1 - q % 2
  {
  }

  lemma ComplementBit(g: Byte, x: nat)
    requires x < 8
    ensures PixelBit(255 - g, x) == !PixelBit(g, x)
  {
    PowProduct(x);
    Complement(g as nat, Pow2(7 - x), Pow2(x));
  }

  lemma ConstantBits(x: nat)
    requires x < 8
    ensures PixelBit(255, x) && !PixelBit(0, x)
  {
    PowProduct(x);
    Complement(0, Pow2(7 - x), Pow2(x));
    Remainder(0, Pow2(7 - x), 0, 0);
  }

  lemma BlendBit(g: Byte, fgOne: bool, bgOne: bool, x: nat)
    requires x < 8
    ensures PixelBit(Blend(g, fgOne, bgOne), x) == if PixelBit(g, x) then fgOne else bgOne
  {
    ComplementBit(g, x);
    ConstantBits(x);
  }

  predicate InCell(xc: nat, yc: nat, y: nat, x: nat) {
    8 * yc <= y < 8 * yc + 8 && 8 * xc <= x < 8 * xc + 8
  }

  lemma GlyphBits(s: Screen, d: Dims, glyph: Bytes, xc: nat, yc: nat, fg: nat, bg: nat, y: nat, x: nat, p: nat)
    requires d.Ok() && ScreenOk(s, d) && |glyph| == 8 && xc < d.columns && yc < d.lines
    requires y < d.pixelRows && x < 8 * d.rowBytes && p < |s|
    ensures PixelBits(DrawnGlyph(s, d, glyph, xc, yc, fg, bg), d, y, x)[p]
         == if !InCell(xc, yc, y, x) then PixelBits(s, d, y, x)[p]
            else BitOf(if PixelBit(glyph[y - 8 * yc], x - 8 * xc) then fg else bg, p)
  {
    assert InCell(xc, yc, y, x) <==> x / 8 == xc && 8 * yc <= y < 8 * yc + 8;
    if InCell(xc, yc, y, x) {
      BlendBit(glyph[y - 8 * yc], BitOf(fg, p), BitOf(bg, p), x - 8 * xc);
    }
  }

  /**
   Every pixel of the cell has the foreground color where the glyph has a bit and the background color
   elsewhere; all other pixels of the framebuffer keep their color.
   */
  lemma GlyphPixels(s: Screen, d: Dims, glyph: Bytes, xc: nat, yc: nat, fg: nat, bg: nat, y: nat, x: nat)
    requires d.Ok() && ScreenOk(s, d) && |glyph| == 8 && xc < d.columns && yc < d.lines
    requires y < d.pixelRows && x < 8 * d.rowBytes
    ensures Pixel(DrawnGlyph(s, d, glyph, xc, yc, fg, bg), d, y, x)
         == if !InCell(xc, yc, y, x) then Pixel(s, d, y, x)
            else if PixelBit(glyph[y - 8 * yc], x - 8 * xc) then fg % Pow2(|s|) else bg % Pow2(|s|)
  {
    var r := DrawnGlyph(s, d, glyph, xc, yc, fg, bg);
    if InCell(xc, yc, y, x) {
      PixelInCell(s, d, glyph, xc, yc, fg, bg, y, x, PixelBits(r, d, y, x));
    } else {
      PixelElsewhere(s, d, glyph, xc, yc, fg, bg, y, x, PixelBits(r, d, y, x));
    }
  }

  lemma PixelInCell(s: Screen, d: Dims, glyph: Bytes, xc: nat, yc: nat, fg: nat, bg: nat, y: nat, x: nat,
                    bits: seq<bool>)
    requires d.Ok() && ScreenOk(s, d) && |glyph| == 8 && xc < d.columns && yc < d.lines
    requires y < d.pixelRows && x < 8 * d.rowBytes && InCell(xc, yc, y, x)
    requires bits == PixelBits(DrawnGlyph(s, d, glyph, xc, yc, fg, bg), d, y, x)
    ensures Composed(bits, |s|) == if PixelBit(glyph[y - 8 * yc], x - 8 * xc) then fg % Pow2(|s|) else bg % Pow2(|s|)
  {
    var color := if PixelBit(glyph[y - 8 * yc], x - 8 * xc) then fg else bg;
    forall p | 0 <= p < |s| ensures bits[p] == BitOf(color, p) {
      GlyphBits(s, d, glyph, xc, yc, fg, bg, y, x, p);
    }
    ComposedIs(color, bits, |s|);
  }

  lemma PixelElsewhere(s: Screen, d: Dims, glyph: Bytes, xc: nat, yc: nat, fg: nat, bg: nat, y: nat, x: nat,
                       bits: seq<bool>)
    requires d.Ok() && ScreenOk(s, d) && |glyph| == 8 && xc < d.columns && yc < d.lines
    requires y < d.pixelRows && x < 8 * d.rowBytes && !InCell(xc, yc, y, x)
    requires bits == PixelBits(DrawnGlyph(s, d, glyph, xc, yc, fg, bg), d, y, x)
    ensures bits == PixelBits(s, d, y, x)
  {
    forall p | 0 <= p < |s| ensures bits[p] == PixelBits(s, d, y, x)[p] {
      GlyphBits(s, d, glyph, xc, yc, fg, bg, y, x, p);
    }
  }
}
