/** The colors that characters and fills leave on the screen. */
module ConsolePixels {
  import opened Arithmetic
  import opened ConsolePlane
  import opened ConsoleScreen
  import opened ConsoleRects
  import opened ConsoleText
  import opened Memory

  /** The color of a pixel of a character: reverse exchanges foreground and background. */
  function Color(style: Style, inked: bool): nat {
    if inked != style.isReverse then style.foreground else style.background
  }

  lemma CellBit(f: Font, style: Style, ch: Byte, p: nat, i: nat, j: nat)
    requires FontOk(f) && HasGlyph(ch) && i < 8 && j < 8
    ensures PixelBit(CellByte(f, style, ch, p, i), j) == BitOf(Color(style, PixelBit(Glyph(f, ch)[i], j)), p)
  {
    BlendBit(Glyph(f, ch)[i], BitOf(style.Ink(), p), BitOf(style.Paper(), p), j);
  }

  lemma CellColor(t: Settings, r: Screen, ch: Byte, cy: nat, i: nat, cx: nat, j: nat)
    requires t.dims.Ok() && FontOk(t.font) && ScreenOk(r, t.dims) && HasGlyph(ch) && i < 8 && j < 8
    requires 8 * cy + i < t.dims.pixelRows && cx < t.dims.rowBytes
    requires forall p :: 0 <= p < |r| ==> CellAt(r, t.dims, p, cy, i, cx) == CellByte(t.font, t.style, ch, p, i)
    ensures Pixel(r, t.dims, 8 * cy + i, 8 * cx + j) == Color(t.style, PixelBit(Glyph(t.font, ch)[i], j)) % Pow2(|r|)
  {
    var color, bits := Color(t.style, PixelBit(Glyph(t.font, ch)[i], j)), PixelBits(r, t.dims, 8 * cy + i, 8 * cx + j);
    assert (8 * cx + j) / 8 == cx && (8 * cx + j) % 8 == j;
    forall p | 0 <= p < |r| ensures bits[p] == BitOf(color, p) {
      assert CellAt(r, t.dims, p, cy, i, cx) == CellByte(t.font, t.style, ch, p, i);
      CellBit(t.font, t.style, ch, p, i, j);
    }
    ComposedIs(color, bits, |r|);
  }

  /** A cell that shows a character has its glyph in the two colors of the style. */
  lemma ShownPixel(t: Settings, s: Screen, cy: nat, cx: nat, ch: Byte, i: nat, j: nat)
    requires t.dims.Ok() && FontOk(t.font) && ScreenOk(s, t.dims) && HasGlyph(ch) && cy < t.dims.lines
    requires cx < t.dims.columns && i < 8 && j < 8 && Shows(t, s, cy, cx, ch)
    ensures Pixel(s, t.dims, 8 * cy + i, 8 * cx + j)
         == Color(t.style, PixelBit(Glyph(t.font, ch)[i], j)) % Pow2(|s|)
  {
    CellColor(t, s, ch, cy, i, cx, j);
  }

  lemma BlankGlyph(f: Font, i: nat, j: nat)
    requires FontOk(f) && i < 8 && j < 8
    ensures !PixelBit(Glyph(f, SPACE)[i], j)
  {
    ConstantBits(j);
  }

  /** The color of a pixel of a drawn character. Of a hidden one only the paper can be seen. */
  function CharColor(t: Settings, ch: Byte, i: nat, j: nat): nat
    requires FontOk(t.font) && HasGlyph(ch) && i < 8 && j < 8
  {
    Color(t.style, !t.style.isHidden && PixelBit(Glyph(t.font, ch)[i], j))
  }

  /** Every pixel of the framebuffer is that of the character, or has not changed. */
  ghost predicate Paints(t: Settings, s: Screen, r: Screen, ch: Byte, xc: int, yc: int, y: nat, x: nat)
    requires FontOk(t.font) && ScreenOk(s, t.dims) && ScreenOk(r, t.dims) && HasGlyph(ch)
    requires y < t.dims.pixelRows && x < 8 * t.dims.rowBytes
  {
    Pixel(r, t.dims, y, x)
    == if 0 <= xc < t.dims.columns && 0 <= yc < t.dims.lines && InCell(xc, yc, y, x)
       then CharColor(t, ch, y - 8 * yc, x - 8 * xc) % Pow2(|s|) else Pixel(s, t.dims, y, x)
  }

  lemma CharPixel(t: Settings, s: Screen, ch: Byte, xc: int, yc: int, y: nat, x: nat)
    requires t.dims.Ok() && FontOk(t.font) && ScreenOk(s, t.dims) && HasGlyph(ch)
    requires y < t.dims.pixelRows && x < 8 * t.dims.rowBytes
    ensures Paints(t, s, DrawnChar(t, s, ch, xc, yc), ch, xc, yc, y, x)
  {
    if 0 <= xc < t.dims.columns && 0 <= yc < t.dims.lines {
      var shown := if t.style.isHidden then SPACE else ch;
      GlyphPixels(s, t.dims, Glyph(t.font, shown), xc, yc, t.style.Ink(), t.style.Paper(), y, x);
      if InCell(xc, yc, y, x) && t.style.isHidden { BlankGlyph(t.font, y - 8 * yc, x - 8 * xc); }
    }
  }

  ghost predicate PaintsChar(t: Settings, s: Screen, r: Screen, ch: Byte, xc: int, yc: int)
    requires FontOk(t.font) && ScreenOk(s, t.dims) && ScreenOk(r, t.dims) && HasGlyph(ch)
  {
    forall y, x :: 0 <= y < t.dims.pixelRows && 0 <= x < 8 * t.dims.rowBytes ==> Paints(t, s, r, ch, xc, yc, y, x)
  }

  /** Drawing a character, pixel by pixel: reverse exchanges the colors, hidden shows the paper only. */
  lemma CharPixels(t: Settings, s: Screen, ch: Byte, xc: int, yc: int)
    requires t.dims.Ok() && FontOk(t.font) && ScreenOk(s, t.dims) && HasGlyph(ch)
    ensures PaintsChar(t, s, DrawnChar(t, s, ch, xc, yc), ch, xc, yc)
  {
    var r := DrawnChar(t, s, ch, xc, yc);
    forall y, x | 0 <= y < t.dims.pixelRows && 0 <= x < 8 * t.dims.rowBytes ensures Paints(t, s, r, ch, xc, yc, y, x) {
      CharPixel(t, s, ch, xc, yc, y, x);
    }
  }

  predicate InFill(t: Settings, rect: Rect, cy: nat, cx: nat) {
    rect.left <= cx < Min(rect.right, t.dims.columns) && rect.top <= cy < Min(rect.bottom, t.dims.lines)
  }

  lemma SamePixel(d: Dims, s: Screen, r: Screen, cy: nat, i: nat, cx: nat, j: nat)
    requires d.Ok() && ScreenOk(s, d) && ScreenOk(r, d) && |r| == |s| && i < 8 && j < 8
    requires 8 * cy + i < d.pixelRows && cx < d.rowBytes
    requires forall p :: 0 <= p < |r| ==> CellAt(r, d, p, cy, i, cx) == CellAt(s, d, p, cy, i, cx)
    ensures Pixel(r, d, 8 * cy + i, 8 * cx + j) == Pixel(s, d, 8 * cy + i, 8 * cx + j)
  {
    assert (8 * cx + j) / 8 == cx;
    forall p | 0 <= p < |r| ensures r[p][8 * cy + i][cx] == s[p][8 * cy + i][cx] {
      assert CellAt(r, d, p, cy, i, cx) == CellAt(s, d, p, cy, i, cx);
    }
    assert PixelBits(r, d, 8 * cy + i, 8 * cx + j) == PixelBits(s, d, 8 * cy + i, 8 * cx + j);
  }

  /** A fill, pixel by pixel: the glyph is repeated in every cell of the rectangle that is on the screen. */
  lemma FillPixel(t: Settings, s: Screen, rect: Rect, ch: Byte, cy: nat, i: nat, cx: nat, j: nat)
    requires t.dims.Ok() && FontOk(t.font) && ScreenOk(s, t.dims) && HasGlyph(ch) && !IsControl(ch)
    requires i < 8 && j < 8 && 8 * cy + i < t.dims.pixelRows && cx < t.dims.rowBytes
    ensures Pixel(FilledRect(s, t.dims, t.font, t.style, rect, ch), t.dims, 8 * cy + i, 8 * cx + j)
         == if InFill(t, rect, cy, cx) then Color(t.style, PixelBit(Glyph(t.font, ch)[i], j)) % Pow2(|s|)
            else Pixel(s, t.dims, 8 * cy + i, 8 * cx + j)
  {
    var r := FilledRect(s, t.dims, t.font, t.style, rect, ch);
    forall p | 0 <= p < |s|
      ensures CellAt(r, t.dims, p, cy, i, cx)
           == if InFill(t, rect, cy, cx) then CellByte(t.font, t.style, ch, p, i) else CellAt(s, t.dims, p, cy, i, cx)
    {
      FilledRectAt(s, t.dims, t.font, t.style, rect, ch, p, cy, i, cx);
    }
    if InFill(t, rect, cy, cx) {
      CellColor(t, r, ch, cy, i, cx, j);
    } else {
      SamePixel(t.dims, s, r, cy, i, cx, j);
    }
  }
}
