/** Filling, copying and scrolling rectangles of character cells. */
module ConsoleRects {
  import opened Arithmetic
  import opened ConsolePlane
  import opened ConsoleScreen
  import opened Memory

  /** Left and top are inclusive; right and bottom are exclusive. */
  datatype Rect = Rect(left: int, top: int, right: int, bottom: int) {
    function Width(): int {
      right - left
    }

    function Height(): int {
      bottom - top
    }

    predicate IsEmpty() {
      right <= left || bottom <= top
    }
  }

  function Intersection(a: Rect, b: Rect): Rect {
    Rect(Max(a.left, b.left), Max(a.top, b.top), Min(a.right, b.right), Min(a.bottom, b.bottom))
  }

  function Bounds(d: Dims): Rect {
    Rect(0, 0, d.columns, d.lines)
  }

  ghost predicate InBounds(d: Dims, r: Rect) {
    0 <= r.left <= r.right <= d.columns && 0 <= r.top <= r.bottom <= d.lines
  }

  /** Byte `i` of the cell at column `cx` of line `cy`, in plane `p`. */
  function CellAt(s: Screen, d: Dims, p: nat, cy: nat, i: nat, cx: nat): Byte
    requires ScreenOk(s, d) && p < |s| && 8 * cy + i < d.pixelRows && cx < d.rowBytes
  {
    s[p][8 * cy + i][cx]
  }

  // ---------------------------------------------------------------------------------------
  // Filling

  function RowFilled(p: Rows, r: Rect, glyph: Bytes, fgOne: bool, bgOne: bool, y: nat): (row: Bytes)
    requires |glyph| == 8 && 0 <= r.left <= r.right && 0 <= r.top && y < |p| && r.right <= |p[y]|
    ensures |row| == |p[y]|
  {
    if 8 * r.top <= y < 8 * r.bottom then Patch(p[y], r.left, Repeat(Blend(glyph[y % 8], fgOne, bgOne), r.Width()))
      else p[y]
  }

  /** A glyph in every cell of a rectangle, in one plane. */
  function PlaneFilled(p: Rows, r: Rect, glyph: Bytes, fgOne: bool, bgOne: bool): (q: Rows)
    requires |glyph| == 8 && 0 <= r.left <= r.right && 0 <= r.top && forall y :: 0 <= y < |p| ==> r.right <= |p[y]|
    ensures |q| == |p|
  {
    seq(|p|, y requires 0 <= y < |p| => RowFilled(p, r, glyph, fgOne, bgOne, y))
  }

  /** A glyph in every cell of a rectangle. */
  function ScreenFilled(s: Screen, d: Dims, r: Rect, glyph: Bytes, fg: nat, bg: nat): (t: Screen)
    requires d.Ok() && ScreenOk(s, d) && |glyph| == 8 && InBounds(d, r)
    ensures ScreenOk(t, d) && |t| == |s|
  {
    seq(|s|, p requires 0 <= p < |s| => PlaneFilled(s[p], r, glyph, BitOf(fg, p), BitOf(bg, p)))
  }

  predicate IsControl(ch: Byte) {
    ch < 32 || ch == 127
  }

  function FilledRect(s: Screen, d: Dims, f: Font, style: Style, rect: Rect, ch: Byte): (r: Screen)
    requires d.Ok() && ScreenOk(s, d) && FontOk(f) && HasGlyph(ch)
    ensures ScreenOk(r, d) && |r| == |s|
  {
    var r := Intersection(rect, Bounds(d));
    if IsControl(ch) || r.IsEmpty() then s
    else ScreenFilled(s, d, r, Glyph(f, ch), style.Ink(), style.Paper())
  }

  /** The fast way to fill with spaces has the effect of drawing the blank glyph in every cell. */
  lemma FastFill(p: Rows, r: Rect, glyph: Bytes, fgOne: bool, bgOne: bool)
    requires |glyph| == 8 && 0 <= r.left <= r.right && 0 <= r.top <= r.bottom && 8 * r.bottom <= |p|
    requires forall y :: 0 <= y < |p| ==> r.right <= |p[y]|
    requires forall i :: 0 <= i < 8 ==> glyph[i] == 0
    ensures Filled(p, 8 * r.top, 8 * r.bottom, r.left, r.Width(), if bgOne then 255 else 0)
              == PlaneFilled(p, r, glyph, fgOne, bgOne)
  {
    forall y | 0 <= y < |p|
      ensures Filled(p, 8 * r.top, 8 * r.bottom, r.left, r.Width(), if bgOne then 255 else 0)[y]
                == PlaneFilled(p, r, glyph, fgOne, bgOne)[y]
    {
      assert glyph[y % 8] == 0;
    }
  }

  /** How much of a pixel row is done when the glyphs in front of cell `cx`, `cy` have been drawn. */
  function DoneWidth(r: Rect, cy: int, cx: int, y: int): int {
    if 8 * r.top <= y < 8 * cy then r.Width() else if 8 * cy <= y < 8 * cy + 8 then cx - r.left else 0
  }

  function RowPartly(p: Rows, r: Rect, cy: int, cx: int, glyph: Bytes, fgOne: bool, bgOne: bool, y: nat): (row: Bytes)
    requires |glyph| == 8 && 0 <= r.left <= cx <= r.right && 0 <= r.top <= cy && y < |p| && r.right <= |p[y]|
    ensures |row| == |p[y]|
  {
    Patch(p[y], r.left, Repeat(Blend(glyph[y % 8], fgOne, bgOne), DoneWidth(r, cy, cx, y)))
  }

  function PartlyFilled(p: Rows, r: Rect, cy: int, cx: int, glyph: Bytes, fgOne: bool, bgOne: bool): (q: Rows)
    requires |glyph| == 8 && 0 <= r.left <= cx <= r.right && 0 <= r.top <= cy
    requires forall y :: 0 <= y < |p| ==> r.right <= |p[y]|
    ensures |q| == |p|
  {
    seq(|p|, y requires 0 <= y < |p| => RowPartly(p, r, cy, cx, glyph, fgOne, bgOne, y))
  }

  lemma PatchOneMore(row: Bytes, x: nat, v: Byte, n: nat)
    requires x + n < |row|
    ensures Patch(row, x, Repeat(v, n))[x + n := v] == Patch(row, x, Repeat(v, n + 1))
  {
  }

  lemma OneByteMore(row: Bytes, r: Rect, cy: nat, cx: nat, y: nat, v: Byte)
    requires 0 <= r.left <= cx < r.right <= |row| && 0 <= r.top <= cy
    ensures var b := Patch(row, r.left, Repeat(v, DoneWidth(r, cy, cx, y)));
            (if 8 * cy <= y < 8 * cy + 8 then b[cx := v] else b)
                == Patch(row, r.left, Repeat(v, DoneWidth(r, cy, cx + 1, y)))
  {
    if 8 * cy <= y < 8 * cy + 8 { PatchOneMore(row, r.left, v, cx - r.left); }
  }

  lemma OneRowMore(p: Rows, r: Rect, cy: nat, cx: nat, glyph: Bytes, fgOne: bool, bgOne: bool, y: nat)
    requires |glyph| == 8 && 0 <= r.left <= cx < r.right && 0 <= r.top <= cy && 8 * cy + 8 <= |p| && y < |p|
    requires forall y :: 0 <= y < |p| ==> r.right <= |p[y]|
    ensures GlyphDrawn(PartlyFilled(p, r, cy, cx, glyph, fgOne, bgOne), cx, 8 * cy, glyph, fgOne, bgOne, 8)[y]
         == PartlyFilled(p, r, cy, cx + 1, glyph, fgOne, bgOne)[y]
  {
    var q := PartlyFilled(p, r, cy, cx, glyph, fgOne, bgOne);
    assert q[y] == RowPartly(p, r, cy, cx, glyph, fgOne, bgOne, y);
    GlyphRowOf(q, cx, cy, glyph, fgOne, bgOne, y);
    OneByteMore(p[y], r, cy, cx, y, Blend(glyph[y % 8], fgOne, bgOne));
  }

  lemma GlyphRowOf(q: Rows, cx: nat, cy: nat, glyph: Bytes, fgOne: bool, bgOne: bool, y: nat)
    requires |glyph| == 8 && y < |q| && cx < |q[y]|
    ensures GlyphRow(q, cx, 8 * cy, glyph, fgOne, bgOne, 8, y)
         == if 8 * cy <= y < 8 * cy + 8 then q[y][cx := Blend(glyph[y % 8], fgOne, bgOne)] else q[y]
  {
    if 8 * cy <= y < 8 * cy + 8 { assert y % 8 == y - 8 * cy; }
  }

  lemma OneCellMore(p: Rows, r: Rect, cy: nat, cx: nat, glyph: Bytes, fgOne: bool, bgOne: bool)
    requires |glyph| == 8 && 0 <= r.left <= cx < r.right && 0 <= r.top <= cy && 8 * cy + 8 <= |p|
    requires forall y :: 0 <= y < |p| ==> r.right <= |p[y]|
    ensures GlyphDrawn(PartlyFilled(p, r, cy, cx, glyph, fgOne, bgOne), cx, 8 * cy, glyph, fgOne, bgOne, 8)
         == PartlyFilled(p, r, cy, cx + 1, glyph, fgOne, bgOne)
  {
    var u := GlyphDrawn(PartlyFilled(p, r, cy, cx, glyph, fgOne, bgOne), cx, 8 * cy, glyph, fgOne, bgOne, 8);
    var t := PartlyFilled(p, r, cy, cx + 1, glyph, fgOne, bgOne);
    forall y | 0 <= y < |p| ensures u[y] == t[y] {
      OneRowMore(p, r, cy, cx, glyph, fgOne, bgOne, y);
    }
  }

  lemma NextLine(p: Rows, r: Rect, cy: int, glyph: Bytes, fgOne: bool, bgOne: bool)
    requires |glyph| == 8 && 0 <= r.left <= r.right && 0 <= r.top <= cy
    requires forall y :: 0 <= y < |p| ==> r.right <= |p[y]|
    ensures PartlyFilled(p, r, cy, r.right, glyph, fgOne, bgOne)
              == PartlyFilled(p, r, cy + 1, r.left, glyph, fgOne, bgOne)
  {
    forall y | 0 <= y < |p| ensures DoneWidth(r, cy, r.right, y) == DoneWidth(r, cy + 1, r.left, y) {
    }
  }

  lemma NothingFilled(p: Rows, r: Rect, glyph: Bytes, fgOne: bool, bgOne: bool)
    requires |glyph| == 8 && 0 <= r.left <= r.right && 0 <= r.top && forall y :: 0 <= y < |p| ==> r.right <= |p[y]|
    ensures PartlyFilled(p, r, r.top, r.left, glyph, fgOne, bgOne) == p
  {
    forall y | 0 <= y < |p| ensures PartlyFilled(p, r, r.top, r.left, glyph, fgOne, bgOne)[y] == p[y] {
      PatchNothing(p[y], r.left);
    }
  }

  lemma AllFilled(p: Rows, r: Rect, glyph: Bytes, fgOne: bool, bgOne: bool)
    requires |glyph| == 8 && 0 <= r.left <= r.right && 0 <= r.top <= r.bottom
    requires forall y :: 0 <= y < |p| ==> r.right <= |p[y]|
    ensures PartlyFilled(p, r, r.bottom, r.left, glyph, fgOne, bgOne) == PlaneFilled(p, r, glyph, fgOne, bgOne)
  {
    forall y | 0 <= y < |p| ensures PartlyFilled(p, r, r.bottom, r.left, glyph, fgOne, bgOne)[y]
        == PlaneFilled(p, r, glyph, fgOne, bgOne)[y] {
      PatchNothing(p[y], r.left);
    }
  }

  function ScreenPartly(s: Screen, d: Dims, r: Rect, cy: int, cx: int, glyph: Bytes, fg: nat, bg: nat): (t: Screen)
    requires d.Ok() && ScreenOk(s, d) && |glyph| == 8 && InBounds(d, r) && r.left <= cx <= r.right && r.top <= cy
    ensures ScreenOk(t, d) && |t| == |s|
  {
    seq(|s|, p requires 0 <= p < |s| => PartlyFilled(s[p], r, cy, cx, glyph, BitOf(fg, p), BitOf(bg, p)))
  }

  lemma FillStarts(s: Screen, d: Dims, r: Rect, glyph: Bytes, fg: nat, bg: nat)
    requires d.Ok() && ScreenOk(s, d) && |glyph| == 8 && InBounds(d, r)
    ensures ScreenPartly(s, d, r, r.top, r.left, glyph, fg, bg) == s
  {
    forall p | 0 <= p < |s| ensures ScreenPartly(s, d, r, r.top, r.left, glyph, fg, bg)[p] == s[p] {
      NothingFilled(s[p], r, glyph, BitOf(fg, p), BitOf(bg, p));
    }
  }

  lemma FillContinues(s: Screen, d: Dims, r: Rect, cy: int, cx: int, glyph: Bytes, fg: nat, bg: nat)
    requires d.Ok() && ScreenOk(s, d) && |glyph| == 8 && InBounds(d, r) && r.left <= cx < r.right
    requires r.top <= cy < r.bottom
    ensures DrawnGlyph(ScreenPartly(s, d, r, cy, cx, glyph, fg, bg), d, glyph, cx, cy, fg, bg)
              == ScreenPartly(s, d, r, cy, cx + 1, glyph, fg, bg)
  {
    var t, u := DrawnGlyph(ScreenPartly(s, d, r, cy, cx, glyph, fg, bg), d, glyph, cx, cy, fg, bg),
      ScreenPartly(s, d, r, cy, cx + 1, glyph, fg, bg);
    forall p | 0 <= p < |s| ensures t[p] == u[p] {
      OneCellMore(s[p], r, cy, cx, glyph, BitOf(fg, p), BitOf(bg, p));
    }
  }

  lemma FillBreaks(s: Screen, d: Dims, r: Rect, cy: int, glyph: Bytes, fg: nat, bg: nat)
    requires d.Ok() && ScreenOk(s, d) && |glyph| == 8 && InBounds(d, r) && r.top <= cy
    ensures ScreenPartly(s, d, r, cy, r.right, glyph, fg, bg) == ScreenPartly(s, d, r, cy + 1, r.left, glyph, fg, bg)
  {
    var t, u := ScreenPartly(s, d, r, cy, r.right, glyph, fg, bg), ScreenPartly(s, d, r, cy + 1, r.left, glyph, fg, bg);
    forall p | 0 <= p < |s| ensures t[p] == u[p] {
      NextLine(s[p], r, cy, glyph, BitOf(fg, p), BitOf(bg, p));
    }
  }

  lemma FillEnds(s: Screen, d: Dims, r: Rect, glyph: Bytes, fg: nat, bg: nat)
    requires d.Ok() && ScreenOk(s, d) && |glyph| == 8 && InBounds(d, r)
    ensures ScreenPartly(s, d, r, r.bottom, r.left, glyph, fg, bg) == ScreenFilled(s, d, r, glyph, fg, bg)
  {
    var t, u := ScreenPartly(s, d, r, r.bottom, r.left, glyph, fg, bg), ScreenFilled(s, d, r, glyph, fg, bg);
    forall p | 0 <= p < |s| ensures t[p] == u[p] {
      AllFilled(s[p], r, glyph, BitOf(fg, p), BitOf(bg, p));
    }
  }

  /** The value that the fast fill stores into plane `p`. */
  function PaperByte(bg: nat, p: nat): Byte {
    if BitOf(bg, p) then 255 else 0
  }

  function PlaneSet(s: Screen, d: Dims, r: Rect, bg: nat, p: nat): (q: Rows)
    requires d.Ok() && ScreenOk(s, d) && InBounds(d, r) && p < |s|
    ensures |q| == d.pixelRows && Wide(q, d.rowBytes)
  {
    Filled(s[p], 8 * r.top, 8 * r.bottom, r.left, r.Width(), PaperByte(bg, p))
  }

  function ScreenSet(s: Screen, d: Dims, r: Rect, bg: nat): (t: Screen)
    requires d.Ok() && ScreenOk(s, d) && InBounds(d, r)
    ensures ScreenOk(t, d) && |t| == |s|
  {
    seq(|s|, p requires 0 <= p < |s| => PlaneSet(s, d, r, bg, p))
  }

  /** The fast way to fill a rectangle with spaces refines drawing the blank glyph in every cell. */
  lemma FastFillRefines(s: Screen, d: Dims, r: Rect, f: Font, fg: nat, bg: nat)
    requires d.Ok() && ScreenOk(s, d) && FontOk(f) && InBounds(d, r)
    ensures ScreenSet(s, d, r, bg) == ScreenFilled(s, d, r, Glyph(f, SPACE), fg, bg)
  {
    var t, u := ScreenSet(s, d, r, bg), ScreenFilled(s, d, r, Glyph(f, SPACE), fg, bg);
    forall p | 0 <= p < |s| ensures t[p] == u[p] {
      FastFill(s[p], r, Glyph(f, SPACE), BitOf(fg, p), BitOf(bg, p));
    }
  }

  // ---------------------------------------------------------------------------------------
  // Copying

  /** Clips both rectangles and works out which pixel rows and bytes are copied. */
  function CopyOf(d: Dims, src: Rect, x: int, y: int): (c: Copy)
    requires d.Ok() && InBounds(d, src) && 0 <= x <= d.columns && 0 <= y <= d.lines
    ensures CopyFits(c, d.rowBytes, d.pixelRows)
  {
    var dst := Intersection(Rect(x, y, x + src.Width(), y + src.Height()), Bounds(d));
    Copy(8 * dst.top, dst.left, 8 * src.top, 8 * src.bottom, src.left, Min(src.Width(), dst.Width()),
         8 * (src.top - dst.top))
  }

  function CopyBottom(d: Dims, src: Rect, y: int): int {
    8 * Min(y + src.Height(), d.lines)
  }

  function ScreenCopied(s: Screen, d: Dims, c: Copy, n: nat): (t: Screen)
    requires ScreenOk(s, d) && CopyFits(c, d.rowBytes, d.pixelRows) && c.dstTop + n <= d.pixelRows
    ensures ScreenOk(t, d) && |t| == |s|
  {
    seq(|s|, p requires 0 <= p < |s| => RowsCopied(s[p], d.rowBytes, c, n))
  }

  function CopiedRect(s: Screen, d: Dims, src: Rect, x: int, y: int): (r: Screen)
    requires d.Ok() && ScreenOk(s, d) && InBounds(d, src) && 0 <= x <= d.columns && 0 <= y <= d.lines
    ensures ScreenOk(r, d) && |r| == |s|
  {
    var c := CopyOf(d, src, x, y);
    ScreenCopied(s, d, c, CopyBottom(d, src, y) - 8 * y)
  }

  /** The cell at `cx`, `cy` is inside of the destination, clipped at the right and bottom edge of the screen. */
  predicate IsDestination(d: Dims, src: Rect, x: int, y: int, cx: int, cy: int) {
    x <= cx < x + src.Width() && cx < d.columns && y <= cy < y + src.Height() && cy < d.lines
  }

  lemma PlaneCopiedAt(p: Rows, rowBytes: nat, c: Copy, n: nat, y: nat, x: nat)
    requires Wide(p, rowBytes) && CopyFits(c, rowBytes, |p|) && c.dstTop + n <= |p| && c.up >= 0 && y < |p|
    requires x < rowBytes
    ensures RowsCopied(p, rowBytes, c, n)[y][x]
         == if Receives(c, n, y) && c.dstLeft <= x < c.dstLeft + c.w then p[y + c.up][x - c.dstLeft + c.srcLeft]
           else p[y][x]
  {
    InPlaceIsAtOnce(p, rowBytes, c, n);
  }

  lemma CopiesCell(d: Dims, src: Rect, x: int, y: int, cy: nat, i: nat, cx: nat)
    requires d.Ok() && InBounds(d, src) && 0 <= x <= d.columns && 0 <= y <= d.lines && i < 8
    ensures var c, n := CopyOf(d, src, x, y), Max(CopyBottom(d, src, y) - 8 * y, 0);
            IsDestination(d, src, x, y, cx, cy) <==> Receives(c, n, 8 * cy + i) && c.dstLeft <= cx < c.dstLeft + c.w
  {
  }

  /** `CopyRect` copies all cells at once if the destination is not below the source. */
  lemma CopiedRectAt(s: Screen, d: Dims, src: Rect, x: int, y: int, p: nat, cy: nat, i: nat, cx: nat)
    requires d.Ok() && ScreenOk(s, d) && InBounds(d, src) && 0 <= x <= d.columns && 0 <= y <= d.lines && y <= src.top
    requires p < |s| && 8 * cy + i < d.pixelRows && i < 8 && cx < d.rowBytes
    ensures CellAt(CopiedRect(s, d, src, x, y), d, p, cy, i, cx)
         == if IsDestination(d, src, x, y, cx, cy) then CellAt(s, d, p, cy - y + src.top, i, cx - x + src.left)
           else CellAt(s, d, p, cy, i, cx)
  {
    var c, n := CopyOf(d, src, x, y), CopyBottom(d, src, y) - 8 * y;
    CopiesCell(d, src, x, y, cy, i, cx);
    PlaneCopiedAt(s[p], d.rowBytes, c, n, 8 * cy + i, cx);
  }

  lemma {:induction false} NothingCopied(p: Rows, rowBytes: nat, c: Copy, n: nat)
    requires Wide(p, rowBytes) && CopyFits(c, rowBytes, |p|) && c.dstTop + n <= |p|
    requires c.w == 0 || c.srcBottom <= c.srcTop || (c.up == 0 && c.dstLeft == c.srcLeft)
    ensures RowsCopied(p, rowBytes, c, n) == p
  {
    if n > 0 {
      NothingCopied(p, rowBytes, c, n - 1);
      var y := c.dstTop + n - 1;
      if HasSource(c, y) {
        assert Patch(p[y], c.dstLeft, Source(p, rowBytes, c, y + c.up)) == p[y];
      }
    }
  }

  /** Clipping both rectangles and working out the offsets and the width gives the same copy. */
  lemma ClippedCopy(d: Dims, srcRect: Rect, x: int, y: int, src: Rect, dst: Rect)
    requires d.Ok() && InBounds(d, srcRect) && 0 <= x <= d.columns && 0 <= y <= d.lines
    requires src == Intersection(srcRect, Bounds(d))
    requires dst == Intersection(Rect(x, y, x + srcRect.Width(), y + srcRect.Height()), Bounds(d))
    ensures src == srcRect && dst.top == y && dst.left == x && 8 * dst.bottom == CopyBottom(d, srcRect, y)
    ensures dst.Width() >= 0
    ensures var xOffset, yOffset := dst.left - src.left, dst.top - src.top;
            var left, right := Max(dst.left - xOffset, src.left), Min(dst.right - xOffset, src.right);
            CopyOf(d, srcRect, x, y) == Copy(8 * dst.top, dst.left, 8 * src.top, 8 * src.bottom, left,
                                             Min(right - left, dst.Width()), -8 * yOffset)
  {
  }

  /** Copying nothing, or a rectangle onto itself, changes nothing. */
  lemma CopiedOntoItself(s: Screen, d: Dims, src: Rect, x: int, y: int)
    requires d.Ok() && ScreenOk(s, d) && InBounds(d, src) && 0 <= x <= d.columns && 0 <= y <= d.lines
    requires src.Width() == 0 || src.Height() == 0 || x == d.columns || (x == src.left && y == src.top)
    ensures CopiedRect(s, d, src, x, y) == s
  {
    forall p | 0 <= p < |s| ensures CopiedRect(s, d, src, x, y)[p] == s[p] {
      NothingCopied(s[p], d.rowBytes, CopyOf(d, src, x, y), CopyBottom(d, src, y) - 8 * y);
    }
  }

  /** What `CopyRect` makes of its arguments: the clipped rectangles, and the bytes it copies in every row. */
  datatype Clip = Clip(src: Rect, dst: Rect, left: int, w: int) {
    function XOffset(): int {
      dst.left - src.left
    }

    function YOffset(): int {
      dst.top - src.top
    }

    predicate Returns() {
      src.Width() == 0 || src.Height() == 0 || dst.Width() == 0 || (XOffset() == 0 && YOffset() == 0)
    }

    /** Some row of the destination has a row of the source. */
    predicate HasRows() {
      Max(dst.top, src.top + YOffset()) < Min(dst.bottom, src.bottom + YOffset())
    }
  }

  function ClipOf(d: Dims, srcRect: Rect, x: int, y: int): Clip {
    var src := Intersection(srcRect, Bounds(d));
    var dst := Intersection(Rect(x, y, x + srcRect.Width(), y + srcRect.Height()), Bounds(d));
    var xOffset := dst.left - src.left;
    var left, right := Max(dst.left - xOffset, src.left), Min(dst.right - xOffset, src.right);
    Clip(src, dst, left, Min(right - left, dst.Width()))
  }

  /** Rows are copied, and the number of bytes is negative. */
  predicate CopyFaults(d: Dims, srcRect: Rect, x: int, y: int) {
    var k := ClipOf(d, srcRect, x, y);
    !k.Returns() && k.HasRows() && k.w < 0
  }

  /** `CopyRect` for any two rectangles. */
  function ClippedCopied(s: Screen, d: Dims, srcRect: Rect, x: int, y: int): (r: Screen)
    requires d.Ok() && ScreenOk(s, d)
    ensures ScreenOk(r, d) && |r| == |s|
  {
    var k := ClipOf(d, srcRect, x, y);
    if k.Returns() || !k.HasRows() || k.w < 0 then s
    else ScreenCopied(s, d, RowsOfClip(d, k, srcRect, x, y), 8 * k.dst.bottom - 8 * k.dst.top)
  }

  /** The pixel rows that are copied. */
  function RowsOfClip(d: Dims, k: Clip, srcRect: Rect, x: int, y: int): (c: Copy)
    requires d.Ok() && k == ClipOf(d, srcRect, x, y) && k.HasRows() && k.w >= 0
    ensures CopyFits(c, d.rowBytes, d.pixelRows) && c.dstTop <= 8 * k.dst.bottom <= d.pixelRows
  {
    Copy(8 * k.dst.top, k.dst.left, 8 * k.src.top, 8 * k.src.bottom, k.left, k.w, -8 * k.YOffset())
  }

  lemma ClippedRow(k: Clip, cy: nat, i: nat)
    requires i < 8 && k.HasRows() && 0 <= k.dst.top && 0 <= k.src.top && 0 <= k.w && 0 <= k.dst.left && 0 <= k.left
    ensures var c := Copy(8 * k.dst.top, k.dst.left, 8 * k.src.top, 8 * k.src.bottom, k.left, k.w, -8 * k.YOffset());
            Receives(c, 8 * k.dst.bottom - 8 * k.dst.top, 8 * cy + i)
            <==> k.dst.top <= cy < k.dst.bottom && k.src.top <= cy - k.YOffset() < k.src.bottom
  {
  }

  /** Cells are copied by the offset of the clipped rectangles, all at once if that is not downwards. */
  lemma ClippedCopiedAt(s: Screen, d: Dims, srcRect: Rect, x: int, y: int, p: nat, cy: nat, i: nat, cx: nat)
    requires d.Ok() && ScreenOk(s, d) && !CopyFaults(d, srcRect, x, y) && ClipOf(d, srcRect, x, y).YOffset() <= 0
    requires p < |s| && 8 * cy + i < d.pixelRows && i < 8 && cx < d.rowBytes
    ensures var k := ClipOf(d, srcRect, x, y);
            CellAt(ClippedCopied(s, d, srcRect, x, y), d, p, cy, i, cx)
            == if && !k.Returns() && k.dst.top <= cy < k.dst.bottom && k.src.top <= cy - k.YOffset() < k.src.bottom
                  && k.dst.left <= cx < k.dst.left + k.w
               then CellAt(s, d, p, cy - k.YOffset(), i, cx - k.XOffset()) else CellAt(s, d, p, cy, i, cx)
  {
    var k := ClipOf(d, srcRect, x, y);
    if !k.Returns() && k.HasRows() {
      var c := Copy(8 * k.dst.top, k.dst.left, 8 * k.src.top, 8 * k.src.bottom, k.left, k.w, -8 * k.YOffset());
      ClippedRow(k, cy, i);
      PlaneCopiedAt(s[p], d.rowBytes, c, 8 * k.dst.bottom - 8 * k.dst.top, 8 * cy + i, cx);
    }
  }

  /** A source on the screen and a destination that starts on it need no clipping at the left and top. */
  lemma ClippedInBounds(s: Screen, d: Dims, src: Rect, x: int, y: int)
    requires d.Ok() && ScreenOk(s, d) && InBounds(d, src) && 0 <= x <= d.columns && 0 <= y <= d.lines
    ensures !CopyFaults(d, src, x, y) && ClippedCopied(s, d, src, x, y) == CopiedRect(s, d, src, x, y)
  {
    var k := ClipOf(d, src, x, y);
    ClippedCopy(d, src, x, y, k.src, k.dst);
    if k.Returns() {
      CopiedOntoItself(s, d, src, x, y);
    } else if !k.HasRows() {
      BelowCopiesNothing(s, d, src, x, y);
    }
  }

  lemma BelowCopiesNothing(s: Screen, d: Dims, src: Rect, x: int, y: int)
    requires d.Ok() && ScreenOk(s, d) && InBounds(d, src) && 0 <= x <= d.columns && 0 <= y <= d.lines
    requires src.Height() > 0 && y >= d.lines
    ensures CopiedRect(s, d, src, x, y) == s
  {
    forall p | 0 <= p < |s| ensures CopiedRect(s, d, src, x, y)[p] == s[p] {
      assert CopyBottom(d, src, y) - 8 * y == 0;
    }
  }

  // ---------------------------------------------------------------------------------------
  // Scrolling

  /** The part of the screen that stays visible moves. */
  function VisibleMoved(s: Screen, d: Dims, dX: int, dY: int): (r: Screen)
    requires d.Ok() && ScreenOk(s, d) && Abs(dX) < d.columns && Abs(dY) < d.lines
    ensures ScreenOk(r, d) && |r| == |s|
  {
    var absDx, absDy := Abs(dX), Abs(dY);
    var copyRect := Rect(if dX < 0 then 0 else absDx, if dY < 0 then 0 else absDy,
                         if dX < 0 then d.columns - absDx else d.columns, if dY < 0 then d.lines - absDy else d.lines);
    if absDx > 0 || absDy > 0
    then CopiedRect(s, d, copyRect, if dX < 0 then absDx else 0, if dY < 0 then absDy else 0) else s
  }

  /** Lines that came into view are cleared. */
  function LinesCleared(s: Screen, d: Dims, f: Font, style: Style, dY: int): (r: Screen)
    requires d.Ok() && ScreenOk(s, d) && FontOk(f) && Abs(dY) < d.lines
    ensures ScreenOk(r, d) && |r| == |s|
  {
    var absDy := Abs(dY);
    if absDy > 0
    then FilledRect(s, d, f, style,
                    Rect(0, if dY < 0 then 0 else d.lines - absDy, d.columns, if dY < 0 then absDy else d.lines), SPACE)
    else s
  }

  /** Columns that came into view are cleared. */
  function ColumnsCleared(s: Screen, d: Dims, f: Font, style: Style, dX: int, dY: int): (r: Screen)
    requires d.Ok() && ScreenOk(s, d) && FontOk(f) && Abs(dX) < d.columns && Abs(dY) < d.lines
    ensures ScreenOk(r, d) && |r| == |s|
  {
    var absDx, absDy := Abs(dX), Abs(dY);
    var hClear := Rect(if dX < 0 then 0 else d.columns - absDx, if dY < 0 then absDy else 0,
                       if dX < 0 then absDx else d.columns, if dY < 0 then d.lines else d.lines - absDy);
    if absDx > 0 then FilledRect(s, d, f, style, hClear, SPACE) else s
  }

  function ScrolledBy(s: Screen, d: Dims, f: Font, style: Style, dX: int, dY: int): (r: Screen)
    requires d.Ok() && ScreenOk(s, d) && FontOk(f)
    ensures ScreenOk(r, d) && |r| == |s|
  {
    if Abs(dX) < d.columns && Abs(dY) < d.lines
    then ColumnsCleared(LinesCleared(VisibleMoved(s, d, dX, dY), d, f, style, dY), d, f, style, dX, dY)
    else FilledRect(s, d, f, style, Bounds(d), SPACE)
  }

  /** Byte `i` of the cell that shows `ch`. */
  function CellByte(f: Font, style: Style, ch: Byte, p: nat, i: nat): Byte
    requires FontOk(f) && HasGlyph(ch) && i < 8
  {
    Blend(Glyph(f, ch)[i], BitOf(style.Ink(), p), BitOf(style.Paper(), p))
  }

  lemma PlaneFilledAt(p: Rows, r: Rect, glyph: Bytes, fgOne: bool, bgOne: bool, cy: nat, i: nat, cx: nat)
    requires |glyph| == 8 && 0 <= r.left <= r.right && 0 <= r.top && forall y :: 0 <= y < |p| ==> r.right <= |p[y]|
    requires i < 8 && 8 * cy + i < |p| && cx < |p[8 * cy + i]|
    ensures PlaneFilled(p, r, glyph, fgOne, bgOne)[8 * cy + i][cx]
         == if r.left <= cx < r.right && r.top <= cy < r.bottom then Blend(glyph[i], fgOne, bgOne)
           else p[8 * cy + i][cx]
  {
    LineOf(cy, i, r.top, r.bottom);
  }

  lemma LineOf(cy: nat, i: nat, top: int, bottom: int)
    requires i < 8
    ensures (8 * cy + i) % 8 == i && (8 * top <= 8 * cy + i < 8 * bottom <==> top <= cy < bottom)
  {
  }

  lemma FilledRectAt(s: Screen, d: Dims, f: Font, style: Style, rect: Rect, ch: Byte, p: nat, cy: nat, i: nat, cx: nat)
    requires d.Ok() && ScreenOk(s, d) && FontOk(f) && HasGlyph(ch) && !IsControl(ch)
    requires p < |s| && 8 * cy + i < d.pixelRows && i < 8 && cx < d.rowBytes
    ensures CellAt(FilledRect(s, d, f, style, rect, ch), d, p, cy, i, cx)
         == if rect.left <= cx < Min(rect.right, d.columns) && rect.top <= cy < Min(rect.bottom, d.lines)
            then CellByte(f, style, ch, p, i) else CellAt(s, d, p, cy, i, cx)
  {
    var r := Intersection(rect, Bounds(d));
    if !r.IsEmpty() {
      PlaneFilledAt(s[p], r, Glyph(f, ch), BitOf(style.Ink(), p), BitOf(style.Paper(), p), cy, i, cx);
    }
  }

  /** Every line of `s` moved up by `n` lines, and blank lines moved in. */
  ghost predicate ScrolledUp(s: Screen, r: Screen, d: Dims, f: Font, style: Style, n: nat)
    requires d.Ok() && ScreenOk(s, d) && ScreenOk(r, d) && FontOk(f) && |r| == |s|
  {
    forall p, cy, i, cx :: 0 <= p < |s| && 0 <= cy < d.lines && 0 <= i < 8 && 0 <= cx < d.columns
      ==> CellAt(r, d, p, cy, i, cx) == FromBelow(s, d, f, style, n, p, cy, i, cx)
  }

  function FromBelow(s: Screen, d: Dims, f: Font, style: Style, n: nat, p: nat, cy: nat, i: nat, cx: nat): Byte
    requires d.Ok() && ScreenOk(s, d) && FontOk(f) && p < |s| && cy < d.lines && i < 8 && cx < d.columns
  {
    if cy + n < d.lines then CellAt(s, d, p, cy + n, i, cx) else CellByte(f, style, SPACE, p, i)
  }

  lemma PartScrolledUp(s: Screen, d: Dims, f: Font, style: Style, n: nat, p: nat, cy: nat, i: nat, cx: nat, r: Screen)
    requires d.Ok() && ScreenOk(s, d) && FontOk(f) && 0 < n < d.lines && p < |s| && cy < d.lines && i < 8
    requires cx < d.columns
    requires r == CopiedRect(s, d, Rect(0, n, d.columns, d.lines), 0, 0)
    ensures CellAt(FilledRect(r, d, f, style, Rect(0, d.lines - n, d.columns, d.lines), SPACE), d, p, cy, i, cx)
              == FromBelow(s, d, f, style, n, p, cy, i, cx)
  {
    CopiedRectAt(s, d, Rect(0, n, d.columns, d.lines), 0, 0, p, cy, i, cx);
    FilledRectAt(r, d, f, style, Rect(0, d.lines - n, d.columns, d.lines), SPACE, p, cy, i, cx);
  }

  lemma UpwardsIs(s: Screen, d: Dims, f: Font, style: Style, n: nat)
    requires d.Ok() && ScreenOk(s, d) && FontOk(f) && n > 0
    ensures ScrolledBy(s, d, f, style, 0, n)
         == if n < d.lines then FilledRect(CopiedRect(s, d, Rect(0, n, d.columns, d.lines), 0, 0), d, f, style,
                                           Rect(0, d.lines - n, d.columns, d.lines), SPACE)
            else FilledRect(s, d, f, style, Bounds(d), SPACE)
  {
  }

  /** Scrolling by a positive number of lines moves the text up. */
  lemma ScrollsUp(s: Screen, d: Dims, f: Font, style: Style, n: nat, r: Screen)
    requires d.Ok() && ScreenOk(s, d) && FontOk(f) && n > 0 && r == ScrolledBy(s, d, f, style, 0, n)
    ensures ScrolledUp(s, r, d, f, style, n)
  {
    UpwardsIs(s, d, f, style, n);
    forall p, cy, i, cx | 0 <= p < |s| && 0 <= cy < d.lines && 0 <= i < 8 && 0 <= cx < d.columns
      ensures CellAt(r, d, p, cy, i, cx) == FromBelow(s, d, f, style, n, p, cy, i, cx)
    {
      if n < d.lines {
        PartScrolledUp(s, d, f, style, n, p, cy, i, cx, CopiedRect(s, d, Rect(0, n, d.columns, d.lines), 0, 0));
      } else {
        FilledRectAt(s, d, f, style, Bounds(d), SPACE, p, cy, i, cx);
      }
    }
  }
}
