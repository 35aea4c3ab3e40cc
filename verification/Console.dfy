/** The console in place: the cursor, the drawing attributes and the bit planes of the framebuffer. */
module ConsoleObject {
  import opened Arithmetic
  import opened ConsolePlane
  import opened ConsoleScreen
  import opened ConsoleRects
  import opened ConsoleScroll
  import Text = ConsoleText
  import opened ConsoleText
  import opened ConsoleCursor
  import opened ConsolePixels
  import opened Memory

  class TextConsole {
    const dims: Dims
    const planes: seq<array<Byte>>
    var font: Font
    var style: Style
    var isInsertionMode: bool
    var isAutoWrapEnabled: bool
    var x: int
    var y: int

    /** What the planes show. */
    ghost var screen: Screen

    ghost predicate PlanesOk()
      reads this
    {
      && dims.Ok() && FontOk(font) && |planes| <= 8
      && (forall p :: 0 <= p < |planes| ==> planes[p].Length == Start(dims.rowBytes, dims.pixelRows))
      && (forall p, q :: 0 <= p < q < |planes| ==> planes[p] != planes[q])
      && ScreenOk(screen, dims) && |screen| == |planes|
    }

    ghost predicate Shown()
      requires PlanesOk()
      reads this, planes
    {
      forall p :: 0 <= p < |planes| ==> RowsOf(planes[p][..], dims.rowBytes, dims.pixelRows) == screen[p]
    }

    ghost predicate Valid()
      reads this, planes
    {
      PlanesOk() && Shown() && 0 <= x < dims.columns && 0 <= y < dims.lines
    }

    ghost function State(): Text.Console
      reads this
    {
      Text.Console(screen, x, y)
    }

    ghost function Settings(): Text.Settings
      reads this
    {
      Text.Settings(dims, font, style, isInsertionMode, isAutoWrapEnabled)
    }

    /** A console on a mapped framebuffer, with the cursor in the top left corner. */
    constructor (dims: Dims, planes: seq<array<Byte>>, font: Font, style: Style)
      requires dims.Ok() && FontOk(font) && |planes| <= 8
      requires forall p :: 0 <= p < |planes| ==> planes[p].Length == Start(dims.rowBytes, dims.pixelRows)
      requires forall p, q :: 0 <= p < q < |planes| ==> planes[p] != planes[q]
      ensures Valid() && x == 0 && y == 0 && isAutoWrapEnabled && !isInsertionMode
      ensures this.dims == dims && this.planes == planes && this.font == font && this.style == style
    {
      this.dims, this.planes, this.font, this.style := dims, planes, font, style;
      x, y, isAutoWrapEnabled, isInsertionMode := 0, 0, true, false;
      screen := seq(|planes|, p requires 0 <= p < |planes|
                    && planes[p].Length == Start(dims.rowBytes, dims.pixelRows) reads planes =>
        RowsOf(planes[p][..], dims.rowBytes, dims.pixelRows));
    }

    method DrawInPlane(p: nat, glyph: Bytes, xc: nat, yc: nat, fg: nat, bg: nat)
      requires PlanesOk() && |glyph| == 8 && xc < dims.columns && yc < dims.lines && p < |planes|
      requires RowsOf(planes[p][..], dims.rowBytes, dims.pixelRows) == screen[p]
      modifies planes[p]
      ensures RowsOf(planes[p][..], dims.rowBytes, dims.pixelRows)
                == GlyphInPlane(screen, dims, glyph, xc, yc, fg, bg, p)
    {
      DrawGlyphPlane(planes[p], dims.rowBytes, dims.pixelRows, xc, yc, glyph, BitOf(fg, p), BitOf(bg, p));
    }

    method DrawInAllPlanes(glyph: Bytes, xc: nat, yc: nat, fg: nat, bg: nat)
      requires PlanesOk() && Shown() && |glyph| == 8 && xc < dims.columns && yc < dims.lines
      modifies planes
      ensures forall q :: 0 <= q < |planes| ==>
                RowsOf(planes[q][..], dims.rowBytes, dims.pixelRows)
                    == GlyphInPlane(screen, dims, glyph, xc, yc, fg, bg, q)
    {
      for p := 0 to |planes|
        invariant forall q :: 0 <= q < p ==>
                    RowsOf(planes[q][..], dims.rowBytes, dims.pixelRows)
                        == GlyphInPlane(screen, dims, glyph, xc, yc, fg, bg, q)
        invariant forall q :: p <= q < |planes| ==> RowsOf(planes[q][..], dims.rowBytes, dims.pixelRows) == screen[q]
      {
        DrawInPlane(p, glyph, xc, yc, fg, bg);
      }
    }

    method DrawGlyph(glyph: Bytes, xc: nat, yc: nat, fg: nat, bg: nat)
      requires PlanesOk() && Shown() && |glyph| == 8 && xc < dims.columns && yc < dims.lines
      modifies `screen, planes
      ensures PlanesOk() && Shown() && screen == DrawnGlyph(old(screen), dims, glyph, xc, yc, fg, bg)
    {
      DrawInAllPlanes(glyph, xc, yc, fg, bg);
      screen := DrawnGlyph(screen, dims, glyph, xc, yc, fg, bg);
    }

    method DrawChar(ch: Byte, xc: int, yc: int)
      requires PlanesOk() && Shown() && HasGlyph(ch)
      modifies `screen, planes
      ensures PlanesOk() && Shown() && screen == DrawnChar(Settings(), old(screen), ch, xc, yc)
      ensures PaintsChar(Settings(), old(screen), screen, ch, xc, yc)
    {
      CharPixels(Settings(), screen, ch, xc, yc);
      if xc >= 0 && yc >= 0 && xc < dims.columns && yc < dims.lines {
        var shown := if style.isHidden then SPACE else ch;
        var fgColor := if style.isReverse then style.background else style.foreground;
        var bgColor := if style.isReverse then style.foreground else style.background;
        DrawGlyph(Glyph(font, shown), xc, yc, fgColor, bgColor);
      }
    }

    method CopyAllPlanes(c: Copy, dstBottom: nat)
      requires PlanesOk() && Shown() && CopyFits(c, dims.rowBytes, dims.pixelRows)
      requires c.dstTop <= dstBottom <= dims.pixelRows
      modifies planes
      ensures forall q :: 0 <= q < |planes| ==>
                RowsOf(planes[q][..], dims.rowBytes, dims.pixelRows)
                    == RowsCopied(screen[q], dims.rowBytes, c, dstBottom - c.dstTop)
    {
      for p := 0 to |planes|
        invariant forall q :: 0 <= q < p ==>
                    RowsOf(planes[q][..], dims.rowBytes, dims.pixelRows)
                        == RowsCopied(screen[q], dims.rowBytes, c, dstBottom - c.dstTop)
        invariant forall q :: p <= q < |planes| ==> RowsOf(planes[q][..], dims.rowBytes, dims.pixelRows) == screen[q]
      {
        CopyPlane(planes[p], dims.rowBytes, dims.pixelRows, c, dstBottom);
      }
    }

    method CopyPlanes(c: Copy, dstBottom: nat)
      requires PlanesOk() && Shown() && CopyFits(c, dims.rowBytes, dims.pixelRows)
      requires c.dstTop <= dstBottom <= dims.pixelRows
      modifies `screen, planes
      ensures PlanesOk() && Shown() && screen == ScreenCopied(old(screen), dims, c, dstBottom - c.dstTop)
    {
      CopyAllPlanes(c, dstBottom);
      screen := ScreenCopied(screen, dims, c, dstBottom - c.dstTop);
    }

    /** A `fault` is a copy of a negative number of bytes. */
    method CopyRect(srcRect: Rect, dstX: int, dstY: int) returns (fault: bool)
      requires PlanesOk() && Shown()
      modifies `screen, planes
      ensures fault == CopyFaults(dims, srcRect, dstX, dstY)
      ensures PlanesOk() && Shown() && screen == ClippedCopied(old(screen), dims, srcRect, dstX, dstY)
    {
      var k := ClipOf(dims, srcRect, dstX, dstY);
      fault := false;
      if k.Returns() || !k.HasRows() {
        return;
      }
      if k.w < 0 {
        return true;
      }
      CopyPlanes(RowsOfClip(dims, k, srcRect, dstX, dstY), 8 * k.dst.bottom);
    }

    /** A copy of what is on the screen to a place on the screen. */
    method CopyOnScreen(src: Rect, dstX: int, dstY: int)
      requires PlanesOk() && Shown() && InBounds(dims, src) && 0 <= dstX <= dims.columns && 0 <= dstY <= dims.lines
      modifies `screen, planes
      ensures PlanesOk() && Shown() && screen == CopiedRect(old(screen), dims, src, dstX, dstY)
    {
      ClippedInBounds(screen, dims, src, dstX, dstY);
      var fault := CopyRect(src, dstX, dstY);
    }

    method FillInPlane(p: nat, r: Rect, bgColor: nat)
      requires PlanesOk() && InBounds(dims, r) && p < |planes|
      requires RowsOf(planes[p][..], dims.rowBytes, dims.pixelRows) == screen[p]
      modifies planes[p]
      ensures RowsOf(planes[p][..], dims.rowBytes, dims.pixelRows) == PlaneSet(screen, dims, r, bgColor, p)
    {
      FillPlane(planes[p], dims.rowBytes, dims.pixelRows, 8 * r.top, 8 * r.bottom, r.left, r.Width(),
                PaperByte(bgColor, p));
    }

    method FillAllPlanes(r: Rect, bgColor: nat)
      requires PlanesOk() && Shown() && InBounds(dims, r)
      modifies planes
      ensures forall q :: 0 <= q < |planes| ==>
                RowsOf(planes[q][..], dims.rowBytes, dims.pixelRows) == PlaneSet(screen, dims, r, bgColor, q)
    {
      for p := 0 to |planes|
        invariant forall q :: 0 <= q < p ==>
                    RowsOf(planes[q][..], dims.rowBytes, dims.pixelRows) == PlaneSet(screen, dims, r, bgColor, q)
        invariant forall q :: p <= q < |planes| ==> RowsOf(planes[q][..], dims.rowBytes, dims.pixelRows) == screen[q]
      {
        FillInPlane(p, r, bgColor);
      }
    }

    method FillPlanes(r: Rect, bgColor: nat)
      requires PlanesOk() && Shown() && InBounds(dims, r)
      modifies `screen, planes
      ensures PlanesOk() && Shown() && screen == ScreenSet(old(screen), dims, r, bgColor)
    {
      FillAllPlanes(r, bgColor);
      screen := ScreenSet(screen, dims, r, bgColor);
    }

    /** Draws a glyph into every cell of a rectangle that is inside of the screen. */
    method FillWithGlyph(r: Rect, glyph: Bytes, fgColor: nat, bgColor: nat)
      requires PlanesOk() && Shown() && InBounds(dims, r) && |glyph| == 8
      modifies `screen, planes
      ensures PlanesOk() && Shown() && screen == ScreenFilled(old(screen), dims, r, glyph, fgColor, bgColor)
    {
      FillStarts(screen, dims, r, glyph, fgColor, bgColor);
      for cy := r.top to r.bottom
        invariant PlanesOk() && Shown()
        invariant screen == ScreenPartly(old(screen), dims, r, cy, r.left, glyph, fgColor, bgColor)
      {
        FillLineWithGlyph(old(screen), r, cy, glyph, fgColor, bgColor);
      }
      FillEnds(old(screen), dims, r, glyph, fgColor, bgColor);
    }

    method FillLineWithGlyph(ghost s: Screen, r: Rect, cy: int, glyph: Bytes, fgColor: nat, bgColor: nat)
      requires PlanesOk() && Shown() && InBounds(dims, r) && |glyph| == 8 && r.top <= cy < r.bottom && ScreenOk(s, dims)
      requires screen == ScreenPartly(s, dims, r, cy, r.left, glyph, fgColor, bgColor)
      modifies `screen, planes
      ensures PlanesOk() && Shown() && screen == ScreenPartly(s, dims, r, cy + 1, r.left, glyph, fgColor, bgColor)
    {
      for cx := r.left to r.right
        invariant PlanesOk() && Shown() && screen == ScreenPartly(s, dims, r, cy, cx, glyph, fgColor, bgColor)
      {
        FillContinues(s, dims, r, cy, cx, glyph, fgColor, bgColor);
        DrawGlyph(glyph, cx, cy, fgColor, bgColor);
      }
      FillBreaks(s, dims, r, cy, glyph, fgColor, bgColor);
    }

    /** A `fault` is to fill a negative number of bytes. */
    method FillRect(rect: Rect, ch: Byte) returns (fault: bool)
      requires PlanesOk() && Shown() && HasGlyph(ch)
      modifies `screen, planes
      ensures var r := Intersection(rect, Bounds(dims)); fault <==> ch == SPACE && r.top < r.bottom && r.right < r.left
      ensures PlanesOk() && Shown() && screen == FilledRect(old(screen), dims, font, style, rect, ch)
      ensures ch < 32 || ch == 127 ==> screen == old(screen)
    {
      fault := false;
      if ch < 32 || ch == 127 {
        return;
      }
      var fgColor := if style.isReverse then style.background else style.foreground;
      var bgColor := if style.isReverse then style.foreground else style.background;
      var r := Intersection(rect, Bounds(dims));
      if r.IsEmpty() {
        return ch == SPACE && r.top < r.bottom && r.right < r.left;
      }
      if ch == SPACE {
        FastFillRefines(screen, dims, r, font, fgColor, bgColor);
        FillPlanes(r, bgColor);
      } else {
        FillWithGlyph(r, Glyph(font, ch), fgColor, bgColor);
      }
    }

    method ClearScreen()
      requires PlanesOk() && Shown()
      modifies `screen, planes
      ensures PlanesOk() && Shown() && screen == FilledRect(old(screen), dims, font, style, Bounds(dims), SPACE)
    {
      var fault := FillRect(Bounds(dims), SPACE);
    }

    method MoveVisible(dX: int, dY: int)
      requires PlanesOk() && Shown() && Abs(dX) < dims.columns && Abs(dY) < dims.lines
      modifies `screen, planes
      ensures PlanesOk() && Shown() && screen == VisibleMoved(old(screen), dims, dX, dY)
    {
      var absDx, absDy := Abs(dX), Abs(dY);
      if absDx > 0 || absDy > 0 {
        var copyRect := Rect(if dX < 0 then 0 else absDx, if dY < 0 then 0 else absDy,
                             if dX < 0 then dims.columns - absDx else dims.columns,
                             if dY < 0 then dims.lines - absDy else dims.lines);
        CopyOnScreen(copyRect, if dX < 0 then absDx else 0, if dY < 0 then absDy else 0);
      }
    }

    method ClearLines(dY: int)
      requires PlanesOk() && Shown() && Abs(dY) < dims.lines
      modifies `screen, planes
      ensures PlanesOk() && Shown() && screen == LinesCleared(old(screen), dims, font, style, dY)
    {
      var absDy := Abs(dY);
      if absDy > 0 {
        var fault := FillRect(Rect(0, if dY < 0 then 0 else dims.lines - absDy, dims.columns,
                                   if dY < 0 then absDy else dims.lines), SPACE);
      }
    }

    method ClearColumns(dX: int, dY: int)
      requires PlanesOk() && Shown() && Abs(dX) < dims.columns && Abs(dY) < dims.lines
      modifies `screen, planes
      ensures PlanesOk() && Shown() && screen == ColumnsCleared(old(screen), dims, font, style, dX, dY)
    {
      var absDx, absDy := Abs(dX), Abs(dY);
      if absDx > 0 {
        var fault := FillRect(Rect(if dX < 0 then 0 else dims.columns - absDx, if dY < 0 then absDy else 0,
                                   if dX < 0 then absDx else dims.columns,
                                   if dY < 0 then dims.lines else dims.lines - absDy), SPACE);
      }
    }

    method ScrollBy(dX: int, dY: int)
      requires PlanesOk() && Shown()
      modifies `screen, planes
      ensures PlanesOk() && Shown() && screen == ScrolledBy(old(screen), dims, font, style, dX, dY)
      ensures ShowsScrolled(old(screen), screen, dims, font, style, dX, dY)
    {
      MoveAndClear(dX, dY);
      ScrollsEverywhere(old(screen), dims, font, style, dX, dY, screen);
    }

    method MoveAndClear(dX: int, dY: int)
      requires PlanesOk() && Shown()
      modifies `screen, planes
      ensures PlanesOk() && Shown() && screen == ScrolledBy(old(screen), dims, font, style, dX, dY)
    {
      if Abs(dX) < dims.columns && Abs(dY) < dims.lines {
        MoveVisible(dX, dY);
        ClearLines(dY);
        ClearColumns(dX, dY);
      } else {
        ClearScreen();
      }
    }

    /** Moves the cursor to line `newY`, which is scrolled into view. */
    method ScrollTo(newX: int, newY: int)
      requires PlanesOk() && Shown() && 0 <= newX < dims.columns
      modifies `x, `y, `screen, planes
      ensures Valid() && State() == ScrolledTo(Settings(), old(screen), newX, newY)
    {
      var eY, lineY := dims.lines - 1, newY;
      if newY < 0 {
        MoveAndClear(0, newY);
        lineY := 0;
      } else if newY > eY {
        MoveAndClear(0, newY - eY);
        lineY := eY;
      }
      x, y := newX, lineY;
    }

    method MoveCursor(mode: CursorMovement, dx: int, dy: int)
      requires Valid()
      modifies `x, `y, `screen, planes
      ensures Valid() && State() == CursorMoved(Settings(), old(State()), mode, dx, dy)
      ensures Moves(Settings(), old(State()), mode, dx, dy, State())
    {
      if dx != 0 || dy != 0 {
        MoveCursorBy(mode, dx, dy);
      }
      CursorLands(Settings(), old(State()), mode, dx, dy);
    }

    method MoveCursorBy(mode: CursorMovement, dx: int, dy: int)
      requires Valid()
      modifies `x, `y, `screen, planes
      ensures Valid() && State() == CursorMoved(Settings(), old(State()), mode, dx, dy)
    {
      var aX, aY, eX, eY := 0, 0, dims.columns - 1, dims.lines - 1;
      var newX, newY := x + dx, y + dy;
      match mode {
        case Clamp =>
          x, y := Max(Min(newX, eX), aX), Max(Min(newY, eY), aY);
        case AutoWrap =>
          if newX < aX {
            newX := aX;
          } else if newX > eX {
            newX, newY := aX, newY + 1;
          }
          WrapsTowards(Settings(), State(), dx, dy, newX, newY);
          ScrollTo(newX, newY);
        case AutoScroll =>
          ScrollTo(Max(Min(newX, eX), aX), newY);
      }
    }

    /** LF, NEL */
    method LineFeed()
      requires Valid()
      modifies `x, `y, `screen, planes
      ensures Valid() && FeedsLine(Settings(), old(State()), State())
    {
      MoveCursor(AutoScroll, -x, 1);
      ConsoleCursor.LineFeed(Settings(), old(State()), State());
    }

    /** RI */
    method ReverseIndex()
      requires Valid()
      modifies `x, `y, `screen, planes
      ensures Valid() && IndexesBack(Settings(), old(State()), State())
    {
      MoveCursor(AutoScroll, 0, -1);
      ConsoleCursor.ReverseIndex(Settings(), old(State()), State());
    }

    method PlaceChar(ch: Byte)
      requires Valid() && HasGlyph(ch)
      modifies `screen, planes
      ensures Valid() && screen == CharPlaced(Settings(), old(State()), ch)
      ensures Places(Settings(), old(State()), ch, screen)
    {
      MakeRoom();
      DrawChar(ch, x, y);
      CharIsPlaced(Settings(), old(State()), ch, screen);
    }

    method MakeRoom()
      requires Valid()
      modifies `screen, planes
      ensures Valid() && screen == RoomMade(Settings(), old(State()))
    {
      if isInsertionMode {
        CopyOnScreen(Rect(x, y, dims.columns - 1, y + 1), x + 1, y);
      }
    }

    method PrintByte(ch: Byte)
      requires Valid() && HasGlyph(ch)
      modifies `x, `y, `screen, planes
      ensures Valid() && State() == BytePrinted(Settings(), old(State()), ch)
      ensures Prints(Settings(), old(State()), ch, State())
    {
      PlaceChar(ch);
      MoveCursor(if isAutoWrapEnabled then AutoWrap else Clamp, 1, 0);
      BytePrints(Settings(), old(State()), ch);
    }

    method Print(text: Bytes)
      requires Valid() && Printable(text)
      modifies `x, `y, `screen, planes
      ensures Valid() && State() == TextPrinted(Settings(), old(State()), text)
    {
      for i := 0 to |text|
        invariant Valid() && State() == TextPrinted(Settings(), old(State()), text[..i])
      {
        assert text[..i + 1][..i] == text[..i];
        PrintByte(text[i]);
      }
      assert text[..|text|] == text;
    }

    /** Text on a cleared screen. */
    method PrintPage(text: Bytes)
      requires Valid() && Printable(text) && isAutoWrapEnabled && !isInsertionMode
      modifies `x, `y, `screen, planes
      ensures Valid() && x == |text| % dims.columns && y == Min(|text| / dims.columns, dims.lines - 1)
      ensures ShowsLines(Settings(), screen, text, TopLine(|text|, dims))
    {
      ghost var s := screen;
      ClearScreen();
      MoveCursor(Clamp, -x, -y);
      ClearedShowsNothing(Settings(), s, screen);
      WrappedText(Settings(), State(), text);
      Print(text);
    }
  }
}
