/** Cursor movement and printing, and what printed text looks like on the screen. */
module ConsoleText {
  import opened Arithmetic
  import opened ConsolePlane
  import opened ConsoleScreen
  import opened ConsoleRects
  import opened Memory

  datatype CursorMovement = Clamp | AutoWrap | AutoScroll

  datatype Settings = Settings(dims: Dims, font: Font, style: Style, isInsertionMode: bool, isAutoWrapEnabled: bool)

  datatype Console = Console(screen: Screen, x: int, y: int)

  ghost predicate Valid(t: Settings, c: Console) {
    && t.dims.Ok() && FontOk(t.font) && ScreenOk(c.screen, t.dims)
    && 0 <= c.x < t.dims.columns && 0 <= c.y < t.dims.lines
  }

  function Clamped(v: int, max: int): int {
    Max(Min(v, max), 0)
  }

  /** Scrolls if the cursor left the screen at the top or at the bottom. */
  function ScrolledTo(t: Settings, s: Screen, x: int, y: int): (c: Console)
    requires t.dims.Ok() && FontOk(t.font) && ScreenOk(s, t.dims)
  {
    var eY := t.dims.lines - 1;
    if y < 0 then Console(ScrolledBy(s, t.dims, t.font, t.style, 0, y), x, 0)
    else if y > eY then Console(ScrolledBy(s, t.dims, t.font, t.style, 0, y - eY), x, eY)
    else Console(s, x, y)
  }

  function CursorMoved(t: Settings, c: Console, mode: CursorMovement, dx: int, dy: int): (r: Console)
    requires Valid(t, c)
    ensures Valid(t, r) && |r.screen| == |c.screen|
  {
    var eX, eY, x, y := t.dims.columns - 1, t.dims.lines - 1, c.x + dx, c.y + dy;
    match mode
    case Clamp => c.(x := Clamped(x, eX), y := Clamped(y, eY))
    case AutoWrap => ScrolledTo(t, c.screen, if 0 <= x <= eX then x else 0, if x > eX then y + 1 else y)
    case AutoScroll => ScrolledTo(t, c.screen, Clamped(x, eX), y)
  }

  function DrawnChar(t: Settings, s: Screen, ch: Byte, xc: int, yc: int): (r: Screen)
    requires t.dims.Ok() && FontOk(t.font) && ScreenOk(s, t.dims) && HasGlyph(ch)
    ensures ScreenOk(r, t.dims) && |r| == |s|
  {
    if 0 <= xc < t.dims.columns && 0 <= yc < t.dims.lines then
      DrawnGlyph(s, t.dims, Glyph(t.font, if t.style.isHidden then SPACE else ch), xc, yc, t.style.Ink(),
                 t.style.Paper())
    else s
  }

  /** In insertion mode, the rest of the line makes room for a character. */
  function RoomMade(t: Settings, c: Console): (s: Screen)
    requires Valid(t, c)
    ensures ScreenOk(s, t.dims) && |s| == |c.screen|
  {
    if t.isInsertionMode
    then CopiedRect(c.screen, t.dims, Rect(c.x, c.y, t.dims.columns - 1, c.y + 1), c.x + 1, c.y) else c.screen
  }

  /** The character at the cursor. */
  function CharPlaced(t: Settings, c: Console, ch: Byte): (s: Screen)
    requires Valid(t, c) && HasGlyph(ch)
    ensures ScreenOk(s, t.dims) && |s| == |c.screen|
  {
    DrawnChar(t, RoomMade(t, c), ch, c.x, c.y)
  }

  function BytePrinted(t: Settings, c: Console, ch: Byte): (r: Console)
    requires Valid(t, c) && HasGlyph(ch)
    ensures Valid(t, r) && |r.screen| == |c.screen|
  {
    CursorMoved(t, c.(screen := CharPlaced(t, c, ch)), if t.isAutoWrapEnabled then AutoWrap else Clamp, 1, 0)
  }

  ghost predicate Printable(text: Bytes) {
    forall i :: 0 <= i < |text| ==> HasGlyph(text[i])
  }

  function TextPrinted(t: Settings, c: Console, text: Bytes): (r: Console)
    requires Valid(t, c) && Printable(text)
    ensures Valid(t, r)
  {
    if text == [] then c else BytePrinted(t, TextPrinted(t, c, text[..|text| - 1]), text[|text| - 1])
  }

  // ---------------------------------------------------------------------------------------
  // Wrapped text

  /** The character at `column` of a line of the text, wrapped at `width` columns; blank behind its end. */
  function WrappedAt(text: Bytes, width: nat, line: nat, column: nat): Byte {
    if line * width + column < |text| then text[line * width + column] else SPACE
  }

  /** What is drawn for a character. */
  function Drawn(t: Settings, ch: Byte): Byte {
    if t.style.isHidden then SPACE else ch
  }

  /** The cell at `cx`, `cy` shows `ch`, in all planes. */
  ghost predicate Shows(t: Settings, s: Screen, cy: nat, cx: nat, ch: Byte)
    requires t.dims.Ok() && FontOk(t.font) && ScreenOk(s, t.dims) && HasGlyph(ch) && cy < t.dims.lines
    requires cx < t.dims.columns
  {
    forall p, i :: 0 <= p < |s| && 0 <= i < 8 ==> CellAt(s, t.dims, p, cy, i, cx) == CellByte(t.font, t.style, ch, p, i)
  }

  /** The screen shows the lines of the wrapped text from line `top` on. */
  ghost predicate ShowsLines(t: Settings, s: Screen, text: Bytes, top: nat)
    requires t.dims.Ok() && FontOk(t.font) && ScreenOk(s, t.dims) && Printable(text)
  {
    forall cy, cx :: 0 <= cy < t.dims.lines && 0 <= cx < t.dims.columns ==> ShowsTextAt(t, s, text, top, cy, cx)
  }

  ghost predicate ShowsTextAt(t: Settings, s: Screen, text: Bytes, top: nat, cy: nat, cx: nat)
    requires t.dims.Ok() && FontOk(t.font) && ScreenOk(s, t.dims) && Printable(text) && cy < t.dims.lines
    requires cx < t.dims.columns
  {
    Shows(t, s, cy, cx, Drawn(t, WrappedAt(text, t.dims.columns, top + cy, cx)))
  }

  lemma CharDrawnHere(t: Settings, s: Screen, ch: Byte, xc: nat, yc: nat)
    requires t.dims.Ok() && FontOk(t.font) && ScreenOk(s, t.dims) && HasGlyph(ch) && xc < t.dims.columns
    requires yc < t.dims.lines
    ensures Shows(t, DrawnChar(t, s, ch, xc, yc), yc, xc, Drawn(t, ch))
  {
  }

  lemma CharDrawnElsewhere(t: Settings, s: Screen, ch: Byte, xc: nat, yc: nat, cy: nat, cx: nat, shown: Byte)
    requires t.dims.Ok() && FontOk(t.font) && ScreenOk(s, t.dims) && HasGlyph(ch) && HasGlyph(shown)
    requires xc < t.dims.columns && yc < t.dims.lines && cy < t.dims.lines && cx < t.dims.columns
    requires (cx != xc || cy != yc)
    requires Shows(t, s, cy, cx, shown)
    ensures Shows(t, DrawnChar(t, s, ch, xc, yc), cy, cx, shown)
  {
    var r := DrawnChar(t, s, ch, xc, yc);
    forall p, i | 0 <= p < |r| && 0 <= i < 8
      ensures CellAt(r, t.dims, p, cy, i, cx) == CellByte(t.font, t.style, shown, p, i) {
      assert CellAt(s, t.dims, p, cy, i, cx) == CellByte(t.font, t.style, shown, p, i);
    }
  }

  lemma UpShown(t: Settings, s: Screen, r: Screen, cy: nat, cx: nat, ch: Byte)
    requires t.dims.Ok() && FontOk(t.font) && ScreenOk(s, t.dims) && ScreenOk(r, t.dims) && |r| == |s| && HasGlyph(ch)
    requires cy < t.dims.lines && cx < t.dims.columns && ScrolledUp(s, r, t.dims, t.font, t.style, 1)
    requires if cy + 1 < t.dims.lines then Shows(t, s, cy + 1, cx, ch) else ch == SPACE
    ensures Shows(t, r, cy, cx, ch)
  {
    forall p, i | 0 <= p < |r| && 0 <= i < 8
      ensures CellAt(r, t.dims, p, cy, i, cx) == CellByte(t.font, t.style, ch, p, i) {
      assert CellAt(r, t.dims, p, cy, i, cx) == FromBelow(s, t.dims, t.font, t.style, 1, p, cy, i, cx);
    }
  }

  lemma Lexicographic(width: nat, line: nat, column: nat, l: nat, c: nat)
    requires column < width && c < width
    ensures l * width + c < line * width + column <==> l < line || (l == line && c < column)
    ensures l * width + c == line * width + column <==> l == line && c == column
  {
    if l < line {
      LinesApart(width, l, line);
    } else if line < l {
      LinesApart(width, line, l);
    }
  }

  lemma LinesApart(width: nat, l: nat, line: nat)
    requires l < line
    ensures l * width + width <= line * width
  {
    Difference(width, line, l);
    Multiple(width, line - l);
  }

  /** One more character changes one place of the wrapped text. */
  lemma WrappedMore(text: Bytes, ch: Byte, width: nat, line: nat, column: nat, l: nat, c: nat)
    requires column < width && c < width && |text| == line * width + column
    ensures WrappedAt(text + [ch], width, l, c) == if l == line && c == column then ch else WrappedAt(text, width, l, c)
  {
    Lexicographic(width, line, column, l, c);
  }

  /** The cursor stands behind the text, which is `line` full lines and `column` characters long. */
  ghost predicate TextState(t: Settings, c: Console, text: Bytes, line: nat, column: nat)
    requires Valid(t, c) && Printable(text)
  {
    && column < t.dims.columns && |text| == line * t.dims.columns + column
    && c.x == column && c.y == Min(line, t.dims.lines - 1)
    && ShowsLines(t, c.screen, text, line - c.y)
  }

  lemma CharShown(t: Settings, s: Screen, text: Bytes, ch: Byte, line: nat, column: nat, yc: nat, cy: nat, cx: nat)
    requires t.dims.Ok() && FontOk(t.font) && ScreenOk(s, t.dims) && Printable(text) && HasGlyph(ch)
    requires Printable(text + [ch])
    requires column < t.dims.columns && yc < t.dims.lines && yc <= line && |text| == line * t.dims.columns + column
    requires cy < t.dims.lines && cx < t.dims.columns && ShowsTextAt(t, s, text, line - yc, cy, cx)
    ensures ShowsTextAt(t, DrawnChar(t, s, ch, column, yc), text + [ch], line - yc, cy, cx)
  {
    WrappedMore(text, ch, t.dims.columns, line, column, line - yc + cy, cx);
    if cx == column && cy == yc {
      CharDrawnHere(t, s, ch, column, yc);
    } else {
      CharDrawnElsewhere(t, s, ch, column, yc, cy, cx, Drawn(t, WrappedAt(text, t.dims.columns, line - yc + cy, cx)));
    }
  }

  lemma CharOnScreen(t: Settings, c: Console, text: Bytes, line: nat, column: nat, ch: Byte, s: Screen)
    requires Valid(t, c) && Printable(text) && HasGlyph(ch) && TextState(t, c, text, line, column)
    requires Printable(text + [ch])
    requires s == DrawnChar(t, c.screen, ch, c.x, c.y)
    ensures ShowsLines(t, s, text + [ch], line - c.y)
  {
    var top, more := line - c.y, text + [ch];
    forall cy, cx | 0 <= cy < t.dims.lines && 0 <= cx < t.dims.columns ensures ShowsTextAt(t, s, more, top, cy, cx) {
      CharAt(t, c, text, line, column, ch, s, cy, cx);
    }
  }

  lemma CharAt(t: Settings, c: Console, text: Bytes, line: nat, column: nat, ch: Byte, s: Screen, cy: nat, cx: nat)
    requires Valid(t, c) && Printable(text) && HasGlyph(ch) && TextState(t, c, text, line, column)
    requires Printable(text + [ch]) && s == DrawnChar(t, c.screen, ch, c.x, c.y)
    requires cy < t.dims.lines && cx < t.dims.columns
    ensures ShowsTextAt(t, s, text + [ch], line - c.y, cy, cx)
  {
    assert ShowsTextAt(t, c.screen, text, line - c.y, cy, cx);
    CharShown(t, c.screen, text, ch, line, column, c.y, cy, cx);
  }

  lemma BlankBehind(text: Bytes, width: nat, line: nat, l: nat, c: nat)
    requires c < width && |text| == line * width && l >= line
    ensures WrappedAt(text, width, l, c) == SPACE
  {
    Lexicographic(width, line, 0, l, c);
  }

  lemma LineScrolled(t: Settings, s: Screen, r: Screen, text: Bytes, line: nat, top: nat, cy: nat, cx: nat)
    requires t.dims.Ok() && FontOk(t.font) && ScreenOk(s, t.dims) && ScreenOk(r, t.dims) && |r| == |s|
    requires Printable(text)
    requires ScrolledUp(s, r, t.dims, t.font, t.style, 1)
    requires |text| == line * t.dims.columns && line == top + t.dims.lines && cy < t.dims.lines && cx < t.dims.columns
    requires cy + 1 < t.dims.lines ==> ShowsTextAt(t, s, text, top, cy + 1, cx)
    ensures ShowsTextAt(t, r, text, top + 1, cy, cx)
  {
    if cy + 1 == t.dims.lines { BlankBehind(text, t.dims.columns, line, top + 1 + cy, cx); }
    UpShown(t, s, r, cy, cx, Drawn(t, WrappedAt(text, t.dims.columns, top + 1 + cy, cx)));
  }

  /** Scrolling keeps the text in view. */
  lemma LinesScrolled(t: Settings, s: Screen, text: Bytes, line: nat, top: nat, r: Screen)
    requires t.dims.Ok() && FontOk(t.font) && ScreenOk(s, t.dims) && ScreenOk(r, t.dims) && |r| == |s|
    requires Printable(text)
    requires |text| == line * t.dims.columns && line == top + t.dims.lines && ShowsLines(t, s, text, top)
    requires ScrolledUp(s, r, t.dims, t.font, t.style, 1)
    ensures ShowsLines(t, r, text, top + 1)
  {
    var next := top + 1;
    forall cy, cx | 0 <= cy < t.dims.lines && 0 <= cx < t.dims.columns ensures ShowsTextAt(t, r, text, next, cy, cx) {
      var below := cy + 1;
      if below < t.dims.lines { assert ShowsTextAt(t, s, text, top, below, cx); }
      LineScrolled(t, s, r, text, line, top, cy, cx);
    }
  }

  lemma WrapsTo(t: Settings, s: Screen, y: nat)
    requires t.dims.Ok() && FontOk(t.font) && ScreenOk(s, t.dims) && y < t.dims.lines
    ensures ScrolledTo(t, s, 0, y + 1)
         == if y + 1 < t.dims.lines then Console(s, 0, y + 1)
           else Console(ScrolledBy(s, t.dims, t.font, t.style, 0, 1), 0, y)
  {
  }

  lemma BrokenAtBottom(t: Settings, s: Screen, r: Screen, text: Bytes, line: nat)
    requires t.dims.Ok() && FontOk(t.font) && ScreenOk(s, t.dims) && ScreenOk(r, t.dims) && |r| == |s|
    requires Printable(text)
    requires |text| == (line + 1) * t.dims.columns && line + 1 >= t.dims.lines
    requires ShowsLines(t, s, text, line + 1 - t.dims.lines)
    requires ScrolledUp(s, r, t.dims, t.font, t.style, 1)
    ensures var c := Console(r, 0, t.dims.lines - 1);
            Valid(t, c) && TextState(t, c, text, line + 1, 0)
  {
    LinesScrolled(t, s, text, line + 1, line + 1 - t.dims.lines, r);
  }

  /** Behind a full line, the cursor goes to the start of the next one. */
  lemma LineBroken(t: Settings, s: Screen, text: Bytes, line: nat, y: nat, c: Console)
    requires t.dims.Ok() && FontOk(t.font) && ScreenOk(s, t.dims) && Printable(text)
    requires |text| == (line + 1) * t.dims.columns && y == Min(line, t.dims.lines - 1)
    requires ShowsLines(t, s, text, line - y)
    requires c == ScrolledTo(t, s, 0, y + 1)
    ensures Valid(t, c) && TextState(t, c, text, line + 1, 0)
  {
    WrapsTo(t, s, y);
    if y + 1 == t.dims.lines {
      ScrollsUp(s, t.dims, t.font, t.style, 1, c.screen);
      BrokenAtBottom(t, s, c.screen, text, line);
    }
  }

  lemma WithinLine(t: Settings, c: Console, s: Screen, text: Bytes, line: nat, column: nat)
    requires Valid(t, c) && ScreenOk(s, t.dims) && Printable(text) && column + 1 < t.dims.columns
    requires |text| == line * t.dims.columns + column + 1 && c.x == column && c.y == Min(line, t.dims.lines - 1)
    requires ShowsLines(t, s, text, line - c.y)
    ensures var r := CursorMoved(t, c.(screen := s), AutoWrap, 1, 0);
            TextState(t, r, text, line, column + 1)
  {
  }

  lemma AtLineEnd(t: Settings, c: Console, s: Screen, text: Bytes, line: nat)
    requires Valid(t, c) && ScreenOk(s, t.dims) && Printable(text) && c.x + 1 == t.dims.columns
    requires |text| == (line + 1) * t.dims.columns && c.y == Min(line, t.dims.lines - 1)
    requires ShowsLines(t, s, text, line - c.y)
    ensures var r := CursorMoved(t, c.(screen := s), AutoWrap, 1, 0);
            TextState(t, r, text, line + 1, 0)
  {
    LineBroken(t, s, text, line, c.y, ScrolledTo(t, s, 0, c.y + 1));
  }

  lemma TextStateMore(t: Settings, c: Console, text: Bytes, line: nat, column: nat, ch: Byte, more: Bytes)
    returns (l: nat, k: nat)
    requires Valid(t, c) && Printable(text) && HasGlyph(ch) && more == text + [ch] && Printable(more)
    requires TextState(t, c, text, line, column)
    requires t.isAutoWrapEnabled && !t.isInsertionMode
    ensures TextState(t, BytePrinted(t, c, ch), more, l, k)
  {
    var s := CharPlaced(t, c, ch);
    CharOnScreen(t, c, text, line, column, ch, s);
    if column + 1 < t.dims.columns {
      l, k := line, column + 1;
      WithinLine(t, c, s, more, line, column);
    } else {
      l, k := line + 1, 0;
      assert |more| == (line + 1) * t.dims.columns;
      AtLineEnd(t, c, s, more, line);
    }
  }

  lemma DivMod(n: nat, width: nat, line: nat, column: nat)
    requires column < width && n == line * width + column
    ensures n / width == line && n % width == column
  {
    Remainder(n, width, line, column);
  }

  lemma {:induction false} TextStateAfter(t: Settings, c: Console, text: Bytes) returns (line: nat, column: nat)
    requires Valid(t, c) && Printable(text) && t.isAutoWrapEnabled && !t.isInsertionMode
    requires c.x == 0 && c.y == 0 && ShowsLines(t, c.screen, [], 0)
    ensures TextState(t, TextPrinted(t, c, text), text, line, column)
  {
    if text == [] {
      line, column := 0, 0;
    } else {
      var front, ch := text[..|text| - 1], text[|text| - 1];
      line, column := TextStateAfter(t, c, front);
      line, column := TextStateMore(t, TextPrinted(t, c, front), front, line, column, ch, text);
    }
  }

  /** The first line of the wrapped text that is still on the screen. */
  function TopLine(n: nat, d: Dims): nat
    requires d.Ok()
  {
    Max(n / d.columns - (d.lines - 1), 0)
  }

  lemma WrappedState(t: Settings, r: Console, text: Bytes, line: nat, column: nat)
    requires Valid(t, r) && Printable(text) && TextState(t, r, text, line, column)
    ensures r.x == |text| % t.dims.columns && r.y == Min(|text| / t.dims.columns, t.dims.lines - 1)
    ensures ShowsLines(t, r.screen, text, TopLine(|text|, t.dims))
  {
    DivMod(|text|, t.dims.columns, line, column);
    assert TopLine(|text|, t.dims) == line - r.y;
  }

  /**
   From a cleared screen and with auto-wrap, any text leaves its last lines on the screen, wrapped at
   the right edge, and the cursor behind its last character.
   */
  lemma WrappedText(t: Settings, c: Console, text: Bytes)
    requires Valid(t, c) && Printable(text) && t.isAutoWrapEnabled && !t.isInsertionMode
    requires c.x == 0 && c.y == 0 && ShowsLines(t, c.screen, [], 0)
    ensures var r := TextPrinted(t, c, text);
            && r.x == |text| % t.dims.columns && r.y == Min(|text| / t.dims.columns, t.dims.lines - 1)
            && ShowsLines(t, r.screen, text, TopLine(|text|, t.dims))
  {
    var line, column := TextStateAfter(t, c, text);
    WrappedState(t, TextPrinted(t, c, text), text, line, column);
  }

  lemma ClearedCell(t: Settings, s: Screen, r: Screen, cy: nat, cx: nat)
    requires t.dims.Ok() && FontOk(t.font) && ScreenOk(s, t.dims) && cy < t.dims.lines && cx < t.dims.columns
    requires r == FilledRect(s, t.dims, t.font, t.style, Bounds(t.dims), SPACE)
    ensures Shows(t, r, cy, cx, SPACE)
  {
    forall p, i | 0 <= p < |r| && 0 <= i < 8
      ensures CellAt(r, t.dims, p, cy, i, cx) == CellByte(t.font, t.style, SPACE, p, i) {
      FilledRectAt(s, t.dims, t.font, t.style, Bounds(t.dims), SPACE, p, cy, i, cx);
    }
  }

  lemma BlankText(t: Settings, r: Screen, cy: nat, cx: nat)
    requires t.dims.Ok() && FontOk(t.font) && ScreenOk(r, t.dims) && cy < t.dims.lines && cx < t.dims.columns
    requires Shows(t, r, cy, cx, SPACE)
    ensures ShowsTextAt(t, r, [], 0, cy, cx)
  {
  }

  /** Clearing the screen leaves the empty text. */
  lemma ClearedShowsNothing(t: Settings, s: Screen, r: Screen)
    requires t.dims.Ok() && FontOk(t.font) && ScreenOk(s, t.dims)
    requires r == FilledRect(s, t.dims, t.font, t.style, Bounds(t.dims), SPACE)
    ensures ShowsLines(t, r, [], 0)
  {
    forall cy, cx | 0 <= cy < t.dims.lines && 0 <= cx < t.dims.columns ensures ShowsTextAt(t, r, [], 0, cy, cx) {
      ClearedCell(t, s, r, cy, cx);
      BlankText(t, r, cy, cx);
    }
  }
}
