/** Where the cursor goes, what is scrolled, and what a printed character does to its line. */
module ConsoleCursor {
  import opened Arithmetic
  import opened ConsolePlane
  import opened ConsoleScreen
  import opened ConsoleRects
  import opened ConsoleScroll
  import opened ConsoleText
  import opened Memory

  // ---------------------------------------------------------------------------------------
  // Moving

  function Distance(a: int, b: int): int {
    Abs(a - b)
  }

  /** Of the positions from 0 up to `n`, `r` is the one nearest to `v`. */
  ghost predicate Nearest(v: int, n: int, r: int) {
    0 <= r < n && forall q :: 0 <= q < n ==> Distance(v, r) <= Distance(v, q)
  }

  lemma ClampedIsNearest(v: int, n: int)
    requires n > 0
    ensures Nearest(v, n, Clamped(v, n - 1)) && (0 <= v < n ==> Clamped(v, n - 1) == v)
  {
  }

  /** `r` is where the line `y` is shown once it is scrolled into view, by as many lines as it lies beyond an edge. */
  ghost predicate ScrollsTo(t: Settings, s: Screen, y: int, r: Console)
    requires t.dims.Ok() && FontOk(t.font) && ScreenOk(s, t.dims) && ScreenOk(r.screen, t.dims) && |r.screen| == |s|
  {
    && Nearest(y, t.dims.lines, r.y) && (r.y == y ==> r.screen == s)
    && ShowsScrolled(s, r.screen, t.dims, t.font, t.style, 0, y - r.y)
  }

  /** Where the cursor goes, and what the screen shows then. */
  ghost predicate Moves(t: Settings, c: Console, mode: CursorMovement, dx: int, dy: int, r: Console)
    requires Valid(t, c) && Valid(t, r) && |r.screen| == |c.screen|
  {
    var x, y := c.x + dx, c.y + dy;
    match mode
    case Clamp => Nearest(x, t.dims.columns, r.x) && Nearest(y, t.dims.lines, r.y) && r.screen == c.screen
    case AutoScroll => Nearest(x, t.dims.columns, r.x) && ScrollsTo(t, c.screen, y, r)
    case AutoWrap =>
      && r.x == (if 0 <= x < t.dims.columns then x else 0)
      && ScrollsTo(t, c.screen, if x >= t.dims.columns then y + 1 else y, r)
  }

  lemma ScrolledToIs(t: Settings, s: Screen, x: int, y: int)
    requires t.dims.Ok() && FontOk(t.font) && ScreenOk(s, t.dims)
    ensures var r, ny := ScrolledTo(t, s, x, y), Clamped(y, t.dims.lines - 1);
            && r.x == x && r.y == ny && (ny == y ==> r.screen == s)
            && (ny != y ==> r.screen == ScrolledBy(s, t.dims, t.font, t.style, 0, y - ny))
  {
  }

  lemma ShownScrolled(t: Settings, s: Screen, y: int, r: Console, n: int)
    requires t.dims.Ok() && FontOk(t.font) && ScreenOk(s, t.dims) && Nearest(y, t.dims.lines, r.y)
    requires n == y - r.y != 0 && r.screen == ScrolledBy(s, t.dims, t.font, t.style, 0, n)
    ensures ScreenOk(r.screen, t.dims) && |r.screen| == |s| && ScrollsTo(t, s, y, r)
  {
    ScrollsEverywhere(s, t.dims, t.font, t.style, 0, n, r.screen);
  }

  lemma ShownUnscrolled(t: Settings, s: Screen, y: int, r: Console)
    requires t.dims.Ok() && FontOk(t.font) && ScreenOk(s, t.dims) && Nearest(y, t.dims.lines, r.y)
    requires y == r.y && r.screen == s
    ensures ScrollsTo(t, s, y, r)
  {
    NotScrolled(s, t.dims, t.font, t.style);
  }

  lemma ScrolledToShows(t: Settings, s: Screen, x: int, y: int)
    requires t.dims.Ok() && FontOk(t.font) && ScreenOk(s, t.dims)
    ensures var r := ScrolledTo(t, s, x, y);
            r.x == x && ScreenOk(r.screen, t.dims) && |r.screen| == |s| && ScrollsTo(t, s, y, r)
  {
    var r := ScrolledTo(t, s, x, y);
    ClampedIsNearest(y, t.dims.lines);
    ScrolledToIs(t, s, x, y);
    if r.y == y {
      ShownUnscrolled(t, s, y, r);
    } else {
      ShownScrolled(t, s, y, r, y - r.y);
    }
  }

  lemma NotScrolled(s: Screen, d: Dims, f: Font, style: Style)
    requires d.Ok() && ScreenOk(s, d) && FontOk(f)
    ensures ShowsScrolled(s, s, d, f, style, 0, 0)
  {
  }

  lemma ScrollsTowards(t: Settings, c: Console, dx: int, dy: int, x: int, y: int)
    requires Valid(t, c) && x == Clamped(c.x + dx, t.dims.columns - 1) && y == c.y + dy
    ensures CursorMoved(t, c, AutoScroll, dx, dy) == ScrolledTo(t, c.screen, x, y)
  {
  }

  lemma IsScroll(t: Settings, c: Console, dx: int, dy: int, r: Console)
    requires Valid(t, c) && Valid(t, r) && |r.screen| == |c.screen|
    requires Nearest(c.x + dx, t.dims.columns, r.x) && ScrollsTo(t, c.screen, c.y + dy, r)
    ensures Moves(t, c, AutoScroll, dx, dy, r)
  {
  }

  lemma Scrolls(t: Settings, c: Console, dx: int, dy: int)
    requires Valid(t, c)
    ensures Moves(t, c, AutoScroll, dx, dy, CursorMoved(t, c, AutoScroll, dx, dy))
  {
    var x, y := Clamped(c.x + dx, t.dims.columns - 1), c.y + dy;
    ScrollsTowards(t, c, dx, dy, x, y);
    ClampedIsNearest(c.x + dx, t.dims.columns);
    ScrolledToShows(t, c.screen, x, y);
    IsScroll(t, c, dx, dy, ScrolledTo(t, c.screen, x, y));
  }

  lemma WrapsTowards(t: Settings, c: Console, dx: int, dy: int, x: int, y: int)
    requires Valid(t, c) && x == (if 0 <= c.x + dx < t.dims.columns then c.x + dx else 0)
    requires y == if c.x + dx >= t.dims.columns then c.y + dy + 1 else c.y + dy
    ensures CursorMoved(t, c, AutoWrap, dx, dy) == ScrolledTo(t, c.screen, x, y)
  {
  }

  lemma IsWrap(t: Settings, c: Console, dx: int, dy: int, x: int, y: int, r: Console)
    requires Valid(t, c) && Valid(t, r) && |r.screen| == |c.screen| && r.x == x && ScrollsTo(t, c.screen, y, r)
    requires x == if 0 <= c.x + dx < t.dims.columns then c.x + dx else 0
    requires y == if c.x + dx >= t.dims.columns then c.y + dy + 1 else c.y + dy
    ensures Moves(t, c, AutoWrap, dx, dy, r)
  {
  }

  lemma Wraps(t: Settings, c: Console, dx: int, dy: int)
    requires Valid(t, c)
    ensures Moves(t, c, AutoWrap, dx, dy, CursorMoved(t, c, AutoWrap, dx, dy))
  {
    var x := if 0 <= c.x + dx < t.dims.columns then c.x + dx else 0;
    var y := if c.x + dx >= t.dims.columns then c.y + dy + 1 else c.y + dy;
    WrapsTowards(t, c, dx, dy, x, y);
    ScrolledToShows(t, c.screen, x, y);
    IsWrap(t, c, dx, dy, x, y, ScrolledTo(t, c.screen, x, y));
  }

  /** For every mode and every distance, the cursor goes where it should and the right lines are scrolled. */
  lemma CursorLands(t: Settings, c: Console, mode: CursorMovement, dx: int, dy: int)
    requires Valid(t, c)
    ensures Moves(t, c, mode, dx, dy, CursorMoved(t, c, mode, dx, dy))
  {
    match mode
    case Clamp =>
      ClampedIsNearest(c.x + dx, t.dims.columns);
      ClampedIsNearest(c.y + dy, t.dims.lines);
    case AutoScroll => Scrolls(t, c, dx, dy);
    case AutoWrap => Wraps(t, c, dx, dy);
  }

  // ---------------------------------------------------------------------------------------
  // Line feed and reverse index

  /** Every line shows the one that was below it, and the last one is blank. */
  ghost predicate UpByOne(t: Settings, s: Screen, r: Screen)
    requires t.dims.Ok() && FontOk(t.font) && ScreenOk(s, t.dims) && ScreenOk(r, t.dims) && |r| == |s|
  {
    forall p, cy, i, cx :: 0 <= p < |s| && 0 <= cy < t.dims.lines && 0 <= i < 8 && 0 <= cx < t.dims.columns ==>
      CellAt(r, t.dims, p, cy, i, cx)
      == if cy + 1 < t.dims.lines then CellAt(s, t.dims, p, cy + 1, i, cx) else CellByte(t.font, t.style, SPACE, p, i)
  }

  lemma ShownUpByOne(t: Settings, s: Screen, r: Screen)
    requires t.dims.Ok() && FontOk(t.font) && ScreenOk(s, t.dims) && ScreenOk(r, t.dims) && |r| == |s|
    requires ShowsScrolled(s, r, t.dims, t.font, t.style, 0, 1)
    ensures UpByOne(t, s, r)
  {
    forall p, cy, i, cx | 0 <= p < |s| && 0 <= cy < t.dims.lines && 0 <= i < 8 && 0 <= cx < t.dims.columns
      ensures CellAt(r, t.dims, p, cy, i, cx)
           == if cy + 1 < t.dims.lines then CellAt(s, t.dims, p, cy + 1, i, cx)
             else CellByte(t.font, t.style, SPACE, p, i)
    {
      assert CellAt(r, t.dims, p, cy, i, cx) == ShownAt(s, t.dims, t.font, t.style, 0, 1, p, cy, i, cx);
    }
  }

  /** A line feed goes to the start of the next line, and scrolls up by one line at the bottom of the screen. */
  ghost predicate FeedsLine(t: Settings, c: Console, r: Console)
    requires Valid(t, c) && Valid(t, r) && |r.screen| == |c.screen|
  {
    && r.x == 0
    && if c.y + 1 < t.dims.lines then r.y == c.y + 1 && r.screen == c.screen
       else r.y == c.y && UpByOne(t, c.screen, r.screen)
  }

  lemma LineFeed(t: Settings, c: Console, r: Console)
    requires Valid(t, c) && Valid(t, r) && |r.screen| == |c.screen| && Moves(t, c, AutoScroll, -c.x, 1, r)
    ensures FeedsLine(t, c, r)
  {
    NearestIs(0, t.dims.columns, r.x);
    NearestIs(c.y + 1, t.dims.lines, r.y);
    if c.y + 1 == t.dims.lines { ShownUpByOne(t, c.screen, r.screen); }
  }

  lemma NearestIs(v: int, n: int, r: int)
    requires Nearest(v, n, r)
    ensures r == if v < 0 then 0 else if v >= n then n - 1 else v
  {
    if 0 <= v < n {
      assert Distance(v, r) <= Distance(v, v);
    } else {
      assert Distance(v, r) <= Distance(v, 0) && Distance(v, r) <= Distance(v, n - 1);
    }
  }

  /**
   A reverse index goes up one line in its column. At the top of the screen it scrolls down by one line: the first
   line is blank then, and every other line shows what the first one did.
   */
  ghost predicate IndexesBack(t: Settings, c: Console, r: Console)
    requires Valid(t, c) && Valid(t, r) && |r.screen| == |c.screen|
  {
    && r.x == c.x
    && if c.y > 0 then r.y == c.y - 1 && r.screen == c.screen
       else r.y == 0 && FirstLineRepeats(t, c.screen, r.screen)
  }

  ghost predicate FirstLineRepeats(t: Settings, s: Screen, r: Screen)
    requires t.dims.Ok() && FontOk(t.font) && ScreenOk(s, t.dims) && ScreenOk(r, t.dims) && |r| == |s|
  {
    forall p, cy, i, cx :: 0 <= p < |s| && 0 <= cy < t.dims.lines && 0 <= i < 8 && 0 <= cx < t.dims.columns ==>
      CellAt(r, t.dims, p, cy, i, cx)
      == if cy == 0 then CellByte(t.font, t.style, SPACE, p, i) else CellAt(s, t.dims, p, 0, i, cx)
  }

  lemma ShownRepeats(t: Settings, s: Screen, r: Screen)
    requires t.dims.Ok() && FontOk(t.font) && ScreenOk(s, t.dims) && ScreenOk(r, t.dims) && |r| == |s|
    requires ShowsScrolled(s, r, t.dims, t.font, t.style, 0, -1)
    ensures FirstLineRepeats(t, s, r)
  {
    forall p, cy, i, cx | 0 <= p < |s| && 0 <= cy < t.dims.lines && 0 <= i < 8 && 0 <= cx < t.dims.columns
      ensures CellAt(r, t.dims, p, cy, i, cx)
           == if cy == 0 then CellByte(t.font, t.style, SPACE, p, i) else CellAt(s, t.dims, p, 0, i, cx)
    {
      assert CellAt(r, t.dims, p, cy, i, cx) == ShownAt(s, t.dims, t.font, t.style, 0, -1, p, cy, i, cx);
      OriginDown(t.dims, 1, cy, cx);
      assert cy % 1 == 0;
    }
  }

  lemma ReverseIndex(t: Settings, c: Console, r: Console)
    requires Valid(t, c) && Valid(t, r) && |r.screen| == |c.screen| && Moves(t, c, AutoScroll, 0, -1, r)
    ensures IndexesBack(t, c, r)
  {
    NearestIs(c.x, t.dims.columns, r.x);
    NearestIs(c.y - 1, t.dims.lines, r.y);
    if c.y == 0 { ShownRepeats(t, c.screen, r.screen); }
  }

  // ---------------------------------------------------------------------------------------
  // Printing a character

  /** The cell shows what it did; in insertion mode, behind the cursor, what the cell to its left did. */
  ghost predicate StaysOrShifts(t: Settings, c: Console, r: Screen, p: nat, cy: nat, i: nat, cx: nat)
    requires Valid(t, c) && ScreenOk(r, t.dims) && |r| == |c.screen|
    requires p < |r| && cy < t.dims.lines && i < 8 && cx < t.dims.columns
  {
    CellAt(r, t.dims, p, cy, i, cx)
    == CellAt(c.screen, t.dims, p, cy, i, if t.isInsertionMode && cy == c.y && cx > c.x then cx - 1 else cx)
  }

  /** The character is at the cursor, and all other cells stay or shift. */
  ghost predicate Places(t: Settings, c: Console, ch: Byte, r: Screen)
    requires Valid(t, c) && HasGlyph(ch) && ScreenOk(r, t.dims) && |r| == |c.screen|
  {
    && Shows(t, r, c.y, c.x, Drawn(t, ch))
    && forall p, cy, i, cx :: 0 <= p < |r| && 0 <= cy < t.dims.lines && 0 <= i < 8 && 0 <= cx < t.dims.columns ==>
         (cy == c.y && cx == c.x) || StaysOrShifts(t, c, r, p, cy, i, cx)
  }

  lemma Shifted(t: Settings, c: Console, s: Screen, p: nat, cy: nat, i: nat, cx: nat)
    requires Valid(t, c) && s == CopiedRect(c.screen, t.dims, Rect(c.x, c.y, t.dims.columns - 1, c.y + 1), c.x + 1, c.y)
    requires p < |s| && cy < t.dims.lines && i < 8 && cx < t.dims.columns
    ensures CellAt(s, t.dims, p, cy, i, cx)
         == CellAt(c.screen, t.dims, p, cy, i, if cy == c.y && cx > c.x then cx - 1 else cx)
  {
    CopiedRectAt(c.screen, t.dims, Rect(c.x, c.y, t.dims.columns - 1, c.y + 1), c.x + 1, c.y, p, cy, i, cx);
  }

  lemma DrawnElsewhere(t: Settings, s: Screen, ch: Byte, xc: nat, yc: nat, p: nat, cy: nat, i: nat, cx: nat)
    requires t.dims.Ok() && FontOk(t.font) && ScreenOk(s, t.dims) && HasGlyph(ch)
    requires xc < t.dims.columns && yc < t.dims.lines && (cx != xc || cy != yc)
    requires p < |s| && cy < t.dims.lines && i < 8 && cx < t.dims.columns
    ensures CellAt(DrawnChar(t, s, ch, xc, yc), t.dims, p, cy, i, cx) == CellAt(s, t.dims, p, cy, i, cx)
  {
  }

  lemma PlacedElsewhere(t: Settings, c: Console, ch: Byte, r: Screen, p: nat, cy: nat, i: nat, cx: nat)
    requires Valid(t, c) && HasGlyph(ch) && r == DrawnChar(t, RoomMade(t, c), ch, c.x, c.y)
    requires p < |r| && cy < t.dims.lines && i < 8 && cx < t.dims.columns && (cy != c.y || cx != c.x)
    ensures StaysOrShifts(t, c, r, p, cy, i, cx)
  {
    DrawnElsewhere(t, RoomMade(t, c), ch, c.x, c.y, p, cy, i, cx);
    if t.isInsertionMode { Shifted(t, c, RoomMade(t, c), p, cy, i, cx); }
  }

  /**
   The character is drawn at the cursor. In insertion mode the rest of the line moves right by one column and loses
   its last character; otherwise nothing else changes.
   */
  lemma CharIsPlaced(t: Settings, c: Console, ch: Byte, r: Screen)
    requires Valid(t, c) && HasGlyph(ch) && r == CharPlaced(t, c, ch)
    ensures Places(t, c, ch, r)
  {
    assert r == DrawnChar(t, RoomMade(t, c), ch, c.x, c.y);
    CharDrawnHere(t, RoomMade(t, c), ch, c.x, c.y);
    forall p, cy, i, cx | 0 <= p < |r| && 0 <= cy < t.dims.lines && 0 <= i < 8 && 0 <= cx < t.dims.columns
      ensures (cy == c.y && cx == c.x) || StaysOrShifts(t, c, r, p, cy, i, cx)
    {
      if cy != c.y || cx != c.x { PlacedElsewhere(t, c, ch, r, p, cy, i, cx); }
    }
  }

  /**
   A printed character is placed, and the cursor moves one column to the right. In the last column it stays there
   without auto-wrap, and goes to the start of the next line with it.
   */
  ghost predicate Prints(t: Settings, c: Console, ch: Byte, r: Console)
    requires Valid(t, c) && Valid(t, r) && |r.screen| == |c.screen| && HasGlyph(ch)
  {
    if c.x + 1 < t.dims.columns then r.x == c.x + 1 && r.y == c.y && Places(t, c, ch, r.screen)
    else if !t.isAutoWrapEnabled then r.x == c.x && r.y == c.y && Places(t, c, ch, r.screen)
    else exists s :: PlacedThenFed(t, c, ch, s, r)
  }

  ghost predicate PlacedThenFed(t: Settings, c: Console, ch: Byte, s: Screen, r: Console)
    requires Valid(t, c) && Valid(t, r) && |r.screen| == |c.screen| && HasGlyph(ch)
  {
    ScreenOk(s, t.dims) && |s| == |c.screen| && Places(t, c, ch, s) && FeedsLine(t, c.(screen := s), r)
  }

  lemma WrapFeeds(t: Settings, c: Console, r: Console)
    requires Valid(t, c) && Valid(t, r) && |r.screen| == |c.screen| && c.x + 1 == t.dims.columns
    requires Moves(t, c, AutoWrap, 1, 0, r)
    ensures FeedsLine(t, c, r)
  {
    NearestIs(c.y + 1, t.dims.lines, r.y);
    if c.y + 1 == t.dims.lines { ShownUpByOne(t, c.screen, r.screen); }
  }

  lemma MovesRight(t: Settings, c: Console, mode: CursorMovement, r: Console)
    requires Valid(t, c) && Valid(t, r) && |r.screen| == |c.screen| && mode != AutoScroll
    requires mode == AutoWrap ==> c.x + 1 < t.dims.columns
    requires Moves(t, c, mode, 1, 0, r)
    ensures r.screen == c.screen && r.y == c.y && r.x == if c.x + 1 < t.dims.columns then c.x + 1 else c.x
  {
    NearestIs(c.y, t.dims.lines, r.y);
    if mode == Clamp { NearestIs(c.x + 1, t.dims.columns, r.x); }
  }

  lemma BytePrints(t: Settings, c: Console, ch: Byte)
    requires Valid(t, c) && HasGlyph(ch)
    ensures Prints(t, c, ch, BytePrinted(t, c, ch))
  {
    var s, mode := CharPlaced(t, c, ch), if t.isAutoWrapEnabled then AutoWrap else Clamp;
    var p, r := c.(screen := s), BytePrinted(t, c, ch);
    CharIsPlaced(t, c, ch, s);
    CursorLands(t, p, mode, 1, 0);
    if t.isAutoWrapEnabled && c.x + 1 == t.dims.columns {
      WrapFeeds(t, p, r);
      assert PlacedThenFed(t, c, ch, s, r);
    } else {
      MovesRight(t, p, mode, r);
    }
  }
}
