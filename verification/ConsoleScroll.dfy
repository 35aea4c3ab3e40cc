/** What scrolling shows, in every direction. */
module ConsoleScroll {
  import opened Arithmetic
  import opened Memory
  import opened ConsolePlane
  import opened ConsoleScreen
  import opened ConsoleRects

  /** The cell shows one that was visible before, `dX` columns to the right and `dY` lines further down. */
  predicate Kept(d: Dims, dX: int, dY: int, cy: int, cx: int) {
    0 <= cy + dY < d.lines && 0 <= cx + dX < d.columns
  }

  // ---------------------------------------------------------------------------------------
  // Moving

  /** Rows that are copied downwards, one after the other: each shows the row above it as it is by then. */
  lemma PlaneCopiedDown(p: Rows, rowBytes: nat, c: Copy, n: nat, y: nat, x: nat)
    requires Wide(p, rowBytes) && CopyFits(c, rowBytes, |p|) && c.dstTop + n <= |p| && c.up < 0 && y < |p|
    requires x < rowBytes
    ensures var r := RowsCopied(p, rowBytes, c, n);
            r[y][x] == if Receives(c, n, y) && c.dstLeft <= x < c.dstLeft + c.w
                       then r[y + c.up][x - c.dstLeft + c.srcLeft] else p[y][x]
  {
    if Receives(c, n, y) {
      DownwardRow(p, rowBytes, c, n, y);
    } else {
      Untouched(p, rowBytes, c, n, y);
    }
  }

  lemma CopiedDownAt(s: Screen, d: Dims, src: Rect, x: int, y: int, p: nat, cy: nat, i: nat, cx: nat, r: Screen)
    requires d.Ok() && ScreenOk(s, d) && InBounds(d, src) && 0 <= x <= d.columns && 0 <= y <= d.lines && y > src.top
    requires p < |s| && 8 * cy + i < d.pixelRows && i < 8 && cx < d.rowBytes && r == CopiedRect(s, d, src, x, y)
    ensures CellAt(r, d, p, cy, i, cx)
         == if IsDestination(d, src, x, y, cx, cy) then CellAt(r, d, p, cy - y + src.top, i, cx - x + src.left)
            else CellAt(s, d, p, cy, i, cx)
  {
    var c, n := CopyOf(d, src, x, y), CopyBottom(d, src, y) - 8 * y;
    CopiesCell(d, src, x, y, cy, i, cx);
    PlaneCopiedDown(s[p], d.rowBytes, c, n, 8 * cy + i, cx);
  }

  /** The rectangle that stays visible, and where it goes. */
  function Visible(d: Dims, dX: int, dY: int): Rect {
    Rect(Max(dX, 0), Max(dY, 0), d.columns + Min(dX, 0), d.lines + Min(dY, 0))
  }

  lemma VisibleMovedIs(s: Screen, d: Dims, dX: int, dY: int)
    requires d.Ok() && ScreenOk(s, d) && Abs(dX) < d.columns && Abs(dY) < d.lines && (dX != 0 || dY != 0)
    ensures InBounds(d, Visible(d, dX, dY))
    ensures VisibleMoved(s, d, dX, dY) == CopiedRect(s, d, Visible(d, dX, dY), Max(-dX, 0), Max(-dY, 0))
  {
  }

  lemma KeptIsDestination(d: Dims, dX: int, dY: int, cy: nat, cx: nat)
    requires d.Ok() && Abs(dX) < d.columns && Abs(dY) < d.lines && cy < d.lines && cx < d.columns
    ensures IsDestination(d, Visible(d, dX, dY), Max(-dX, 0), Max(-dY, 0), cx, cy) <==> Kept(d, dX, dY, cy, cx)
  {
  }

  lemma MovedUpCell(s: Screen, d: Dims, dX: int, dY: int, p: nat, cy: nat, i: nat, cx: nat)
    requires d.Ok() && ScreenOk(s, d) && Abs(dX) < d.columns && 0 <= dY < d.lines
    requires p < |s| && cy < d.lines && i < 8 && cx < d.columns
    ensures CellAt(VisibleMoved(s, d, dX, dY), d, p, cy, i, cx)
         == if Kept(d, dX, dY, cy, cx) then CellAt(s, d, p, cy + dY, i, cx + dX) else CellAt(s, d, p, cy, i, cx)
  {
    if dX != 0 || dY != 0 {
      VisibleMovedIs(s, d, dX, dY);
      KeptIsDestination(d, dX, dY, cy, cx);
      CopiedRectAt(s, d, Visible(d, dX, dY), Max(-dX, 0), 0, p, cy, i, cx);
    }
  }

  lemma MovedDownCell(s: Screen, d: Dims, dX: int, dY: int, p: nat, cy: nat, i: nat, cx: nat, r: Screen)
    requires d.Ok() && ScreenOk(s, d) && Abs(dX) < d.columns && dY < 0 && Abs(dY) < d.lines
    requires r == VisibleMoved(s, d, dX, dY)
    requires p < |s| && cy < d.lines && i < 8 && cx < d.columns
    ensures CellAt(r, d, p, cy, i, cx)
         == if Kept(d, dX, dY, cy, cx) then CellAt(r, d, p, cy + dY, i, cx + dX) else CellAt(s, d, p, cy, i, cx)
  {
    VisibleMovedIs(s, d, dX, dY);
    KeptIsDestination(d, dX, dY, cy, cx);
    CopiedDownAt(s, d, Visible(d, dX, dY), Max(-dX, 0), -dY, p, cy, i, cx, r);
  }

  /** Where the contents of a cell come from when rows are moved down, one after the other from the top. */
  function Origin(d: Dims, dX: int, dY: int, cy: nat, cx: nat): (o: (nat, nat))
    requires dY < 0 && cy < d.lines && cx < d.columns
    ensures o.0 < d.lines && o.1 < d.columns
    decreases cy
  {
    if Kept(d, dX, dY, cy, cx) then Origin(d, dX, dY, cy + dY, cx + dX) else (cy, cx)
  }

  lemma {:induction false} MovedFromOrigin(s: Screen, d: Dims, dX: int, dY: int, p: nat, cy: nat, i: nat, cx: nat,
                                           r: Screen)
    requires d.Ok() && ScreenOk(s, d) && Abs(dX) < d.columns && dY < 0 && Abs(dY) < d.lines
    requires r == VisibleMoved(s, d, dX, dY)
    requires p < |s| && cy < d.lines && i < 8 && cx < d.columns
    ensures CellAt(r, d, p, cy, i, cx) ==
            CellAt(s, d, p, Origin(d, dX, dY, cy, cx).0, i, Origin(d, dX, dY, cy, cx).1)
    decreases cy
  {
    MovedDownCell(s, d, dX, dY, p, cy, i, cx, r);
    if Kept(d, dX, dY, cy, cx) { MovedFromOrigin(s, d, dX, dY, p, cy + dY, i, cx + dX, r); }
  }

  // ---------------------------------------------------------------------------------------
  // Clearing

  lemma ClearedCell(s: Screen, d: Dims, f: Font, style: Style, dX: int, dY: int, p: nat, cy: nat, i: nat, cx: nat)
    requires d.Ok() && ScreenOk(s, d) && FontOk(f) && Abs(dX) < d.columns && Abs(dY) < d.lines
    requires p < |s| && cy < d.lines && i < 8 && cx < d.columns
    ensures CellAt(ColumnsCleared(LinesCleared(s, d, f, style, dY), d, f, style, dX, dY), d, p, cy, i, cx)
         == if Kept(d, dX, dY, cy, cx) then CellAt(s, d, p, cy, i, cx) else CellByte(f, style, SPACE, p, i)
  {
    var n, m := Abs(dY), Abs(dX);
    var lines := Rect(0, if dY < 0 then 0 else d.lines - n, d.columns, if dY < 0 then n else d.lines);
    var columns := Rect(if dX < 0 then 0 else d.columns - m, if dY < 0 then n else 0,
                        if dX < 0 then m else d.columns, if dY < 0 then d.lines else d.lines - n);
    FilledRectAt(s, d, f, style, lines, SPACE, p, cy, i, cx);
    FilledRectAt(LinesCleared(s, d, f, style, dY), d, f, style, columns, SPACE, p, cy, i, cx);
  }

  // ---------------------------------------------------------------------------------------
  // Scrolling

  /** What a cell shows after scrolling. */
  function ShownAt(s: Screen, d: Dims, f: Font, style: Style, dX: int, dY: int, p: nat, cy: nat, i: nat, cx: nat): Byte
    requires d.Ok() && ScreenOk(s, d) && FontOk(f) && p < |s| && cy < d.lines && i < 8 && cx < d.columns
  {
    if !Kept(d, dX, dY, cy, cx) then CellByte(f, style, SPACE, p, i)
    else if dY >= 0 then CellAt(s, d, p, cy + dY, i, cx + dX)
    else var o := Origin(d, dX, dY, cy, cx); CellAt(s, d, p, o.0, i, o.1)
  }

  /** What scrolling in any direction and by any distance shows, cell by cell. */
  lemma ScrollsBy(s: Screen, d: Dims, f: Font, style: Style, dX: int, dY: int, p: nat, cy: nat, i: nat, cx: nat)
    requires d.Ok() && ScreenOk(s, d) && FontOk(f) && p < |s| && cy < d.lines && i < 8 && cx < d.columns
    ensures CellAt(ScrolledBy(s, d, f, style, dX, dY), d, p, cy, i, cx) == ShownAt(s, d, f, style, dX, dY, p, cy, i, cx)
  {
    if Abs(dX) < d.columns && Abs(dY) < d.lines {
      var r := VisibleMoved(s, d, dX, dY);
      ClearedCell(r, d, f, style, dX, dY, p, cy, i, cx);
      if dY >= 0 {
        MovedUpCell(s, d, dX, dY, p, cy, i, cx);
      } else {
        MovedFromOrigin(s, d, dX, dY, p, cy, i, cx, r);
      }
    } else {
      FilledRectAt(s, d, f, style, Bounds(d), SPACE, p, cy, i, cx);
    }
  }

  ghost predicate ShowsScrolled(s: Screen, r: Screen, d: Dims, f: Font, style: Style, dX: int, dY: int)
    requires d.Ok() && ScreenOk(s, d) && ScreenOk(r, d) && FontOk(f) && |r| == |s|
  {
    forall p, cy, i, cx :: 0 <= p < |s| && 0 <= cy < d.lines && 0 <= i < 8 && 0 <= cx < d.columns
      ==> CellAt(r, d, p, cy, i, cx) == ShownAt(s, d, f, style, dX, dY, p, cy, i, cx)
  }

  lemma ScrollsEverywhere(s: Screen, d: Dims, f: Font, style: Style, dX: int, dY: int, r: Screen)
    requires d.Ok() && ScreenOk(s, d) && FontOk(f) && r == ScrolledBy(s, d, f, style, dX, dY)
    ensures ShowsScrolled(s, r, d, f, style, dX, dY)
  {
    forall p, cy, i, cx | 0 <= p < |s| && 0 <= cy < d.lines && 0 <= i < 8 && 0 <= cx < d.columns
      ensures CellAt(r, d, p, cy, i, cx) == ShownAt(s, d, f, style, dX, dY, p, cy, i, cx)
    {
      ScrollsBy(s, d, f, style, dX, dY, p, cy, i, cx);
    }
  }

  // ---------------------------------------------------------------------------------------
  // Exactly when all cells move at once

  /** Every cell shows the one it is meant to show, blank cells come in. */
  function MeantAt(s: Screen, d: Dims, f: Font, style: Style, dX: int, dY: int, p: nat, cy: nat, i: nat, cx: nat): Byte
    requires d.Ok() && ScreenOk(s, d) && FontOk(f) && p < |s| && cy < d.lines && i < 8 && cx < d.columns
  {
    if Kept(d, dX, dY, cy, cx) then CellAt(s, d, p, cy + dY, i, cx + dX) else CellByte(f, style, SPACE, p, i)
  }

  ghost predicate MovedAtOnce(s: Screen, r: Screen, d: Dims, f: Font, style: Style, dX: int, dY: int)
    requires d.Ok() && ScreenOk(s, d) && ScreenOk(r, d) && FontOk(f) && |r| == |s|
  {
    forall p, cy, i, cx :: 0 <= p < |s| && 0 <= cy < d.lines && 0 <= i < 8 && 0 <= cx < d.columns
      ==> CellAt(r, d, p, cy, i, cx) == MeantAt(s, d, f, style, dX, dY, p, cy, i, cx)
  }

  /** A row that was copied is not copied on, within the screen. */
  predicate NoOverlap(d: Dims, dX: int, dY: int) {
    dY >= 0 || -2 * dY >= d.lines || 2 * Abs(dX) >= d.columns
  }

  lemma OriginWithoutOverlap(d: Dims, dX: int, dY: int, cy: nat, cx: nat)
    requires dY < 0 && cy < d.lines && cx < d.columns && Kept(d, dX, dY, cy, cx) && NoOverlap(d, dX, dY)
    ensures Origin(d, dX, dY, cy, cx) == (cy + dY, cx + dX)
  {
  }

  /** The origin of the first line that shows a row that was copied twice. */
  lemma OriginWithOverlap(d: Dims, dX: int, dY: int, cx: nat)
    requires d.Ok() && !NoOverlap(d, dX, dY) && cx == (if dX >= 0 then 0 else -2 * dX)
    ensures cx < d.columns && Kept(d, dX, dY, -2 * dY, cx) && Origin(d, dX, dY, -2 * dY, cx) == (0, cx + 2 * dX)
  {
    assert Kept(d, dX, dY, -dY, cx + dX) && !Kept(d, dX, dY, 0, cx + 2 * dX);
    assert Origin(d, dX, dY, 0, cx + 2 * dX) == (0, cx + 2 * dX);
    assert Origin(d, dX, dY, -dY, cx + dX) == (0, cx + 2 * dX);
  }

  function Tone(n: nat, y: nat): Byte {
    if y < 8 * n then 0 else 1
  }

  function ToneRow(d: Dims, n: nat, y: nat): (row: Bytes)
    ensures |row| == d.rowBytes && forall x :: 0 <= x < d.rowBytes ==> row[x] == Tone(n, y)
  {
    Repeat(Tone(n, y), d.rowBytes)
  }

  /** One plane whose first `n` lines differ from the others. */
  function TwoTone(d: Dims, n: nat): (s: Screen)
    ensures ScreenOk(s, d) && |s| == 1
    ensures forall y :: 0 <= y < d.pixelRows ==> s[0][y] == ToneRow(d, n, y)
  {
    [seq(d.pixelRows, y requires 0 <= y < d.pixelRows => ToneRow(d, n, y))]
  }

  lemma TwoToneBreaks(d: Dims, f: Font, style: Style, dX: int, dY: int)
    requires d.Ok() && FontOk(f) && !NoOverlap(d, dX, dY)
    ensures var s := TwoTone(d, -dY); !MovedAtOnce(s, ScrolledBy(s, d, f, style, dX, dY), d, f, style, dX, dY)
  {
    var s, cx: nat := TwoTone(d, -dY), if dX >= 0 then 0 else -2 * dX;
    OriginWithOverlap(d, dX, dY, cx);
    ScrollsBy(s, d, f, style, dX, dY, 0, -2 * dY, 0, cx);
    assert CellAt(s, d, 0, 0, 0, cx + 2 * dX) == 0 && CellAt(s, d, 0, -dY, 0, cx + dX) == 1;
  }

  lemma AtOnceWithoutOverlap(s: Screen, d: Dims, f: Font, style: Style, dX: int, dY: int, r: Screen)
    requires d.Ok() && ScreenOk(s, d) && FontOk(f) && NoOverlap(d, dX, dY) && r == ScrolledBy(s, d, f, style, dX, dY)
    ensures MovedAtOnce(s, r, d, f, style, dX, dY)
  {
    forall p, cy, i, cx | 0 <= p < |s| && 0 <= cy < d.lines && 0 <= i < 8 && 0 <= cx < d.columns
      ensures CellAt(r, d, p, cy, i, cx) == MeantAt(s, d, f, style, dX, dY, p, cy, i, cx)
    {
      ScrollsBy(s, d, f, style, dX, dY, p, cy, i, cx);
      if dY < 0 && Kept(d, dX, dY, cy, cx) { OriginWithoutOverlap(d, dX, dY, cy, cx); }
    }
  }

  ghost predicate AlwaysAtOnce(d: Dims, f: Font, style: Style, dX: int, dY: int)
    requires d.Ok() && FontOk(f)
  {
    forall s :: ScreenOk(s, d) ==> MovedAtOnce(s, ScrolledBy(s, d, f, style, dX, dY), d, f, style, dX, dY)
  }

  /**
   Scrolling moves all cells of every screen at once if and only if it does not move them down, or by half of the
   lines or columns at least.
   */
  lemma ScrollsAtOnceExactly(d: Dims, f: Font, style: Style, dX: int, dY: int)
    requires d.Ok() && FontOk(f)
    ensures AlwaysAtOnce(d, f, style, dX, dY) <==> NoOverlap(d, dX, dY)
  {
    if NoOverlap(d, dX, dY) {
      forall s | ScreenOk(s, d) ensures MovedAtOnce(s, ScrolledBy(s, d, f, style, dX, dY), d, f, style, dX, dY) {
        AtOnceWithoutOverlap(s, d, f, style, dX, dY, ScrolledBy(s, d, f, style, dX, dY));
      }
    } else {
      TwoToneBreaks(d, f, style, dX, dY);
    }
  }

  lemma {:induction false} OriginDown(d: Dims, n: nat, cy: nat, cx: nat)
    requires n > 0 && cy < d.lines && cx < d.columns
    ensures cy % n <= cy && Origin(d, 0, 0 - n, cy, cx) == (cy % n, cx)
    decreases cy
  {
    if cy >= n {
      OriginDown(d, n, cy - n, cx);
      LessOnce(cy, n);
    } else {
      Remainder(cy, n, 0, cy);
    }
  }

  lemma LessOnce(a: nat, n: nat)
    requires 0 < n <= a
    ensures (a - n) % n == a % n
  {
    AddMultiple(a - n, n, 1);
  }

  /** Scrolling down by `n` lines repeats the first `n` lines all over the screen. */
  lemma ScrollsDown(s: Screen, d: Dims, f: Font, style: Style, n: nat, p: nat, cy: nat, i: nat, cx: nat)
    requires d.Ok() && ScreenOk(s, d) && FontOk(f) && n > 0 && p < |s| && cy < d.lines && i < 8 && cx < d.columns
    ensures cy % n <= cy
    ensures CellAt(ScrolledBy(s, d, f, style, 0, 0 - n), d, p, cy, i, cx)
         == if cy < n then CellByte(f, style, SPACE, p, i) else CellAt(s, d, p, cy % n, i, cx)
  {
    ScrollsBy(s, d, f, style, 0, 0 - n, p, cy, i, cx);
    OriginDown(d, n, cy, cx);
    ShownFrom(s, d, f, style, n, p, cy, i, cx, cy % n);
  }

  lemma ShownFrom(s: Screen, d: Dims, f: Font, style: Style, n: nat, p: nat, cy: nat, i: nat, cx: nat, from: nat)
    requires d.Ok() && ScreenOk(s, d) && FontOk(f) && n > 0 && p < |s| && cy < d.lines && i < 8 && cx < d.columns
    requires from < d.lines && Origin(d, 0, 0 - n, cy, cx) == (from, cx)
    ensures ShownAt(s, d, f, style, 0, 0 - n, p, cy, i, cx)
         == if cy < n then CellByte(f, style, SPACE, p, i) else CellAt(s, d, p, from, i, cx)
  {
    assert Kept(d, 0, 0 - n, cy, cx) <==> cy >= n;
  }
}
