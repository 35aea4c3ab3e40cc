/**
 One bit plane of a framebuffer. In memory it is an array of rows that follow each other, eight pixels
 per byte; as a value it is a sequence of rows.
 */
module ConsolePlane {

  import opened Arithmetic
  import opened Memory

  type Rows = seq<Bytes>

  ghost predicate Wide(p: Rows, rowBytes: nat) {
    forall y :: 0 <= y < |p| ==> |p[y]| == rowBytes
  }

  // ---------------------------------------------------------------------------------------
  // Memory

  function RowOf(s: Bytes, rowBytes: nat, n: nat, y: nat): (r: Bytes)
    requires y < n && |s| == Start(rowBytes, n)
    ensures |r| == rowBytes
  {
    StartsGrow(rowBytes, y, n);
    s[Start(rowBytes, y)..Start(rowBytes, y) + rowBytes]
  }

  function RowsOf(s: Bytes, rowBytes: nat, n: nat): (p: Rows)
    requires |s| == Start(rowBytes, n)
    ensures |p| == n && Wide(p, rowBytes)
  {
    seq(n, y requires 0 <= y < n => RowOf(s, rowBytes, n, y))
  }

  lemma PatchInside(s: Bytes, from: nat, to: nat, x: nat, b: Bytes)
    requires from <= to <= |s| && x + |b| <= to - from
    ensures Patch(s, from + x, b)[from..to] == Patch(s[from..to], x, b)
  {
  }

  lemma PatchOutside(s: Bytes, from: nat, to: nat, at: nat, b: Bytes)
    requires from <= to <= |s| && at + |b| <= |s| && (at + |b| <= from || to <= at)
    ensures Patch(s, at, b)[from..to] == s[from..to]
  {
  }

  lemma PatchedRow(s: Bytes, rowBytes: nat, n: nat, y: nat, x: nat, b: Bytes)
    requires |s| == Start(rowBytes, n) && y < n && x + |b| <= rowBytes && Start(rowBytes, y) + x + |b| <= |s|
    ensures RowOf(Patch(s, Start(rowBytes, y) + x, b), rowBytes, n, y) == Patch(RowOf(s, rowBytes, n, y), x, b)
  {
    StartsGrow(rowBytes, y, n);
    PatchInside(s, Start(rowBytes, y), Start(rowBytes, y) + rowBytes, x, b);
  }

  lemma OtherRow(s: Bytes, rowBytes: nat, n: nat, y: nat, x: nat, b: Bytes, z: nat)
    requires |s| == Start(rowBytes, n) && y < n && x + |b| <= rowBytes && z < n && z != y
    requires Start(rowBytes, y) + x + |b| <= |s|
    ensures RowOf(Patch(s, Start(rowBytes, y) + x, b), rowBytes, n, z) == RowOf(s, rowBytes, n, z)
  {
    StartsGrow(rowBytes, z, n);
    if z < y { StartsGrow(rowBytes, z, y); } else { StartsGrow(rowBytes, y, z); }
    PatchOutside(s, Start(rowBytes, z), Start(rowBytes, z) + rowBytes, Start(rowBytes, y) + x, b);
  }

  /** A write inside of a row changes that row only. */
  lemma PatchedRows(s: Bytes, rowBytes: nat, n: nat, y: nat, x: nat, b: Bytes)
    requires |s| == Start(rowBytes, n) && y < n && x + |b| <= rowBytes
    ensures Start(rowBytes, y) + x + |b| <= |s|
    ensures RowsOf(Patch(s, Start(rowBytes, y) + x, b), rowBytes, n)
         == RowsOf(s, rowBytes, n)[y := Patch(RowsOf(s, rowBytes, n)[y], x, b)]
  {
    StartsGrow(rowBytes, y, n);
    var after := RowsOf(Patch(s, Start(rowBytes, y) + x, b), rowBytes, n);
    forall z | 0 <= z < n ensures after[z] == RowsOf(s, rowBytes, n)[y := Patch(RowsOf(s, rowBytes, n)[y], x, b)][z] {
      if z == y { PatchedRow(s, rowBytes, n, y, x, b); } else { OtherRow(s, rowBytes, n, y, x, b, z); }
    }
  }

  /** `memset`, `memmove` and plain stores: bytes written from byte `x` of row `y` on. */
  method Store(plane: array<Byte>, rowBytes: nat, n: nat, y: nat, at: nat, b: Bytes)
    requires plane.Length == Start(rowBytes, n) && y < n
    requires Start(rowBytes, y) <= at && at + |b| <= Start(rowBytes, y) + rowBytes
    modifies plane
    ensures var x := at - Start(rowBytes, y);
            RowsOf(plane[..], rowBytes, n)
                == old(RowsOf(plane[..], rowBytes, n))[y := Patch(old(RowsOf(plane[..], rowBytes, n))[y], x, b)]
  {
    PatchedRows(plane[..], rowBytes, n, y, at - Start(rowBytes, y), b);
    forall i | 0 <= i < |b| {
      plane[at + i] := b[i];
    }
    assert plane[..] == Patch(old(plane[..]), at, b);
  }

  // ---------------------------------------------------------------------------------------
  // Glyphs

  /** One row of a glyph in one plane. */
  function Blend(g: Byte, fgOne: bool, bgOne: bool): Byte {
    if fgOne && !bgOne then g else if !fgOne && bgOne then 255 - g else if fgOne then 255 else 0
  }

  function GlyphRow(p: Rows, xc: nat, top: nat, glyph: Bytes, fgOne: bool, bgOne: bool, n: nat, y: nat): (row: Bytes)
    requires n <= |glyph| && y < |p| && xc < |p[y]|
    ensures |row| == |p[y]|
  {
    if top <= y < top + n then p[y][xc := Blend(glyph[y - top], fgOne, bgOne)] else p[y]
  }

  /** The first `n` rows of a glyph drawn at byte `xc`, from pixel row `top` on. */
  function GlyphDrawn(p: Rows, xc: nat, top: nat, glyph: Bytes, fgOne: bool, bgOne: bool, n: nat): (r: Rows)
    requires n <= |glyph| && top + n <= |p| && forall y :: 0 <= y < |p| ==> xc < |p[y]|
    ensures |r| == |p|
  {
    seq(|p|, y requires 0 <= y < |p| => GlyphRow(p, xc, top, glyph, fgOne, bgOne, n, y))
  }

  lemma GlyphDrawnMore(p: Rows, xc: nat, top: nat, glyph: Bytes, fgOne: bool, bgOne: bool, n: nat)
    requires n < |glyph| && top + n < |p| && forall y :: 0 <= y < |p| ==> xc < |p[y]|
    ensures var r := GlyphDrawn(p, xc, top, glyph, fgOne, bgOne, n);
            GlyphDrawn(p, xc, top, glyph, fgOne, bgOne, n + 1)
                == r[top + n := Patch(r[top + n], xc, [Blend(glyph[n], fgOne, bgOne)])]
  {
    var row := p[top + n];
    assert row[xc := Blend(glyph[n], fgOne, bgOne)] == Patch(row, xc, [Blend(glyph[n], fgOne, bgOne)]);
  }

  method GlyphByte(g: Byte, fgOne: bool, bgOne: bool) returns (v: Byte)
    ensures v == Blend(g, fgOne, bgOne)
  {
    if fgOne && !bgOne {
      v := g;
    } else if !fgOne && bgOne {
      v := 255 - g;
    } else if fgOne && bgOne {
      v := 0xff;
    } else {
      v := 0x00;
    }
  }

  method DrawGlyphPlane(plane: array<Byte>, rowBytes: nat, n: nat, xc: nat, yc: nat, glyph: Bytes, fgOne: bool,
                        bgOne: bool)
    requires plane.Length == Start(rowBytes, n) && |glyph| == 8 && xc < rowBytes && 8 * yc + 8 <= n
    modifies plane
    ensures RowsOf(plane[..], rowBytes, n)
              == GlyphDrawn(old(RowsOf(plane[..], rowBytes, n)), xc, 8 * yc, glyph, fgOne, bgOne, |glyph|)
  {
    var top := 8 * yc;
    var dp := Start(rowBytes, top) + xc;
    for i := 0 to |glyph|
      invariant dp == Start(rowBytes, top + i) + xc
      invariant RowsOf(plane[..], rowBytes, n)
                  == GlyphDrawn(old(RowsOf(plane[..], rowBytes, n)), xc, top, glyph, fgOne, bgOne, i)
    {
      GlyphDrawnMore(old(RowsOf(plane[..], rowBytes, n)), xc, top, glyph, fgOne, bgOne, i);
      var v := GlyphByte(glyph[i], fgOne, bgOne);
      Store(plane, rowBytes, n, top + i, dp, [v]);
      dp := dp + rowBytes;
    }
  }

  // ---------------------------------------------------------------------------------------
  // Filling

  function FilledRow(p: Rows, top: nat, bottom: int, left: nat, w: nat, v: Byte, y: nat): (row: Bytes)
    requires y < |p| && left + w <= |p[y]|
    ensures |row| == |p[y]|
  {
    if top <= y < bottom then Patch(p[y], left, Repeat(v, w)) else p[y]
  }

  /** The pixel rows from `top` up to `bottom` filled with `v`, `w` bytes each. */
  function Filled(p: Rows, top: nat, bottom: int, left: nat, w: nat, v: Byte): (r: Rows)
    requires (bottom <= |p| || bottom <= top) && forall y :: 0 <= y < |p| ==> left + w <= |p[y]|
    ensures |r| == |p|
  {
    seq(|p|, y requires 0 <= y < |p| => FilledRow(p, top, bottom, left, w, v, y))
  }

  lemma FilledMore(p: Rows, top: nat, y: nat, left: nat, w: nat, v: Byte)
    requires top <= y < |p| && forall y :: 0 <= y < |p| ==> left + w <= |p[y]|
    ensures var r := Filled(p, top, y, left, w, v);
            Filled(p, top, y + 1, left, w, v) == r[y := Patch(r[y], left, Repeat(v, w))]
  {
  }

  method FillPlane(plane: array<Byte>, rowBytes: nat, n: nat, top: nat, bottom: int, left: nat, w: nat, v: Byte)
    requires plane.Length == Start(rowBytes, n) && left + w <= rowBytes && (bottom <= n || bottom <= top)
    modifies plane
    ensures RowsOf(plane[..], rowBytes, n) == Filled(old(RowsOf(plane[..], rowBytes, n)), top, bottom, left, w, v)
  {
    ghost var p := RowsOf(plane[..], rowBytes, n);
    var lp, y := Start(rowBytes, top) + left, top;
    NoneFilled(p, top, left, w, v);
    while y < bottom
      invariant top <= y && (y <= bottom || y == top) && lp == Start(rowBytes, y) + left
      invariant RowsOf(plane[..], rowBytes, n) == Filled(p, top, y, left, w, v)
    {
      FillRow(plane, rowBytes, n, p, top, y, lp, left, w, v);
      lp, y := lp + rowBytes, y + 1;
    }
    assert Filled(p, top, y, left, w, v) == Filled(p, top, bottom, left, w, v);
  }

  lemma NoneFilled(p: Rows, top: nat, left: nat, w: nat, v: Byte)
    requires forall y :: 0 <= y < |p| ==> left + w <= |p[y]|
    ensures Filled(p, top, top, left, w, v) == p
  {
  }

  method FillRow(plane: array<Byte>, rowBytes: nat, n: nat, ghost p: Rows, ghost top: nat, y: nat, lp: nat, left: nat,
                 w: nat, v: Byte)
    requires plane.Length == Start(rowBytes, n) && left + w <= rowBytes && top <= y < n
    requires lp == Start(rowBytes, y) + left
    requires |p| == n && Wide(p, rowBytes) && RowsOf(plane[..], rowBytes, n) == Filled(p, top, y, left, w, v)
    modifies plane
    ensures RowsOf(plane[..], rowBytes, n) == Filled(p, top, y + 1, left, w, v)
  {
    FilledMore(p, top, y, left, w, v);
    Store(plane, rowBytes, n, y, lp, Repeat(v, w));
  }

  // ---------------------------------------------------------------------------------------
  // Copying

  /** Pixel rows that are copied upwards by `up` (downwards if negative), one after the other, in place. */
  datatype Copy = Copy(dstTop: nat, dstLeft: nat, srcTop: nat, srcBottom: nat, srcLeft: nat, w: nat, up: int)

  ghost predicate CopyFits(c: Copy, rowBytes: nat, n: nat) {
    c.dstLeft + c.w <= rowBytes && c.srcLeft + c.w <= rowBytes && c.srcBottom <= n
  }

  predicate HasSource(c: Copy, y: nat) {
    c.srcTop <= y + c.up < c.srcBottom
  }

  function Source(p: Rows, rowBytes: nat, c: Copy, y: nat): (b: Bytes)
    requires Wide(p, rowBytes) && CopyFits(c, rowBytes, |p|) && y < |p|
    ensures |b| == c.w
  {
    p[y][c.srcLeft..c.srcLeft + c.w]
  }

  /** One row is copied; its bytes are read before any of them is written. */
  function RowCopied(p: Rows, rowBytes: nat, c: Copy, y: nat): (r: Rows)
    requires Wide(p, rowBytes) && CopyFits(c, rowBytes, |p|) && y < |p|
    ensures |r| == |p| && Wide(r, rowBytes)
  {
    if HasSource(c, y) then p[y := RowFrom(p, rowBytes, c, y)] else p
  }

  /** `n` rows are copied, from the top to the bottom. */
  function RowsCopied(p: Rows, rowBytes: nat, c: Copy, n: nat): (r: Rows)
    requires Wide(p, rowBytes) && CopyFits(c, rowBytes, |p|) && c.dstTop + n <= |p|
    ensures |r| == |p| && Wide(r, rowBytes)
  {
    if n == 0 then p else RowCopied(RowsCopied(p, rowBytes, c, n - 1), rowBytes, c, c.dstTop + n - 1)
  }

  function RowFrom(p: Rows, rowBytes: nat, c: Copy, y: nat): (row: Bytes)
    requires Wide(p, rowBytes) && CopyFits(c, rowBytes, |p|) && y < |p| && HasSource(c, y)
    ensures |row| == rowBytes
  {
    Patch(p[y], c.dstLeft, Source(p, rowBytes, c, y + c.up))
  }

  predicate Receives(c: Copy, n: nat, y: nat) {
    c.dstTop <= y < c.dstTop + n && HasSource(c, y)
  }

  function RowAtOnce(p: Rows, rowBytes: nat, c: Copy, n: nat, y: nat): (row: Bytes)
    requires Wide(p, rowBytes) && CopyFits(c, rowBytes, |p|) && y < |p|
    ensures |row| == rowBytes
  {
    if Receives(c, n, y) then RowFrom(p, rowBytes, c, y) else p[y]
  }

  /** All rows are copied at once. */
  function CopiedAtOnce(p: Rows, rowBytes: nat, c: Copy, n: nat): (r: Rows)
    requires Wide(p, rowBytes) && CopyFits(c, rowBytes, |p|) && c.dstTop + n <= |p|
    ensures |r| == |p| && Wide(r, rowBytes)
  {
    seq(|p|, y requires 0 <= y < |p| => RowAtOnce(p, rowBytes, c, n, y))
  }

  /** No row is overwritten before it is read. */
  predicate ReadsFirst(c: Copy) {
    c.up >= 0 || c.srcBottom <= c.dstTop
  }

  lemma RowMore(p: Rows, rowBytes: nat, c: Copy, n: nat, d: nat, y: nat, r: Rows)
    requires Wide(p, rowBytes) && CopyFits(c, rowBytes, |p|) && d == c.dstTop + n < |p| && y < |p|
    requires r == CopiedAtOnce(p, rowBytes, c, n)
    requires HasSource(c, d) ==> Source(r, rowBytes, c, d + c.up) == Source(p, rowBytes, c, d + c.up)
    ensures RowCopied(r, rowBytes, c, d)[y] == RowAtOnce(p, rowBytes, c, n + 1, y)
  {
    assert r[d] == p[d];
  }

  lemma AtOnceMore(p: Rows, rowBytes: nat, c: Copy, n: nat)
    requires Wide(p, rowBytes) && CopyFits(c, rowBytes, |p|) && c.dstTop + n < |p|
    requires HasSource(c, c.dstTop + n) ==>
               Source(CopiedAtOnce(p, rowBytes, c, n), rowBytes, c, c.dstTop + n + c.up)
                   == Source(p, rowBytes, c, c.dstTop + n + c.up)
    ensures RowCopied(CopiedAtOnce(p, rowBytes, c, n), rowBytes, c, c.dstTop + n) == CopiedAtOnce(p, rowBytes, c, n + 1)
  {
    var d, r, t := c.dstTop + n, CopiedAtOnce(p, rowBytes, c, n), CopiedAtOnce(p, rowBytes, c, n + 1);
    forall y | 0 <= y < |p| ensures RowCopied(r, rowBytes, c, d)[y] == t[y] {
      RowMore(p, rowBytes, c, n, d, y, r);
    }
  }

  lemma CopiedMore(p: Rows, rowBytes: nat, c: Copy, n: nat)
    requires Wide(p, rowBytes) && CopyFits(c, rowBytes, |p|) && c.dstTop + n < |p|
    ensures RowsCopied(p, rowBytes, c, n + 1) == RowCopied(RowsCopied(p, rowBytes, c, n), rowBytes, c, c.dstTop + n)
  {
  }

  lemma ReadBeforeWritten(p: Rows, rowBytes: nat, c: Copy, n: nat, d: nat)
    requires Wide(p, rowBytes) && CopyFits(c, rowBytes, |p|) && d == c.dstTop + n < |p| && ReadsFirst(c)
    requires HasSource(c, d)
    ensures Source(CopiedAtOnce(p, rowBytes, c, n), rowBytes, c, d + c.up) == Source(p, rowBytes, c, d + c.up)
  {
    var s := d + c.up;
    assert !Receives(c, n, s) && CopiedAtOnce(p, rowBytes, c, n)[s] == p[s];
  }

  lemma {:induction false} InPlaceIsAtOnce(p: Rows, rowBytes: nat, c: Copy, n: nat)
    requires Wide(p, rowBytes) && CopyFits(c, rowBytes, |p|) && c.dstTop + n <= |p| && ReadsFirst(c)
    ensures RowsCopied(p, rowBytes, c, n) == CopiedAtOnce(p, rowBytes, c, n)
  {
    if n > 0 {
      var m, d := n - 1, c.dstTop + n - 1;
      InPlaceIsAtOnce(p, rowBytes, c, m);
      if HasSource(c, d) { ReadBeforeWritten(p, rowBytes, c, m, d); }
      AtOnceMore(p, rowBytes, c, m);
      CopiedMore(p, rowBytes, c, m);
    }
  }

  /** In the columns that are written and read, `row` holds what comes from `above`. */
  ghost predicate HoldsAlready(row: Bytes, above: Bytes, c: Copy)
    requires c.srcLeft + c.w <= |row| && c.srcLeft + c.w <= |above|
  {
    forall x: nat :: c.srcLeft <= x < c.srcLeft + c.w && c.dstLeft <= x < c.dstLeft + c.w ==>
      row[x] == above[x - c.dstLeft + c.srcLeft]
  }

  /** A row that is read after it was overwritten holds what it was overwritten with. */
  ghost predicate RowAgrees(p: Rows, rowBytes: nat, c: Copy, n: nat, y: nat)
    requires Wide(p, rowBytes) && CopyFits(c, rowBytes, |p|) && c.dstTop + n <= |p| && Receives(c, n, y)
  {
    Receives(c, n, y + c.up) ==> HoldsAlready(p[y + c.up], p[y + c.up + c.up], c)
  }

  ghost predicate SameIfReread(p: Rows, rowBytes: nat, c: Copy, n: nat)
    requires Wide(p, rowBytes) && CopyFits(c, rowBytes, |p|) && c.dstTop + n <= |p|
  {
    forall y: nat :: Receives(c, n, y) ==> RowAgrees(p, rowBytes, c, n, y)
  }

  ghost predicate SameRow(p: Rows, rowBytes: nat, c: Copy, n: nat, y: nat)
    requires Wide(p, rowBytes) && CopyFits(c, rowBytes, |p|) && c.dstTop + n <= |p| && Receives(c, n, y)
  {
    Source(CopiedAtOnce(p, rowBytes, c, n), rowBytes, c, y + c.up) == Source(p, rowBytes, c, y + c.up)
  }

  lemma SameRowIs(p: Rows, rowBytes: nat, c: Copy, n: nat, y: nat)
    requires Wide(p, rowBytes) && CopyFits(c, rowBytes, |p|) && c.dstTop + n <= |p| && Receives(c, n, y)
    ensures SameRow(p, rowBytes, c, n, y) <==> RowAgrees(p, rowBytes, c, n, y)
  {
    var s := y + c.up;
    var after, before := Source(CopiedAtOnce(p, rowBytes, c, n), rowBytes, c, s), Source(p, rowBytes, c, s);
    if Receives(c, n, s) {
      var row := RowFrom(p, rowBytes, c, s);
      assert forall i :: 0 <= i < c.w ==> after[i] == row[c.srcLeft + i] && before[i] == p[s][c.srcLeft + i];
      if SameRow(p, rowBytes, c, n, y) {
        forall x: nat | c.srcLeft <= x < c.srcLeft + c.w && c.dstLeft <= x < c.dstLeft + c.w
          ensures p[s][x] == p[s + c.up][x - c.dstLeft + c.srcLeft] {
          assert after[x - c.srcLeft] == before[x - c.srcLeft];
        }
      }
    }
  }

  lemma {:induction false} Untouched(p: Rows, rowBytes: nat, c: Copy, n: nat, y: nat)
    requires Wide(p, rowBytes) && CopyFits(c, rowBytes, |p|) && c.dstTop + n <= |p| && y < |p| && !Receives(c, n, y)
    ensures RowsCopied(p, rowBytes, c, n)[y] == p[y]
  {
    if n > 0 { Untouched(p, rowBytes, c, n - 1, y); }
  }

  /** Copying downwards hands on what was copied before. */
  lemma {:induction false} DownwardRow(p: Rows, rowBytes: nat, c: Copy, n: nat, y: nat)
    requires Wide(p, rowBytes) && CopyFits(c, rowBytes, |p|) && c.dstTop + n <= |p| && Receives(c, n, y) && c.up < 0
    ensures var r := RowsCopied(p, rowBytes, c, n);
            r[y] == Patch(p[y], c.dstLeft, Source(r, rowBytes, c, y + c.up))
  {
    var d := c.dstTop + n - 1;
    if y == d {
      Untouched(p, rowBytes, c, n - 1, d);
    } else {
      DownwardRow(p, rowBytes, c, n - 1, y);
    }
  }

  lemma PatchInjective(row: Bytes, x: nat, a: Bytes, b: Bytes)
    requires |a| == |b| && x + |a| <= |row| && Patch(row, x, a) == Patch(row, x, b)
    ensures a == b
  {
    assert a == Patch(row, x, a)[x..x + |a|] && b == Patch(row, x, b)[x..x + |b|];
  }

  lemma RereadIsSame(p: Rows, rowBytes: nat, c: Copy, n: nat, m: nat, d: nat)
    requires Wide(p, rowBytes) && CopyFits(c, rowBytes, |p|) && n < m && c.dstTop + m <= |p| && d == c.dstTop + n
    requires HasSource(c, d)
    requires c.up < 0 && SameIfReread(p, rowBytes, c, m)
    ensures Source(CopiedAtOnce(p, rowBytes, c, n), rowBytes, c, d + c.up) == Source(p, rowBytes, c, d + c.up)
  {
    assert Receives(c, m, d) && RowAgrees(p, rowBytes, c, m, d);
    SameRowIs(p, rowBytes, c, m, d);
    var s := d + c.up;
    assert Receives(c, m, s) <==> Receives(c, n, s);
    assert CopiedAtOnce(p, rowBytes, c, m)[s] == CopiedAtOnce(p, rowBytes, c, n)[s];
  }

  lemma {:induction false} SameIsAtOnce(p: Rows, rowBytes: nat, c: Copy, n: nat, m: nat)
    requires Wide(p, rowBytes) && CopyFits(c, rowBytes, |p|) && n <= m && c.dstTop + m <= |p| && c.up < 0
    requires SameIfReread(p, rowBytes, c, m)
    ensures RowsCopied(p, rowBytes, c, n) == CopiedAtOnce(p, rowBytes, c, n)
  {
    if n > 0 {
      var k, d := n - 1, c.dstTop + n - 1;
      SameIsAtOnce(p, rowBytes, c, k, m);
      if HasSource(c, d) { RereadIsSame(p, rowBytes, c, k, m, d); }
      AtOnceMore(p, rowBytes, c, k);
      CopiedMore(p, rowBytes, c, k);
    }
  }

  lemma AtOnceRowIsSame(p: Rows, rowBytes: nat, c: Copy, n: nat, y: nat, r: Rows)
    requires Wide(p, rowBytes) && CopyFits(c, rowBytes, |p|) && c.dstTop + n <= |p| && c.up < 0 && Receives(c, n, y)
    requires r == CopiedAtOnce(p, rowBytes, c, n) && r[y] == Patch(p[y], c.dstLeft, Source(r, rowBytes, c, y + c.up))
    ensures SameRow(p, rowBytes, c, n, y)
  {
    assert r[y] == RowFrom(p, rowBytes, c, y);
    PatchInjective(p[y], c.dstLeft, Source(r, rowBytes, c, y + c.up), Source(p, rowBytes, c, y + c.up));
  }

  lemma AtOnceIsSame(p: Rows, rowBytes: nat, c: Copy, n: nat)
    requires Wide(p, rowBytes) && CopyFits(c, rowBytes, |p|) && c.dstTop + n <= |p| && c.up < 0
    requires RowsCopied(p, rowBytes, c, n) == CopiedAtOnce(p, rowBytes, c, n)
    ensures SameIfReread(p, rowBytes, c, n)
  {
    var r := RowsCopied(p, rowBytes, c, n);
    forall y: nat | Receives(c, n, y) ensures RowAgrees(p, rowBytes, c, n, y) {
      DownwardRow(p, rowBytes, c, n, y);
      AtOnceRowIsSame(p, rowBytes, c, n, y, r);
      SameRowIs(p, rowBytes, c, n, y);
    }
  }

  /**
   Copying rows in place, from the top to the bottom, is copying them at once if and only if they do
   not move down or every row that is read after it was overwritten holds the bytes it was overwritten with.
   */
  lemma InPlaceExactly(p: Rows, rowBytes: nat, c: Copy, n: nat)
    requires Wide(p, rowBytes) && CopyFits(c, rowBytes, |p|) && c.dstTop + n <= |p|
    ensures RowsCopied(p, rowBytes, c, n) == CopiedAtOnce(p, rowBytes, c, n) <==>
              c.up >= 0 || SameIfReread(p, rowBytes, c, n)
  {
    if c.up >= 0 {
      InPlaceIsAtOnce(p, rowBytes, c, n);
    } else {
      if SameIfReread(p, rowBytes, c, n) { SameIsAtOnce(p, rowBytes, c, n, n); }
      if RowsCopied(p, rowBytes, c, n) == CopiedAtOnce(p, rowBytes, c, n) { AtOnceIsSame(p, rowBytes, c, n); }
    }
  }

  method CopyPlane(plane: array<Byte>, rowBytes: nat, n: nat, c: Copy, dstBottom: nat)
    requires plane.Length == Start(rowBytes, n) && CopyFits(c, rowBytes, n) && c.dstTop <= dstBottom <= n
    modifies plane
    ensures RowsOf(plane[..], rowBytes, n)
              == RowsCopied(old(RowsOf(plane[..], rowBytes, n)), rowBytes, c, dstBottom - c.dstTop)
  {
    ghost var p := RowsOf(plane[..], rowBytes, n);
    for dstY := c.dstTop to dstBottom
      invariant RowsOf(plane[..], rowBytes, n) == RowsCopied(p, rowBytes, c, dstY - c.dstTop)
    {
      CopyRow(plane, rowBytes, n, c, dstY);
    }
  }

  method CopyRow(plane: array<Byte>, rowBytes: nat, n: nat, c: Copy, dstY: nat)
    requires plane.Length == Start(rowBytes, n) && CopyFits(c, rowBytes, n) && dstY < n
    modifies plane
    ensures RowsOf(plane[..], rowBytes, n) == RowCopied(old(RowsOf(plane[..], rowBytes, n)), rowBytes, c, dstY)
  {
    var srcY := dstY + c.up;
    if c.srcTop <= srcY < c.srcBottom {
      StartsGrow(rowBytes, srcY, n);
      var sp := Start(rowBytes, srcY) + c.srcLeft;
      var bytes := plane[sp..sp + c.w];
      SliceOfRow(plane[..], rowBytes, n, srcY, c.srcLeft, c.w);
      Store(plane, rowBytes, n, dstY, Start(rowBytes, dstY) + c.dstLeft, bytes);
    }
  }

  lemma SliceOfSlice(s: Bytes, from: nat, to: nat, x: nat, w: nat)
    requires from <= to <= |s| && x + w <= to - from
    ensures s[from..to][x..x + w] == s[from + x..from + x + w]
  {
    var t, a, b := s[from..to], s[from..to][x..x + w], s[from + x..from + x + w];
    forall i | 0 <= i < w ensures a[i] == b[i] {
      assert a[i] == t[x + i] == s[from + (x + i)] && b[i] == s[from + x + i];
    }
  }

  lemma SliceOfRow(s: Bytes, rowBytes: nat, n: nat, y: nat, x: nat, w: nat)
    requires |s| == Start(rowBytes, n) && y < n && x + w <= rowBytes && Start(rowBytes, y) + rowBytes <= |s|
    ensures s[Start(rowBytes, y) + x..Start(rowBytes, y) + x + w] == RowsOf(s, rowBytes, n)[y][x..x + w]
  {
    SliceOfSlice(s, Start(rowBytes, y), Start(rowBytes, y) + rowBytes, x, w);
  }
}
