/** The kernel's side of key maps: mapping a key event to bytes by interpreting a compiled image. */
module KeyMapInterpreter {
  import opened Arithmetic
  import opened KeyMapSource
  import opened KeyMapImage
  import opened Options
  import opened Memory

  const MODIFIER_SHIFT: bv32 := 1
  const MODIFIER_OPTION: bv32 := 2
  const MODIFIER_CONTROL: bv32 := 4
  const MODIFIER_CAPS_LOCK: bv32 := 16
  const KEY_A := 0x04
  const KEY_Z := 0x1d
  const MAX_BYTE_SEQUENCE_LENGTH := 16

  datatype KeyEvent = KeyEvent(keyCode: Code, flags: bv32)

  // ---------------------------------------------------------------------------------------
  // Reading an image

  /** A NUL terminated string starts at `p`. */
  ghost predicate StringAt(img: seq<Byte>, p: nat) {
    exists q :: p <= q < |img| && img[q] == 0
  }

  ghost function CString(img: seq<Byte>, p: nat): seq<Byte>
    requires StringAt(img, p)
    decreases |img| - p
  {
    if img[p] == 0 then [] else [img[p]] + CString(img, p + 1)
  }

  datatype Range = Range(kind: nat, lower: nat, upper: nat, traps: nat)

  function RangeCount(img: seq<Byte>): nat
    requires |img| >= 6
  {
    Read16(img, 4)
  }

  ghost predicate RecordAt(img: seq<Byte>, i: nat) {
    6 + 2 * i + 2 <= |img| && Read16(img, 6 + 2 * i) + 8 <= |img|
  }

  function RangeAt(img: seq<Byte>, i: nat): Range
    requires RecordAt(img, i)
  {
    var p := Read16(img, 6 + 2 * i);
    Range(Read16(img, p), Read16(img, p + 2), Read16(img, p + 4), Read16(img, p + 6))
  }

  ghost predicate TrapsReadable(img: seq<Byte>, r: Range) {
    && r.lower <= r.upper
    && (r.kind == 0 ==> r.traps + 4 * (r.upper - r.lower + 1) <= |img|)
    && (r.kind == 3 ==> && r.traps + 2 * (r.upper - r.lower + 1) <= |img|
                        && forall k :: 0 <= k <= r.upper - r.lower ==> StringAt(img, Read16(img, r.traps + 2 * k)))
  }

  /** All offsets stay inside the image: what the kernel expects of a key map. */
  ghost predicate WellFormed(img: seq<Byte>) {
    && |img| >= 6
    && forall i :: 0 <= i < RangeCount(img) ==> RecordAt(img, i) && TrapsReadable(img, RangeAt(img, i))
  }

  // ---------------------------------------------------------------------------------------
  // What the interpreter computes

  function EffectiveFlags(ev: KeyEvent): bv32 {
    if ev.flags & MODIFIER_CAPS_LOCK != 0 && KEY_A <= ev.keyCode <= KEY_Z then
      if ev.flags & MODIFIER_SHIFT == 0 then ev.flags | MODIFIER_SHIFT else ev.flags & !MODIFIER_SHIFT
    else ev.flags
  }

  function ModifierIndex(flags: bv32): (i: nat)
    ensures i < 4
  {
    var m := flags & (MODIFIER_SHIFT | MODIFIER_OPTION);
    assert m == 0 || m == 1 || m == 2 || m == 3;
    m as int
  }

  function Type0Char(trap: seq<Byte>, ev: KeyEvent): Byte
    requires |trap| == 4
  {
    var flags := EffectiveFlags(ev);
    var ch := trap[ModifierIndex(flags)];
    var ch1 := if ch == 0 then trap[0] else ch;
    if flags & MODIFIER_CONTROL != 0 then ch1 % 32 else ch1
  }

  predicate Contains(r: Range, code: Code) {
    r.lower <= code <= r.upper
  }

  ghost function FindRange(img: seq<Byte>, code: Code, i: nat): Option<nat>
    requires WellFormed(img)
    decreases RangeCount(img) - i
  {
    if i >= RangeCount(img) then None
    else if Contains(RangeAt(img, i), code) then Some(i)
    else FindRange(img, code, i + 1)
  }

  /** The bytes of a string, up to a limit. */
  function Take(s: seq<Byte>, n: int): (r: seq<Byte>)
    ensures r <= s && |r| == Max(Min(n, |s|), 0)
  {
    if n <= 0 then [] else if n <= |s| then s[..n] else s
  }

  ghost function RangeBytes(img: seq<Byte>, r: Range, ev: KeyEvent, max: int): seq<Byte>
    requires TrapsReadable(img, r) && Contains(r, ev.keyCode)
  {
    var k := ev.keyCode - r.lower;
    if r.kind == 0 then [Type0Char(img[r.traps + 4 * k..r.traps + 4 * k + 4], ev)]
    else if r.kind == 3 then Take(CString(img, Read16(img, r.traps + 2 * k)), max)
    else []
  }

  ghost function MapBytes(img: seq<Byte>, ev: KeyEvent, max: int): seq<Byte>
    requires WellFormed(img)
  {
    if max <= 0 then []
    else
      match FindRange(img, ev.keyCode, 0)
      case None => []
      case Some(i) =>
        FindRangeOk(img, ev.keyCode, 0);
        RangeBytes(img, RangeAt(img, i), ev, max)
  }

  lemma {:induction false} FindRangeOk(img: seq<Byte>, code: Code, i: nat)
    requires WellFormed(img)
    ensures var f := FindRange(img, code, i);
            && (f.Some? ==> i <= f.value < RangeCount(img) && Contains(RangeAt(img, f.value), code))
            && (f.Some? ==> forall j :: i <= j < f.value ==> !Contains(RangeAt(img, j), code))
            && (f.None? ==> forall j :: i <= j < RangeCount(img) ==> !Contains(RangeAt(img, j), code))
    decreases RangeCount(img) - i
  {
    if i < RangeCount(img) && !Contains(RangeAt(img, i), code) {
      FindRangeOk(img, code, i + 1);
    }
  }

  // ---------------------------------------------------------------------------------------
  // The interpreter

  /** Caps lock counts as shift on a letter key, unless shift is pressed at the same time. */
  method AdjustFlags(ev: KeyEvent) returns (evtFlags: bv32)
    ensures evtFlags == EffectiveFlags(ev)
  {
    evtFlags := ev.flags;
    if evtFlags & MODIFIER_CAPS_LOCK != 0 && KEY_A <= ev.keyCode <= KEY_Z {
      if evtFlags & MODIFIER_SHIFT == 0 {
        evtFlags := evtFlags | MODIFIER_SHIFT;
      } else {
        evtFlags := evtFlags & !MODIFIER_SHIFT;
      }
    }
  }

  method SelectChar(trap: seq<Byte>, ev: KeyEvent) returns (ch: Byte)
    requires |trap| == 4
    ensures ch == Type0Char(trap, ev)
  {
    var evtFlags := AdjustFlags(ev);
    ch := trap[ModifierIndex(evtFlags)];
    if ch == 0 {
      ch := trap[0];
    }
    if evtFlags & MODIFIER_CONTROL != 0 {
      ch := ch % 32;
    }
  }

  method MapType0(img: seq<Byte>, r: Range, ev: KeyEvent, buf: array<Byte>) returns (n: int)
    requires r.kind == 0 && TrapsReadable(img, r) && Contains(r, ev.keyCode) && buf.Length >= 1
    modifies buf
    ensures n == 1 && buf[..n] == RangeBytes(img, r, ev, 1) && buf[n..] == old(buf[n..])
  {
    var p := r.traps + 4 * (ev.keyCode - r.lower);
    var ch := SelectChar(img[p..p + 4], ev);
    buf[0] := ch;
    return 1;
  }

  lemma {:induction false} CStringStep(img: seq<Byte>, p: nat, i: nat)
    requires StringAt(img, p) && i <= |CString(img, p)|
    ensures StringAt(img, p + i) && CString(img, p)[i..] == CString(img, p + i)
    decreases i
  {
    if i > 0 {
      CStringStep(img, p, i - 1);
      var s := CString(img, p);
      assert s[i - 1..][1..] == s[i..];
    }
  }

  lemma Stores(s: seq<Byte>, was: seq<Byte>, n: nat)
    requires n < |s| && n < |was|
    ensures (s[..n] + was[n..])[n := s[n]] == s[..n + 1] + was[n + 1..]
  {
  }

  method MapType3(img: seq<Byte>, r: Range, ev: KeyEvent, buf: array<Byte>, max: int) returns (n: int)
    requires r.kind == 3 && TrapsReadable(img, r) && Contains(r, ev.keyCode) && 0 < max <= buf.Length
    modifies buf
    ensures n == |RangeBytes(img, r, ev, max)| <= buf.Length
    ensures buf[..n] == RangeBytes(img, r, ev, max) && buf[n..] == old(buf[n..])
  {
    var k := ev.keyCode - r.lower;
    var p := Read16(img, r.traps + 2 * k);
    ghost var s := CString(img, p);
    ghost var was := buf[..];
    n := 0;
    CStringStep(img, p, 0);
    while img[p + n] != 0 && n < max
      invariant 0 <= n <= max && n <= |s| && p + n < |img|
      invariant StringAt(img, p + n) && s[n..] == CString(img, p + n)
      invariant buf[..] == s[..n] + was[n..]
      decreases max - n
    {
      assert s[n] == s[n..][0];
      Stores(s, was, n);
      buf[n] := img[p + n];
      n := n + 1;
      CStringStep(img, p, n);
    }
    assert img[p + n] == 0 ==> s[n..] == [];
  }

  /** `KeyMap_Map`: the bytes for a key event, written to the front of the caller's buffer. */
  method Map(img: seq<Byte>, ev: KeyEvent, buf: array<Byte>, max: int) returns (n: int)
    requires WellFormed(img) && max <= buf.Length
    modifies buf
    ensures n == |MapBytes(img, ev, max)| <= buf.Length
    ensures buf[..n] == MapBytes(img, ev, max) && buf[n..] == old(buf[n..])
  {
    n := 0;
    if max > 0 {
      for i := 0 to RangeCount(img)
        invariant n == 0 && buf[..] == old(buf[..])
        invariant FindRange(img, ev.keyCode, i) == FindRange(img, ev.keyCode, 0)
      {
        var r := RangeAt(img, i);
        if ev.keyCode >= r.lower && ev.keyCode <= r.upper {
          if r.kind == 0 {
            n := MapType0(img, r, ev, buf);
          } else if r.kind == 3 {
            n := MapType3(img, r, ev, buf, max);
          }
          return;
        }
      }
    }
  }

  /** The string at `p` is longer than a key may produce. */
  method IsTooLong(img: seq<Byte>, p: nat) returns (tooLong: bool)
    requires StringAt(img, p)
    ensures tooLong == (|CString(img, p)| > MAX_BYTE_SEQUENCE_LENGTH)
  {
    var n := 0;
    CStringStep(img, p, 0);
    while img[p + n] != 0
      invariant 0 <= n <= |CString(img, p)| && p + n < |img|
      invariant StringAt(img, p + n) && CString(img, p)[n..] == CString(img, p + n)
      decreases |img| - n
    {
      n := n + 1;
      CStringStep(img, p, n);
    }
    tooLong := n > MAX_BYTE_SEQUENCE_LENGTH;
  }

  ghost predicate StringsShort(img: seq<Byte>, r: Range, n: nat)
    requires TrapsReadable(img, r) && n <= r.upper - r.lower + 1
  {
    r.kind == 3 ==> forall k :: 0 <= k < n ==> |CString(img, Read16(img, r.traps + 2 * k))| <= MAX_BYTE_SEQUENCE_LENGTH
  }

  method RangeIsValid(img: seq<Byte>, r: Range) returns (valid: bool)
    requires TrapsReadable(img, r)
    ensures valid == StringsShort(img, r, r.upper - r.lower + 1)
  {
    if r.kind == 3 {
      for k := 0 to r.upper - r.lower + 1
        invariant StringsShort(img, r, k)
      {
        var tooLong := IsTooLong(img, Read16(img, r.traps + 2 * k));
        if tooLong {
          return false;
        }
      }
    }
    return true;
  }

  /** `KeyMap_IsValid`: no key produces more bytes than a key may. */
  method IsValid(img: seq<Byte>) returns (valid: bool)
    requires WellFormed(img)
    ensures valid <==> forall i :: 0 <= i < RangeCount(img) ==>
                         StringsShort(img, RangeAt(img, i), RangeAt(img, i).upper - RangeAt(img, i).lower + 1)
  {
    for i := 0 to RangeCount(img)
      invariant forall j :: 0 <= j < i ==>
                  StringsShort(img, RangeAt(img, j), RangeAt(img, j).upper - RangeAt(img, j).lower + 1)
    {
      var ok := RangeIsValid(img, RangeAt(img, i));
      if !ok {
        return false;
      }
    }
    return true;
  }
}
