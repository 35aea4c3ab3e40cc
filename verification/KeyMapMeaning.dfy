/** Compiling preserves meaning: interpreting a compiled key map is looking up the key in the .keys file. */
module KeyMapMeaning {
  import opened Arithmetic
  import opened KeyMapSource
  import opened KeyMapImage
  import opened KeyMapInterpreter
  import opened Options
  import Compiler = KeyMapCompiler
  import opened Memory

  // ---------------------------------------------------------------------------------------
  // The meaning of a .keys file

  function FindEntry(entries: seq<Entry>, code: Code): Option<Meaning> {
    if entries == [] then None
    else if entries[0].code == code then Some(entries[0].meaning)
    else FindEntry(entries[1..], code)
  }

  predicate IsLetterKey(code: Code) {
    KEY_A <= code <= KEY_Z
  }

  /** Whether the shifted character is meant: caps lock inverts shift on letter keys. */
  predicate Shifted(ev: KeyEvent) {
    (ev.flags & MODIFIER_SHIFT != 0) != (ev.flags & MODIFIER_CAPS_LOCK != 0 && IsLetterKey(ev.keyCode))
  }

  predicate Optioned(ev: KeyEvent) {
    ev.flags & MODIFIER_OPTION != 0
  }

  /** A position that is not filled in means the base character; control clears bits 5, 6 and 7. */
  function CharOf(m: Meaning, ev: KeyEvent): Byte
    requires m.Chars?
  {
    var ch := if Shifted(ev) then (if Optioned(ev) then m.b3 else m.b1) else (if Optioned(ev) then m.b2 else m.b0);
    var ch1 := if ch == 0 then m.b0 else ch;
    if ev.flags & MODIFIER_CONTROL != 0 then ch1 % 32 else ch1
  }

  /** The bytes that a key event means, at most `max`. */
  function LookUp(entries: seq<Entry>, ev: KeyEvent, max: int): seq<Byte> {
    if max <= 0 then []
    else
      match FindEntry(entries, ev.keyCode)
      case None => []
      case Some(m) => if m.Chars? then [CharOf(m, ev)] else m.s[..Min(max, |m.s|)]
  }

  // ---------------------------------------------------------------------------------------
  // Modifiers

  lemma FlagBits(f: bv32)
    ensures (f | 1) & 1 != 0 && (f | 1) & 2 == f & 2 && (f | 1) & 4 == f & 4
    ensures (f & !1) & 1 == 0 && (f & !1) & 2 == f & 2 && (f & !1) & 4 == f & 4
  {
  }

  lemma IndexBits(f: bv32)
    ensures ModifierIndex(f) == (if f & 1 != 0 then 1 else 0) + (if f & 2 != 0 then 2 else 0)
  {
    var m := f & 3;
    assert m == 0 || m == 1 || m == 2 || m == 3;
    assert (f & 1 != 0) == (m == 1 || m == 3);
    assert (f & 2 != 0) == (m == 2 || m == 3);
  }

  lemma FlagsAgree(ev: KeyEvent)
    ensures ModifierIndex(EffectiveFlags(ev)) == (if Shifted(ev) then 1 else 0) + (if Optioned(ev) then 2 else 0)
    ensures (EffectiveFlags(ev) & MODIFIER_CONTROL != 0) == (ev.flags & MODIFIER_CONTROL != 0)
  {
    FlagBits(ev.flags);
    IndexBits(EffectiveFlags(ev));
  }

  lemma CharAgrees(b0: Byte, b1: Byte, b2: Byte, b3: Byte, ev: KeyEvent)
    ensures Type0Char([b0, b1, b2, b3], ev) == CharOf(Chars(b0, b1, b2, b3), ev)
  {
    FlagsAgree(ev);
  }

  // ---------------------------------------------------------------------------------------
  // Reading the image back

  /** Every write started below 64k, so every offset fits. */
  ghost predicate Fits(m: Tables) {
    ValidTables(m) && ValidRanges(m) && ValidKeys(m) && Compiler.LastStart(m) <= 65535
  }

  lemma OffsetsFit(m: Tables, i: nat)
    requires Fits(m) && i < |m.ranges|
    ensures RangeOffset(m, i) < 0x1_0000 && TrapOffset(m, m.ranges[i].lowerKeyIndex) < 0x1_0000 && |m.ranges| < 0x1_0000
  {
    Compiler.TrapStart(m, m.ranges[i].lowerKeyIndex);
    Compiler.StartsBeforeTraps(m);
  }

  lemma StringsFit(m: Tables, i: nat)
    requires Fits(m) && m.ranges != [] && i < |m.strings|
    ensures StringOffset(m, i) < 0x1_0000
  {
    Compiler.StringPieces(m, i);
  }

  lemma RecordFields(img: seq<Byte>, p: nat, a: nat, b: nat, c: nat, d: nat)
    requires p + 8 <= |img| && img[p..p + 8] == BigEndian(a) + BigEndian(b) + BigEndian(c) + BigEndian(d)
    requires a < 0x1_0000 && b < 0x1_0000 && c < 0x1_0000 && d < 0x1_0000
    ensures Read16(img, p) == a && Read16(img, p + 2) == b && Read16(img, p + 4) == c && Read16(img, p + 6) == d
  {
    var s := img[p..p + 8];
    assert forall j :: 0 <= j < 8 ==> img[p + j] == s[j];
    assert s[0] == Hi(a) && s[1] == Lo(a) && s[2] == Hi(b) && s[3] == Lo(b);
    assert s[4] == Hi(c) && s[5] == Lo(c) && s[6] == Hi(d) && s[7] == Lo(d);
  }

  lemma CountDecoded(m: Tables)
    requires Fits(m)
    ensures |Image(m)| >= 6 && RangeCount(Image(m)) == |m.ranges|
  {
    ImageHeader(m);
    if m.ranges != [] { OffsetsFit(m, 0); }
    ReadsBack(Image(m), 4, |m.ranges|);
  }

  lemma OffsetDecoded(m: Tables, i: nat)
    requires Fits(m) && i < |m.ranges|
    ensures 6 + 2 * i + 2 <= |Image(m)| && Read16(Image(m), 6 + 2 * i) == RangeOffset(m, i)
  {
    OffsetsFit(m, i);
    ImageRangeOffset(m, i);
    ReadsBack(Image(m), 6 + 2 * i, RangeOffset(m, i));
  }

  /** The record at `p` is that of a range. */
  ghost predicate RecordIs(img: seq<Byte>, p: nat, x: Range) {
    && p + 8 <= |img| && Read16(img, p) == x.kind && Read16(img, p + 2) == x.lower && Read16(img, p + 4) == x.upper
    && Read16(img, p + 6) == x.traps
  }

  ghost function RangeOf(m: Tables, i: nat): Range
    requires Fits(m) && i < |m.ranges|
  {
    var x := m.ranges[i];
    Range(TypeNumber(x.keyType), m.keys[x.lowerKeyIndex].keyCode, m.keys[x.upperKeyIndex].keyCode,
          TrapOffset(m, x.lowerKeyIndex))
  }

  lemma RecordDecoded(m: Tables, i: nat)
    requires Fits(m) && i < |m.ranges|
    ensures RecordIs(Image(m), RangeOffset(m, i), RangeOf(m, i))
  {
    var x := RangeOf(m, i);
    OffsetsFit(m, i);
    ImageRecord(m, i);
    RecordFields(Image(m), RangeOffset(m, i), x.kind, x.lower, x.upper, x.traps);
  }

  lemma RangeIs(img: seq<Byte>, i: nat, p: nat, x: Range)
    requires 6 + 2 * i + 2 <= |img| && Read16(img, 6 + 2 * i) == p && RecordIs(img, p, x)
    ensures RecordAt(img, i) && RangeAt(img, i) == x
  {
  }

  lemma RangeDecoded(m: Tables, i: nat)
    requires Fits(m) && i < |m.ranges|
    ensures RecordAt(Image(m), i) && Read16(Image(m), 6 + 2 * i) == RangeOffset(m, i)
    ensures RangeAt(Image(m), i) == RangeOf(m, i)
  {
    OffsetDecoded(m, i);
    RecordDecoded(m, i);
    RangeIs(Image(m), i, RangeOffset(m, i), RangeOf(m, i));
  }

  lemma {:induction false} UniformOffsets(m: Tables, i: nat, k: nat)
    requires ValidTables(m) && i < |m.ranges| && RangeOk(m.keys, m.ranges, i, |m.keys|)
    requires m.ranges[i].lowerKeyIndex <= k <= m.ranges[i].upperKeyIndex
    ensures TrapOffset(m, k) == TrapOffset(m, m.ranges[i].lowerKeyIndex)
                                + (k - m.ranges[i].lowerKeyIndex) * (if m.ranges[i].keyType == FourBytes then 4 else 2)
    decreases k
  {
    if k > m.ranges[i].lowerKeyIndex {
      UniformOffsets(m, i, k - 1);
      RangeIsUniform(m.keys, m.ranges, i, k - 1);
    }
  }

  lemma {:induction false} CStringOf(img: seq<Byte>, p: nat, s: seq<Byte>)
    requires NulFree(s) && p + |s| + 1 <= |img| && img[p..p + |s| + 1] == s + [0]
    ensures StringAt(img, p) && CString(img, p) == s
    decreases |s|
  {
    assert img[p + |s|] == img[p..p + |s| + 1][|s|] == 0;
    assert StringAt(img, p);
    if s != [] {
      assert img[p] == img[p..p + |s| + 1][0] == s[0];
      assert img[p + 1..p + 1 + |s[1..]| + 1] == img[p..p + |s| + 1][1..] == s[1..] + [0];
      CStringOf(img, p + 1, s[1..]);
    }
  }

  /** The trap of key `k` means what the key means. */
  lemma StringTrap(m: Tables, k: nat)
    requires Fits(m) && m.ranges != [] && k < |m.keys| && m.keys[k].value.StringIdx?
    ensures TrapOffset(m, k) + 2 <= |Image(m)| && StringAt(Image(m), Read16(Image(m), TrapOffset(m, k)))
    ensures CString(Image(m), Read16(Image(m), TrapOffset(m, k))) == m.strings[m.keys[k].value.idx]
  {
    var img, idx := Image(m), m.keys[k].value.idx;
    assert ValidKey(m.keys[k], m.strings);
    ImageTrap(m, k);
    StringsFit(m, idx);
    ReadsBack(img, TrapOffset(m, k), StringOffset(m, idx));
    ImageString(m, idx);
    CStringOf(img, StringOffset(m, idx), m.strings[idx]);
  }

  lemma RangeExtent(m: Tables, i: nat)
    requires ValidTables(m) && i < |m.ranges|
    ensures RangeOk(m.keys, m.ranges, i, |m.keys|)
    ensures 0 <= m.keys[m.ranges[i].upperKeyIndex].keyCode - m.keys[m.ranges[i].lowerKeyIndex].keyCode
            <= m.ranges[i].upperKeyIndex - m.ranges[i].lowerKeyIndex
    ensures TypeOf(m.keys[m.ranges[i].upperKeyIndex]) == m.ranges[i].keyType
  {
    assert RangeOk(m.keys, m.ranges, i, |m.keys|);
    RangeIsUniform(m.keys, m.ranges, i, m.ranges[i].upperKeyIndex);
  }

  /** The trap of key `q`, which is the one with number `k` in its range. */
  lemma TrapPlace(m: Tables, i: nat, k: nat, q: nat)
    requires Fits(m) && i < |m.ranges| && RangeOk(m.keys, m.ranges, i, |m.keys|) && m.ranges[i].keyType == String
    requires q == m.ranges[i].lowerKeyIndex + k <= m.ranges[i].upperKeyIndex
    ensures m.keys[q].value.StringIdx? && TrapOffset(m, q) == TrapOffset(m, m.ranges[i].lowerKeyIndex) + 2 * k
  {
    RangeIsUniform(m.keys, m.ranges, i, q);
    UniformOffsets(m, i, q);
  }

  lemma StringTrapAt(m: Tables, k: nat, p: nat)
    requires Fits(m) && m.ranges != [] && k < |m.keys| && m.keys[k].value.StringIdx? && p == TrapOffset(m, k)
    ensures p + 2 <= |Image(m)| && StringAt(Image(m), Read16(Image(m), p))
  {
    StringTrap(m, k);
  }

  lemma StringTrapsReadable(m: Tables, i: nat, k: nat, p: nat)
    requires Fits(m) && i < |m.ranges| && RangeOk(m.keys, m.ranges, i, |m.keys|) && m.ranges[i].keyType == String
    requires k <= m.ranges[i].upperKeyIndex - m.ranges[i].lowerKeyIndex
    requires p == TrapOffset(m, m.ranges[i].lowerKeyIndex) + 2 * k
    ensures p + 2 <= |Image(m)| && StringAt(Image(m), Read16(Image(m), p))
  {
    var q := m.ranges[i].lowerKeyIndex + k;
    TrapPlace(m, i, k, q);
    StringTrapAt(m, q, p);
  }

  lemma TrapsDecoded(m: Tables, i: nat)
    requires Fits(m) && i < |m.ranges|
    ensures RecordAt(Image(m), i) && TrapsReadable(Image(m), RangeAt(Image(m), i))
  {
    var x := m.ranges[i];
    RangeDecoded(m, i);
    RangeExtent(m, i);
    UniformOffsets(m, i, x.upperKeyIndex);
    ImageTrap(m, x.upperKeyIndex);
    var r := RangeAt(Image(m), i);
    if r.kind == 3 {
      forall k | 0 <= k <= r.upper - r.lower ensures StringAt(Image(m), Read16(Image(m), r.traps + 2 * k)) {
        StringTrapsReadable(m, i, k, r.traps + 2 * k);
      }
    }
  }

  /** Every read that the kernel does stays inside a compiled image. */
  lemma CompiledIsWellFormed(m: Tables)
    requires Fits(m)
    ensures WellFormed(Image(m))
  {
    CountDecoded(m);
    forall i | 0 <= i < RangeCount(Image(m))
      ensures RecordAt(Image(m), i) && TrapsReadable(Image(m), RangeAt(Image(m), i)) {
      TrapsDecoded(m, i);
    }
  }

  /** The lexer keeps at most 16 bytes of a string literal. */
  ghost predicate ShortStrings(m: Tables) {
    forall i :: 0 <= i < |m.strings| ==> |m.strings[i]| <= MAX_BYTE_SEQUENCE_LENGTH
  }

  lemma TrapIsShort(m: Tables, i: nat, k: nat, p: nat)
    requires Fits(m) && ShortStrings(m) && i < |m.ranges| && RangeOk(m.keys, m.ranges, i, |m.keys|)
    requires m.ranges[i].keyType == String
    requires k <= m.ranges[i].upperKeyIndex - m.ranges[i].lowerKeyIndex
    requires p == TrapOffset(m, m.ranges[i].lowerKeyIndex) + 2 * k
    ensures p + 2 <= |Image(m)| && StringAt(Image(m), Read16(Image(m), p))
    ensures |CString(Image(m), Read16(Image(m), p))| <= MAX_BYTE_SEQUENCE_LENGTH
  {
    var q := m.ranges[i].lowerKeyIndex + k;
    TrapPlace(m, i, k, q);
    StringTrap(m, q);
    assert ValidKey(m.keys[q], m.strings) && |m.strings[m.keys[q].value.idx]| <= MAX_BYTE_SEQUENCE_LENGTH;
  }

  lemma RangeIsShort(m: Tables, i: nat)
    requires Fits(m) && ShortStrings(m) && i < |m.ranges|
    ensures RecordAt(Image(m), i) && TrapsReadable(Image(m), RangeAt(Image(m), i))
    ensures StringsShort(Image(m), RangeAt(Image(m), i), RangeAt(Image(m), i).upper - RangeAt(Image(m), i).lower + 1)
  {
    TrapsDecoded(m, i);
    RangeDecoded(m, i);
    RangeExtent(m, i);
    var img, r := Image(m), RangeAt(Image(m), i);
    if r.kind == 3 {
      forall k | 0 <= k < r.upper - r.lower + 1
        ensures |CString(img, Read16(img, r.traps + 2 * k))| <= MAX_BYTE_SEQUENCE_LENGTH {
        TrapIsShort(m, i, k, r.traps + 2 * k);
      }
    }
  }

  /** The kernel accepts every key map that the tool writes. */
  lemma CompiledIsValid(m: Tables)
    requires Fits(m) && ShortStrings(m)
    ensures WellFormed(Image(m))
    ensures forall i :: 0 <= i < RangeCount(Image(m)) ==>
              StringsShort(Image(m), RangeAt(Image(m), i), RangeAt(Image(m), i).upper - RangeAt(Image(m), i).lower + 1)
  {
    CompiledIsWellFormed(m);
    CountDecoded(m);
    forall i | 0 <= i < RangeCount(Image(m))
      ensures StringsShort(Image(m), RangeAt(Image(m), i), RangeAt(Image(m), i).upper - RangeAt(Image(m), i).lower + 1)
    {
      RangeIsShort(m, i);
    }
  }

  // ---------------------------------------------------------------------------------------
  // Interpreting the image

  predicate InRange(m: Tables, r: KeyRange, code: Code)
    requires ValidRange(m, r)
  {
    m.keys[r.lowerKeyIndex].keyCode <= code <= m.keys[r.upperKeyIndex].keyCode
  }

  /** The key whose trap the kernel uses for a code: counted from the first key of the first range that has the code. */
  function Chosen(m: Tables, code: Code, i: nat): Option<nat>
    requires ValidRanges(m)
    decreases |m.ranges| - i
  {
    if i >= |m.ranges| then None
    else
      var r := m.ranges[i];
      if InRange(m, r, code) then Some(r.lowerKeyIndex + (code - m.keys[r.lowerKeyIndex].keyCode))
        else Chosen(m, code, i + 1)
  }

  /** The image has the ranges of the tables, as far as the code is concerned. */
  ghost predicate SameRanges(img: seq<Byte>, m: Tables, code: Code)
    requires WellFormed(img) && ValidRanges(m)
  {
    RangeCount(img) == |m.ranges|
    && forall i :: 0 <= i < |m.ranges| ==> (Contains(RangeAt(img, i), code) <==> InRange(m, m.ranges[i], code))
  }

  lemma DecodedRanges(m: Tables, code: Code)
    requires Fits(m) && WellFormed(Image(m))
    ensures SameRanges(Image(m), m, code)
  {
    CountDecoded(m);
    forall i | 0 <= i < |m.ranges| ensures Contains(RangeAt(Image(m), i), code) <==> InRange(m, m.ranges[i], code) {
      RangeDecoded(m, i);
    }
  }

  lemma {:induction false} FindsChosen(img: seq<Byte>, m: Tables, code: Code, i: nat)
    requires WellFormed(img) && ValidRanges(m) && SameRanges(img, m, code)
    ensures match FindRange(img, code, i)
            case None => Chosen(m, code, i) == None
            case Some(r) =>
              && r < |m.ranges| && InRange(m, m.ranges[r], code)
              && Chosen(m, code, i)
                  == Some(m.ranges[r].lowerKeyIndex + (code - m.keys[m.ranges[r].lowerKeyIndex].keyCode))
    decreases |m.ranges| - i
  {
    if i < |m.ranges| && !InRange(m, m.ranges[i], code) { FindsChosen(img, m, code, i + 1); }
  }

  /** What a key means, and no more of a text than fits. */
  function BytesFor(m: Meaning, ev: KeyEvent, max: int): seq<Byte>
    requires max > 0
  {
    if m.Chars? then [CharOf(m, ev)] else m.s[..Min(max, |m.s|)]
  }

  lemma FourBytesOf(img: seq<Byte>, r: Range, ev: KeyEvent, max: int, p: nat, b0: Byte, b1: Byte, b2: Byte, b3: Byte)
    requires TrapsReadable(img, r) && Contains(r, ev.keyCode) && r.kind == 0 && max > 0
    requires p == r.traps + 4 * (ev.keyCode - r.lower)
    requires p + 4 <= |img| && img[p..p + 4] == [b0, b1, b2, b3]
    ensures RangeBytes(img, r, ev, max) == BytesFor(Chars(b0, b1, b2, b3), ev, max)
  {
    CharAgrees(b0, b1, b2, b3, ev);
  }

  lemma StringOf(img: seq<Byte>, r: Range, ev: KeyEvent, max: int, p: nat, s: seq<Byte>)
    requires TrapsReadable(img, r) && Contains(r, ev.keyCode) && r.kind == 3 && max > 0
    requires p == r.traps + 2 * (ev.keyCode - r.lower)
    requires p + 2 <= |img| && StringAt(img, Read16(img, p)) && CString(img, Read16(img, p)) == s
    ensures RangeBytes(img, r, ev, max) == BytesFor(Text(s), ev, max)
  {
  }

  /** The trap that range `r` uses for a code is the one of key `k`. */
  lemma KeyInRange(m: Tables, r: nat, code: Code, k: nat)
    requires Fits(m) && r < |m.ranges| && RangeOk(m.keys, m.ranges, r, |m.keys|) && InRange(m, m.ranges[r], code)
    requires k == m.ranges[r].lowerKeyIndex + (code - m.keys[m.ranges[r].lowerKeyIndex].keyCode)
    ensures k <= m.ranges[r].upperKeyIndex
    ensures RecordAt(Image(m), r) && TrapsReadable(Image(m), RangeAt(Image(m), r))
    ensures var x := RangeAt(Image(m), r);
            && Contains(x, code)
            && x.kind == TypeNumber(TypeOf(m.keys[k]))
            && TrapOffset(m, k) == x.traps + (if x.kind == 0 then 4 else 2) * (code - x.lower)
  {
    TrapsDecoded(m, r);
    RangeDecoded(m, r);
    RangeExtent(m, r);
    RangeIsUniform(m.keys, m.ranges, r, k);
    UniformOffsets(m, r, k);
  }

  lemma TrapMeansKey(m: Tables, k: nat, x: Range, ev: KeyEvent, max: int)
    requires Fits(m) && m.ranges != [] && k < |m.keys| && TrapsReadable(Image(m), x) && Contains(x, ev.keyCode)
    requires x.kind == TypeNumber(TypeOf(m.keys[k])) && max > 0
    requires TrapOffset(m, k) == x.traps + (if x.kind == 0 then 4 else 2) * (ev.keyCode - x.lower)
    ensures RangeBytes(Image(m), x, ev, max) == BytesFor(MeaningOf(m.keys[k], m.strings), ev, max)
  {
    match m.keys[k].value
    case Four(b0, b1, b2, b3) =>
      ImageTrap(m, k);
      FourBytesOf(Image(m), x, ev, max, TrapOffset(m, k), b0, b1, b2, b3);
    case StringIdx(idx) =>
      StringTrap(m, k);
      StringOf(Image(m), x, ev, max, TrapOffset(m, k), m.strings[idx]);
  }

  /** The bytes that range `r` yields for a code are the bytes that key `k` means. */
  lemma RangeMeansKey(m: Tables, r: nat, k: nat, ev: KeyEvent, max: int)
    requires Fits(m) && r < |m.ranges| && RangeOk(m.keys, m.ranges, r, |m.keys|)
    requires InRange(m, m.ranges[r], ev.keyCode) && max > 0
    requires k == m.ranges[r].lowerKeyIndex + (ev.keyCode - m.keys[m.ranges[r].lowerKeyIndex].keyCode)
    ensures k < |m.keys|
    ensures RecordAt(Image(m), r) && TrapsReadable(Image(m), RangeAt(Image(m), r))
    ensures Contains(RangeAt(Image(m), r), ev.keyCode)
    ensures RangeBytes(Image(m), RangeAt(Image(m), r), ev, max) == BytesFor(MeaningOf(m.keys[k], m.strings), ev, max)
  {
    KeyInRange(m, r, ev.keyCode, k);
    TrapMeansKey(m, k, RangeAt(Image(m), r), ev, max);
  }

  /** What the chosen key means. */
  ghost function ChosenBytes(m: Tables, ev: KeyEvent, max: int): seq<Byte>
    requires ValidRanges(m) && ValidKeys(m)
  {
    var c := Chosen(m, ev.keyCode, 0);
    if max <= 0 || c.None? || c.value >= |m.keys| then [] else BytesFor(MeaningOf(m.keys[c.value], m.strings), ev, max)
  }

  /** For every sorted table, with codes repeated or not, the kernel yields what the chosen key means. */
  lemma MapsChosen(m: Tables, ev: KeyEvent, max: int)
    requires Fits(m)
    ensures WellFormed(Image(m)) && MapBytes(Image(m), ev, max) == ChosenBytes(m, ev, max)
  {
    CompiledIsWellFormed(m);
    if max > 0 {
      DecodedRanges(m, ev.keyCode);
      FindsChosen(Image(m), m, ev.keyCode, 0);
      match FindRange(Image(m), ev.keyCode, 0)
      case None =>
      case Some(r) =>
        assert RangeOk(m.keys, m.ranges, r, |m.keys|);
        RangeMeansKey(m, r, Chosen(m, ev.keyCode, 0).value, ev, max);
    }
  }

  // ---------------------------------------------------------------------------------------
  // Repeated codes

  /** In every range, no code but the last one is repeated. */
  ghost predicate OnlyLastRepeated(m: Tables)
    requires ValidRanges(m)
  {
    forall r: nat, i: nat :: r < |m.ranges| && Repeats(m, r, i) ==>
      m.keys[i].keyCode == m.keys[m.ranges[r].upperKeyIndex].keyCode
  }

  /** Key `i` of range `r` has the code of the key in front of it. */
  ghost predicate Repeats(m: Tables, r: nat, i: nat)
    requires ValidRanges(m) && r < |m.ranges|
  {
    m.ranges[r].lowerKeyIndex < i <= m.ranges[r].upperKeyIndex && m.keys[i].keyCode == m.keys[i - 1].keyCode
  }

  /** The key that is chosen for the code of a key has that code. */
  ghost predicate ChoosesByCode(m: Tables)
    requires ValidRanges(m)
  {
    forall k :: 0 <= k < |m.keys| ==> ChoosesFor(m, m.keys[k].keyCode)
  }

  ghost predicate ChoosesFor(m: Tables, code: Code)
    requires ValidRanges(m)
  {
    var c := Chosen(m, code, 0);
    c.Some? && c.value < |m.keys| && m.keys[c.value].keyCode == code
  }

  /** Up to its last code, a range counts its codes one by one. */
  lemma {:induction false} CountsUp(m: Tables, r: nat, i: nat)
    requires ValidTables(m) && ValidRanges(m) && r < |m.ranges| && RangeOk(m.keys, m.ranges, r, |m.keys|)
    requires OnlyLastRepeated(m)
    requires m.ranges[r].lowerKeyIndex <= i <= m.ranges[r].upperKeyIndex
    ensures var x := m.ranges[r];
            m.keys[i].keyCode == m.keys[x.upperKeyIndex].keyCode
            || m.keys[i].keyCode == m.keys[x.lowerKeyIndex].keyCode + (i - x.lowerKeyIndex)
    decreases i
  {
    if i > m.ranges[r].lowerKeyIndex {
      CountsUp(m, r, i - 1);
      assert !Breaks(m.keys, i) && (Repeats(m, r, i) || m.keys[i].keyCode != m.keys[i - 1].keyCode);
    }
  }

  /** A code that a range has is chosen in the first range that has it. */
  lemma {:induction false} ChosenSomewhere(m: Tables, code: Code, i: nat, r: nat) returns (q: nat)
    requires ValidRanges(m) && i <= r < |m.ranges| && InRange(m, m.ranges[r], code)
    ensures i <= q <= r && InRange(m, m.ranges[q], code)
    ensures Chosen(m, code, i) == Some(m.ranges[q].lowerKeyIndex + (code - m.keys[m.ranges[q].lowerKeyIndex].keyCode))
    decreases r - i
  {
    if InRange(m, m.ranges[i], code) {
      q := i;
    } else {
      q := ChosenSomewhere(m, code, i + 1, r);
    }
  }

  lemma RightIfLastRepeated(m: Tables, k: nat)
    requires ValidTables(m) && ValidRanges(m) && OnlyLastRepeated(m) && k < |m.keys|
    ensures ChoosesFor(m, m.keys[k].keyCode)
  {
    var code := m.keys[k].keyCode;
    var r := EveryKeyHasARange(m.keys, m.ranges, k, |m.ranges| - 1);
    var q := ChosenSomewhere(m, code, 0, r);
    assert RangeOk(m.keys, m.ranges, q, |m.keys|);
    RangeExtent(m, q);
    var x := m.ranges[q];
    var c := x.lowerKeyIndex + (code - m.keys[x.lowerKeyIndex].keyCode);
    CountsUp(m, q, c);
    FirstOfLast(m, q, c);
  }

  /** The last code comes no earlier than counting allows. */
  lemma FirstOfLast(m: Tables, r: nat, i: nat)
    requires ValidTables(m) && r < |m.ranges| && RangeOk(m.keys, m.ranges, r, |m.keys|)
    requires m.ranges[r].lowerKeyIndex <= i <= m.ranges[r].upperKeyIndex
    ensures m.keys[i].keyCode <= m.keys[m.ranges[r].lowerKeyIndex].keyCode + (i - m.ranges[r].lowerKeyIndex)
  {
    RangeIsUniform(m.keys, m.ranges, r, i);
  }

  /** The first repeated code of a range, and the codes counted up to it. */
  lemma {:induction false} FirstRepeat(m: Tables, r: nat, i: nat) returns (j: nat)
    requires ValidTables(m) && ValidRanges(m) && r < |m.ranges| && RangeOk(m.keys, m.ranges, r, |m.keys|)
    requires Repeats(m, r, i)
    ensures j <= i && Repeats(m, r, j)
    ensures m.keys[j].keyCode == m.keys[m.ranges[r].lowerKeyIndex].keyCode + (j - 1 - m.ranges[r].lowerKeyIndex)
    decreases i
  {
    if q :| m.ranges[r].lowerKeyIndex < q < i && Repeats(m, r, q) {
      j := FirstRepeat(m, r, q);
    } else {
      j := i;
      NoRepeat(m, r, i - 1);
    }
  }

  lemma {:induction false} NoRepeat(m: Tables, r: nat, i: nat)
    requires ValidTables(m) && ValidRanges(m) && r < |m.ranges| && RangeOk(m.keys, m.ranges, r, |m.keys|)
    requires m.ranges[r].lowerKeyIndex <= i <= m.ranges[r].upperKeyIndex
    requires forall q :: m.ranges[r].lowerKeyIndex < q <= i ==> !Repeats(m, r, q)
    ensures m.keys[i].keyCode == m.keys[m.ranges[r].lowerKeyIndex].keyCode + (i - m.ranges[r].lowerKeyIndex)
    decreases i
  {
    if i > m.ranges[r].lowerKeyIndex {
      NoRepeat(m, r, i - 1);
      assert !Breaks(m.keys, i) && !Repeats(m, r, i);
    }
  }

  /** No code is left out on the way to a higher one. */
  lemma {:induction false} NextCode(m: Tables, r: nat, i: nat, code: Code) returns (k: nat)
    requires ValidTables(m) && ValidRanges(m) && r < |m.ranges| && RangeOk(m.keys, m.ranges, r, |m.keys|)
    requires m.ranges[r].lowerKeyIndex <= i <= m.ranges[r].upperKeyIndex
    requires m.keys[i].keyCode < code <= m.keys[m.ranges[r].upperKeyIndex].keyCode
    ensures i < k <= m.ranges[r].upperKeyIndex && m.keys[k].keyCode == code
    decreases m.ranges[r].upperKeyIndex - i
  {
    assert !Breaks(m.keys, i + 1);
    if m.keys[i + 1].keyCode == code {
      k := i + 1;
    } else {
      k := NextCode(m, r, i + 1, code);
    }
  }

  lemma EarlierEndsBefore(m: Tables, q: nat, r: nat)
    requires ValidTables(m) && ValidRanges(m) && q < r < |m.ranges|
    ensures m.keys[m.ranges[q].upperKeyIndex].keyCode <= m.keys[m.ranges[r].lowerKeyIndex].keyCode
  {
    LowersIncrease(m.keys, m.ranges, q, r);
  }

  lemma WrongIfRepeated(m: Tables, r: nat, i: nat)
    requires ValidTables(m) && ValidRanges(m) && r < |m.ranges| && Repeats(m, r, i)
    requires m.keys[i].keyCode != m.keys[m.ranges[r].upperKeyIndex].keyCode
    ensures !ChoosesByCode(m)
  {
    assert RangeOk(m.keys, m.ranges, r, |m.keys|);
    var j := FirstRepeat(m, r, i);
    var code: Code := m.keys[j].keyCode + 1;
    var k := NextCode(m, r, j, code);
    var q := ChosenSomewhere(m, code, 0, r);
    if q < r { EarlierEndsBefore(m, q, r); }
    assert Chosen(m, code, 0) == Some(j);
    assert !ChoosesFor(m, m.keys[k].keyCode);
  }

  /**
   Every code finds a key with that code if and only if the key table repeats, in every range, at most the last
   code. A repeated code in front of it shifts the traps of all keys behind it.
   */
  lemma ChoosesByCodeExactly(m: Tables)
    requires ValidTables(m) && ValidRanges(m)
    ensures ChoosesByCode(m) <==> OnlyLastRepeated(m)
  {
    if OnlyLastRepeated(m) {
      forall k | 0 <= k < |m.keys| ensures ChoosesFor(m, m.keys[k].keyCode) { RightIfLastRepeated(m, k); }
    } else {
      var r: nat, i: nat :| r < |m.ranges| && Repeats(m, r, i)
        && m.keys[i].keyCode != m.keys[m.ranges[r].upperKeyIndex].keyCode;
      WrongIfRepeated(m, r, i);
    }
  }

  /** Three keys, of which the first two have the same code. */
  function TwiceAndNext(code: Code, a: KeyValue, b: KeyValue): Tables
    requires code < 0xffff
  {
    Tables([Key(code, a), Key(code, a), Key(code + 1, b)], [KeyRange(FourBytes, 0, 2)], [])
  }

  /** The key behind a repeated one gets the meaning of the repeated one. */
  lemma RepeatedShifts(code: Code, a: KeyValue, b: KeyValue, ev: KeyEvent, max: int)
    requires code < 0xffff && a.Four? && b.Four? && ev.keyCode == code + 1
    ensures var m := TwiceAndNext(code, a, b);
            && Fits(m) && WellFormed(Image(m))
            && MapBytes(Image(m), ev, max) == if max <= 0 then [] else BytesFor(Chars(a.b0, a.b1, a.b2, a.b3), ev, max)
  {
    var m := TwiceAndNext(code, a, b);
    assert Breaks(m.keys, 0) && !Breaks(m.keys, 1) && !Breaks(m.keys, 2);
    assert RangeOk(m.keys, m.ranges, 0, 3);
    assert KeyBytes(m.keys, 3) == KeyBytes(m.keys, 2) + 4 == KeyBytes(m.keys, 1) + 8 == 12;
    assert Fits(m);
    MapsChosen(m, ev, max);
    assert Chosen(m, code + 1, 0) == Some(1);
  }

  // ---------------------------------------------------------------------------------------
  // From the .keys file to the image and back

  ghost predicate DistinctEntries(entries: seq<Entry>) {
    forall i, j :: 0 <= i < j < |entries| ==> entries[i].code != entries[j].code
  }

  ghost predicate NulFreeEntries(entries: seq<Entry>) {
    forall i :: 0 <= i < |entries| && entries[i].meaning.Text? ==> NulFree(entries[i].meaning.s)
  }

  lemma {:induction false} FindEntryIs(entries: seq<Entry>, i: nat)
    requires DistinctEntries(entries) && i < |entries|
    ensures FindEntry(entries, entries[i].code) == Some(entries[i].meaning)
  {
    if i > 0 { FindEntryIs(entries[1..], i - 1); }
  }

  lemma {:induction false} FindEntryNone(entries: seq<Entry>, code: Code)
    requires forall i :: 0 <= i < |entries| ==> entries[i].code != code
    ensures FindEntry(entries, code) == None
  {
    if entries != [] { FindEntryNone(entries[1..], code); }
  }

  /** With distinct codes, every key is chosen for its own code. */
  lemma ChosenIs(m: Tables, k: nat)
    requires ValidTables(m) && ValidRanges(m) && StrictlySorted(m.keys) && k < |m.keys|
    ensures Chosen(m, m.keys[k].keyCode, 0) == Some(k)
  {
    var r := EveryKeyHasARange(m.keys, m.ranges, k, |m.ranges| - 1);
    ChosenFrom(m, r, k, 0);
  }

  lemma {:induction false} ChosenFrom(m: Tables, r: nat, k: nat, i: nat)
    requires ValidTables(m) && ValidRanges(m) && StrictlySorted(m.keys) && i <= r < |m.ranges|
    requires m.ranges[r].lowerKeyIndex <= k <= m.ranges[r].upperKeyIndex
    ensures Chosen(m, m.keys[k].keyCode, i) == Some(k)
    decreases r - i
  {
    assert RangeOk(m.keys, m.ranges, r, |m.keys|);
    RangeIsUniform(m.keys, m.ranges, r, k);
    if i < r {
      RangesDisjoint(m.keys, m.ranges, i, r, m.keys[k].keyCode);
      ChosenFrom(m, r, k, i + 1);
    }
  }

  lemma {:induction false} ChosenNone(m: Tables, code: Code, i: nat)
    requires ValidTables(m) && ValidRanges(m) && StrictlySorted(m.keys)
    requires forall k :: 0 <= k < |m.keys| ==> m.keys[k].keyCode != code
    ensures Chosen(m, code, i) == None
    decreases |m.ranges| - i
  {
    if i < |m.ranges| {
      var x := m.ranges[i];
      RangeExtent(m, i);
      if InRange(m, x, code) {
        RangeIsUniform(m.keys, m.ranges, i, x.lowerKeyIndex + (code - m.keys[x.lowerKeyIndex].keyCode));
      }
      ChosenNone(m, code, i + 1);
    }
  }

  /** The tables hold the keys of the .keys file, in some order. */
  ghost predicate TablesFor(m: Tables, entries: seq<Entry>) {
    && (forall k :: 0 <= k < |m.keys| ==> HasEntry(m, entries, m.keys[k]))
    && (forall i :: 0 <= i < |entries| ==> HasKey(m, entries[i]))
  }

  ghost predicate HasEntry(m: Tables, entries: seq<Entry>, key: Key) {
    exists i :: 0 <= i < |entries| && KeyFor(key, m.strings, entries[i])
  }

  ghost predicate HasKey(m: Tables, e: Entry) {
    exists k :: 0 <= k < |m.keys| && KeyFor(m.keys[k], m.strings, e)
  }

  lemma PreservedForKey(m: Tables, entries: seq<Entry>, k: nat, ev: KeyEvent, max: int)
    requires Fits(m) && StrictlySorted(m.keys) && WellFormed(Image(m)) && TablesFor(m, entries)
    requires DistinctEntries(entries)
    requires k < |m.keys| && m.keys[k].keyCode == ev.keyCode && max > 0
    ensures MapBytes(Image(m), ev, max) == LookUp(entries, ev, max)
  {
    assert HasEntry(m, entries, m.keys[k]);
    var i :| 0 <= i < |entries| && KeyFor(m.keys[k], m.strings, entries[i]);
    FindEntryIs(entries, i);
    ChosenIs(m, k);
    MapsChosen(m, ev, max);
  }

  lemma PreservedForOthers(m: Tables, entries: seq<Entry>, ev: KeyEvent, max: int)
    requires Fits(m) && StrictlySorted(m.keys) && WellFormed(Image(m)) && TablesFor(m, entries) && max > 0
    requires forall k :: 0 <= k < |m.keys| ==> m.keys[k].keyCode != ev.keyCode
    ensures MapBytes(Image(m), ev, max) == LookUp(entries, ev, max)
  {
    forall i | 0 <= i < |entries| ensures entries[i].code != ev.keyCode {
      assert HasKey(m, entries[i]);
    }
    FindEntryNone(entries, ev.keyCode);
    ChosenNone(m, ev.keyCode, 0);
    MapsChosen(m, ev, max);
  }

  /**
   Meaning is preserved: for every key event, every combination of modifiers and every output limit,
   interpreting the compiled image yields the bytes that the .keys file gives for the key.
   */
  lemma MeaningPreserved(m: Tables, entries: seq<Entry>, ev: KeyEvent, max: int)
    requires Fits(m) && StrictlySorted(m.keys) && TablesFor(m, entries) && DistinctEntries(entries)
    ensures WellFormed(Image(m)) && MapBytes(Image(m), ev, max) == LookUp(entries, ev, max)
  {
    CompiledIsWellFormed(m);
    if max > 0 {
      if k :| 0 <= k < |m.keys| && m.keys[k].keyCode == ev.keyCode {
        PreservedForKey(m, entries, k, ev, max);
      } else {
        PreservedForOthers(m, entries, ev, max);
      }
    }
  }

  // ---------------------------------------------------------------------------------------
  // The whole tool

  lemma SortedTablesFor(keys: seq<Key>, sorted: seq<Key>, ranges: seq<KeyRange>, strings: seq<seq<Byte>>,
                        entries: seq<Entry>)
    requires KeysSay(keys, strings, entries, |entries|)
    requires forall k :: k in keys <==> k in sorted
    ensures TablesFor(Tables(sorted, ranges, strings), entries)
    ensures forall i :: 0 <= i < |sorted| ==> ValidKey(sorted[i], strings)
  {
    var m := Tables(sorted, ranges, strings);
    forall k | 0 <= k < |sorted| ensures HasEntry(m, entries, sorted[k]) {
      assert sorted[k] in keys;
      var i :| 0 <= i < |keys| && keys[i] == sorted[k];
      assert KeyFor(sorted[k], m.strings, entries[i]);
    }
    forall i | 0 <= i < |entries| ensures HasKey(m, entries[i]) {
      assert keys[i] in sorted;
      var k :| 0 <= k < |sorted| && sorted[k] == keys[i];
      assert KeyFor(m.keys[k], m.strings, entries[i]);
    }
  }

  lemma StringsNulFree(strings: seq<seq<Byte>>, entries: seq<Entry>)
    requires StringsOf(strings, entries) && NulFreeEntries(entries)
    ensures forall i :: 0 <= i < |strings| ==> NulFree(strings[i])
  {
    forall j | 0 <= j < |strings| ensures NulFree(strings[j]) {
      assert HasText(entries, strings[j]);
    }
  }

  /** The tables that the tool derives from a .keys file: strings shared, keys sorted, ranges found. */
  function TablesOf(entries: seq<Entry>): Tables {
    var keys := SortByCode(KeysFor(entries, |entries|));
    Tables(keys, RangesFor(keys, |keys|), StringsFor(entries, |entries|))
  }

  /** What holds of these tables. */
  ghost predicate TablesRight(m: Tables, entries: seq<Entry>) {
    && ValidTables(m) && ValidRanges(m) && ValidKeys(m) && TablesFor(m, entries) && |m.keys| == |entries|
    && StringsOf(m.strings, entries) && (DistinctEntries(entries) ==> StrictlySorted(m.keys))
  }

  lemma DistinctKeys(keys: seq<Key>, strings: seq<seq<Byte>>, entries: seq<Entry>)
    requires KeysSay(keys, strings, entries, |entries|) && DistinctEntries(entries)
    ensures DistinctCodes(keys)
  {
    forall i, j | 0 <= i < j < |keys| ensures keys[i].keyCode != keys[j].keyCode {
      assert KeyFor(keys[i], strings, entries[i]) && KeyFor(keys[j], strings, entries[j]);
    }
  }

  method PrepareTables(entries: seq<Entry>) returns (m: Tables)
    requires NulFreeEntries(entries)
    ensures m == TablesOf(entries) && TablesRight(m, entries)
  {
    var keys, strings := BuildTable(entries);
    if DistinctEntries(entries) { DistinctKeys(keys, strings, entries); }
    SortedTable(keys);
    var sorted := SortByCode(keys);
    var ranges := CalculateKeyRanges(sorted);
    SortedTablesFor(keys, sorted, ranges, strings, entries);
    StringsNulFree(strings, entries);
    m := Tables(sorted, ranges, strings);
    PartitionIsValid(m);
  }

  /** The image means what the statements say. */
  ghost predicate MeansEntries(img: seq<Byte>, entries: seq<Entry>)
    requires WellFormed(img)
  {
    forall ev, max :: MapBytes(img, ev, max) == LookUp(entries, ev, max)
  }

  lemma CompiledMeans(m: Tables, entries: seq<Entry>)
    requires Fits(m) && TablesRight(m, entries)
    ensures WellFormed(Image(m)) && (DistinctEntries(entries) ==> MeansEntries(Image(m), entries))
  {
    CompiledIsWellFormed(m);
    if DistinctEntries(entries) {
      forall ev, max ensures MapBytes(Image(m), ev, max) == LookUp(entries, ev, max) {
        MeaningPreserved(m, entries, ev, max);
      }
    }
  }

  /**
   The tool fails exactly if a write would start beyond 65535. A key map that compiles means what the .keys file
   says if no code is used twice.
   */
  method CompileKeyMap(entries: seq<Entry>) returns (r: Compiler.Outcome<seq<Byte>>)
    requires NulFreeEntries(entries)
    ensures TablesRight(TablesOf(entries), entries)
    ensures r.Done? <==> Compiler.LastStart(TablesOf(entries)) <= 65535
    ensures r.Done? ==> r.value == Image(TablesOf(entries)) && WellFormed(r.value)
    ensures r.Done? && DistinctEntries(entries) ==> MeansEntries(r.value, entries)
  {
    var m := PrepareTables(entries);
    r := Compiler.CompileTables(m);
    if r.Done? { CompiledMeans(m, entries); }
  }
}
