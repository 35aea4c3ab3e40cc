/**
 The key map decompiler: reads an image back into the list of its keys. Offsets are 16 bit values,
 and so is the size that the header claims.
 */
module KeyMapDecompiler {
  import opened KeyMapSource
  import opened KeyMapImage
  import opened KeyMapInterpreter
  import opened KeyMapMeaning
  import opened Memory

  const WORD := 0x1_0000

  /** `Fatal` ends the program with an error message; `Overrun` is a read behind the end of the buffer. */
  datatype Reading<+T> = Fatal | Overrun | Done(value: T) {
    predicate IsFailure() {
      !Done?
    }

    function PropagateFailure<U>(): Reading<U>
      requires !Done?
    {
      if Fatal? then Fatal else Overrun
    }

    function Extract(): T
      requires Done?
    {
      value
    }
  }

  // ---------------------------------------------------------------------------------------
  // What is read

  /** `read16` checks the position of the first byte only. */
  function Word(data: seq<Byte>, p: nat): Reading<nat> {
    if p >= |data| then Fatal
    else if p + 1 >= |data| then Overrun
    else Done(Read16(data, p))
  }

  function FourAt(data: seq<Byte>, p: nat): Reading<Meaning> {
    if p + 4 > |data| then Fatal else Done(Chars(data[p], data[p + 1], data[p + 2], data[p + 3]))
  }

  /** Up to `n` bytes in front of the next NUL. */
  function TextAt(data: seq<Byte>, p: nat, n: nat): Reading<seq<Byte>>
    decreases n
  {
    if n == 0 then Done([])
    else if p >= |data| then Fatal
    else if data[p] == 0 then Done([])
    else
      var rest :- TextAt(data, p + 1, n - 1);
      Done([data[p]] + rest)
  }

  function StringTrapAt(data: seq<Byte>, p: nat, n: nat): Reading<Meaning> {
    var q :- Word(data, p);
    var s :- TextAt(data, q, n);
    Done(Text(s))
  }

  function TrapAt(data: seq<Byte>, r: Range, i: nat): Reading<Meaning> {
    if r.kind == 0 then FourAt(data, (r.traps + 4 * i) % WORD)
    else if r.kind == 3 then StringTrapAt(data, (r.traps + 2 * i) % WORD, MAX_BYTE_SEQUENCE_LENGTH)
    else Fatal
  }

  /** The first `n` keys of a range. */
  function RangeKeys(data: seq<Byte>, r: Range, n: nat): Reading<seq<Entry>> {
    if n == 0 then Done([])
    else
      var front :- RangeKeys(data, r, n - 1);
      var meaning :- TrapAt(data, r, n - 1);
      Done(front + [Entry((r.lower + (n - 1)) % WORD, meaning)])
  }

  function RecordRead(data: seq<Byte>, p: nat): Reading<Range> {
    var kind :- Word(data, p);
    var lower :- Word(data, p + 2);
    var upper :- Word(data, p + 4);
    var traps :- Word(data, p + 6);
    Done(Range(kind, lower, upper, traps))
  }

  function TrapCount(r: Range): nat {
    (r.upper - r.lower + 1) % WORD
  }

  function RangeRead(data: seq<Byte>, i: nat): Reading<seq<Entry>> {
    var p :- Word(data, 6 + 2 * i);
    var r :- RecordRead(data, p);
    RangeKeys(data, r, TrapCount(r))
  }

  /** The keys of the first `n` ranges. */
  function RangesRead(data: seq<Byte>, n: nat): Reading<seq<Entry>> {
    if n == 0 then Done([])
    else
      var front :- RangesRead(data, n - 1);
      var keys :- RangeRead(data, n - 1);
      Done(front + keys)
  }

  /** The part of the file that the size in its header stands for. */
  function FileData(file: seq<Byte>): Reading<seq<Byte>> {
    if |file| < 4 || Read16(file, 0) != 0 || |file| < Read16(file, 2) then Fatal
    else Done(file[..Read16(file, 2)])
  }

  function KeysRead(data: seq<Byte>): Reading<seq<Entry>> {
    var keyMapType :- Word(data, 0);
    var size :- Word(data, 2);
    var nRanges :- Word(data, 4);
    RangesRead(data, nRanges)
  }

  function Decompiled(file: seq<Byte>): Reading<seq<Entry>> {
    var data :- FileData(file);
    KeysRead(data)
  }

  // ---------------------------------------------------------------------------------------
  // The tool's loops

  method DecompileString(data: seq<Byte>, stringOffset: nat) returns (r: Reading<seq<Byte>>)
    ensures r == TextAt(data, stringOffset, MAX_BYTE_SEQUENCE_LENGTH)
  {
    var str: seq<Byte>, i := [], 0;
    PrependNothing(TextAt(data, stringOffset, MAX_BYTE_SEQUENCE_LENGTH));
    while i < MAX_BYTE_SEQUENCE_LENGTH
      invariant i == |str| <= MAX_BYTE_SEQUENCE_LENGTH
      invariant TextAt(data, stringOffset, MAX_BYTE_SEQUENCE_LENGTH)
             == Prepend(str, TextAt(data, stringOffset + i, MAX_BYTE_SEQUENCE_LENGTH - i))
    {
      if stringOffset + i >= |data| {
        return Fatal;
      }
      if data[stringOffset + i] == 0 {
        assert str + [] == str;
        return Done(str);
      }
      PrependMore(str, data[stringOffset + i], TextAt(data, stringOffset + i + 1, MAX_BYTE_SEQUENCE_LENGTH - i - 1));
      str := str + [data[stringOffset + i]];
      i := i + 1;
    }
    assert str + [] == str;
    r := Done(str);
  }

  function Prepend<T>(s: seq<T>, r: Reading<seq<T>>): Reading<seq<T>> {
    if r.Done? then Done(s + r.value) else r
  }

  lemma PrependNothing<T>(r: Reading<seq<T>>)
    ensures Prepend([], r) == r
  {
    if r.Done? { assert [] + r.value == r.value; }
  }

  lemma PrependMore<T>(s: seq<T>, x: T, r: Reading<seq<T>>)
    ensures Prepend(s, Prepend([x], r)) == Prepend(s + [x], r)
  {
    if r.Done? { assert s + ([x] + r.value) == s + [x] + r.value; }
  }

  method DecompileKeyRange(data: seq<Byte>, keyRangeOffset: nat) returns (r: Reading<seq<Entry>>)
    ensures var x := RecordRead(data, keyRangeOffset);
            r == if x.Done? then RangeKeys(data, x.value, TrapCount(x.value)) else x.PropagateFailure()
  {
    var x :- RecordRead(data, keyRangeOffset);
    var nKeyTraps, keys := TrapCount(x), [];
    for i := 0 to nKeyTraps
      invariant RangeKeys(data, x, i) == Done(keys)
      invariant RangeKeys(data, x, nKeyTraps).Done? ==> RangeKeys(data, x, i).Done?
    {
      var meaning;
      if x.kind == 0 {
        meaning := FourAt(data, (x.traps + i * 4) % WORD);
      } else if x.kind == 3 {
        var stringOffset := Word(data, (x.traps + i * 2) % WORD);
        if stringOffset.Done? {
          var str := DecompileString(data, stringOffset.value);
          meaning := if str.Done? then Done(Text(str.value)) else str.PropagateFailure();
        } else {
          meaning := stringOffset.PropagateFailure();
        }
      } else {
        meaning := Fatal;
      }
      assert meaning == TrapAt(data, x, i);
      if !meaning.Done? {
        KeysFail(data, x, i, nKeyTraps);
        return meaning.PropagateFailure();
      }
      keys := keys + [Entry((x.lower + i) % WORD, meaning.value)];
    }
    r := Done(keys);
  }

  /** The first failure decides. */
  lemma {:induction false} KeysFail(data: seq<Byte>, r: Range, i: nat, n: nat)
    requires i < n && RangeKeys(data, r, i).Done? && !TrapAt(data, r, i).Done?
    ensures RangeKeys(data, r, n) == TrapAt(data, r, i).PropagateFailure()
  {
    if i < n - 1 { KeysFail(data, r, i, n - 1); }
  }

  lemma {:induction false} RangesFail(data: seq<Byte>, i: nat, n: nat)
    requires i < n && RangesRead(data, i).Done? && !RangeRead(data, i).Done?
    ensures RangesRead(data, n) == RangeRead(data, i)
  {
    if i < n - 1 { RangesFail(data, i, n - 1); }
  }

  method DecompileKeyMap(file: seq<Byte>) returns (r: Reading<seq<Entry>>)
    ensures r == Decompiled(file)
  {
    var data :- FileData(file);
    var keyMapType :- Word(data, 0);
    var size :- Word(data, 2);
    var nRanges :- Word(data, 4);
    var out, offset := [], 6;
    for i := 0 to nRanges
      invariant offset == 6 + 2 * i && RangesRead(data, i) == Done(out)
    {
      var keyRangeOffset := Word(data, offset);
      var keys;
      if keyRangeOffset.Done? {
        keys := DecompileKeyRange(data, keyRangeOffset.value);
      } else {
        keys := keyRangeOffset.PropagateFailure();
      }
      assert keys == RangeRead(data, i);
      if !keys.Done? {
        RangesFail(data, i, nRanges);
        return keys;
      }
      out, offset := out + keys.value, offset + 2;
    }
    r := Done(out);
  }

  // ---------------------------------------------------------------------------------------
  // Decompiling what was compiled

  function EntryOf(m: Tables, k: Key): Entry
    requires ValidKey(k, m.strings)
  {
    Entry(k.keyCode, MeaningOf(k, m.strings))
  }

  /** The keys in the order of their codes. */
  function Listing(m: Tables, n: nat): (s: seq<Entry>)
    requires n <= |m.keys| && ValidKeys(m)
    ensures |s| == n && forall k :: 0 <= k < n ==> s[k] == EntryOf(m, m.keys[k])
  {
    seq(n, k requires 0 <= k < n => EntryOf(m, m.keys[k]))
  }

  lemma {:induction false} TextOf(data: seq<Byte>, p: nat, n: nat)
    requires StringAt(data, p) && |CString(data, p)| <= n
    ensures TextAt(data, p, n) == Done(CString(data, p))
    decreases n
  {
    if n > 0 && data[p] != 0 { TextOf(data, p + 1, n - 1); }
  }

  lemma FourIs(data: seq<Byte>, x: Range, i: nat, p: nat, b0: Byte, b1: Byte, b2: Byte, b3: Byte)
    requires x.kind == 0 && p == x.traps + 4 * i && p + 4 <= |data| < WORD && data[p..p + 4] == [b0, b1, b2, b3]
    ensures TrapAt(data, x, i) == Done(Chars(b0, b1, b2, b3))
  {
    var t := data[p..p + 4];
    assert data[p] == t[0] && data[p + 1] == t[1] && data[p + 2] == t[2] && data[p + 3] == t[3];
  }

  lemma StringIs(data: seq<Byte>, x: Range, i: nat, p: nat, s: seq<Byte>)
    requires x.kind == 3 && p == x.traps + 2 * i && p + 2 <= |data| < WORD
    requires StringAt(data, Read16(data, p)) && CString(data, Read16(data, p)) == s && |s| <= MAX_BYTE_SEQUENCE_LENGTH
    ensures TrapAt(data, x, i) == Done(Text(s))
  {
    StringTrapIs(data, p, s, MAX_BYTE_SEQUENCE_LENGTH);
  }

  lemma StringTrapIs(data: seq<Byte>, p: nat, s: seq<Byte>, n: nat)
    requires p + 2 <= |data| && StringAt(data, Read16(data, p)) && CString(data, Read16(data, p)) == s && |s| <= n
    ensures StringTrapAt(data, p, n) == Done(Text(s))
  {
    TextOf(data, Read16(data, p), n);
  }

  /** Range `x`, which starts with entry `lo`, yields entry `k`. */
  ghost predicate Yields(data: seq<Byte>, x: Range, lo: nat, list: seq<Entry>, k: nat)
    requires lo <= k < |list|
  {
    list[k].code == x.lower + (k - lo) && TrapAt(data, x, k - lo) == Done(list[k].meaning)
  }

  lemma KeysMore(data: seq<Byte>, x: Range, lo: nat, list: seq<Entry>, n: nat, k: nat)
    requires k == lo + n < |list| && Yields(data, x, lo, list, k) && RangeKeys(data, x, n) == Done(list[lo..k])
    ensures RangeKeys(data, x, n + 1) == Done(list[lo..k + 1])
  {
    assert list[k] == Entry((x.lower + n) % WORD, list[k].meaning);
    assert list[lo..k + 1] == list[lo..k] + [list[k]];
  }

  lemma {:induction false} KeysAre(data: seq<Byte>, x: Range, lo: nat, list: seq<Entry>, n: nat)
    requires lo + n <= |list| && forall k :: lo <= k < lo + n ==> Yields(data, x, lo, list, k)
    ensures RangeKeys(data, x, n) == Done(list[lo..lo + n])
    decreases n
  {
    if n > 0 {
      var m, k := n - 1, lo + (n - 1);
      KeysAre(data, x, lo, list, m);
      KeysMore(data, x, lo, list, m, k);
      assert m + 1 == n && k + 1 == lo + n;
    } else {
      assert list[lo..lo + n] == [];
    }
  }

  function KeysBefore(ranges: seq<KeyRange>, n: nat): nat
    requires n <= |ranges|
  {
    if n == 0 then 0 else ranges[n - 1].upperKeyIndex + 1
  }

  ghost predicate YieldsRange(data: seq<Byte>, ranges: seq<KeyRange>, list: seq<Entry>, r: nat)
    requires r < |ranges|
  {
    var lo, hi := KeysBefore(ranges, r), ranges[r].upperKeyIndex + 1;
    lo <= hi <= |list| && RangeRead(data, r) == Done(list[lo..hi])
  }

  lemma {:induction false} RangesAre(data: seq<Byte>, ranges: seq<KeyRange>, list: seq<Entry>, n: nat)
    requires n <= |ranges| && forall r :: 0 <= r < n ==> YieldsRange(data, ranges, list, r)
    ensures KeysBefore(ranges, n) <= |list| && RangesRead(data, n) == Done(list[..KeysBefore(ranges, n)])
  {
    if n > 0 {
      RangesAre(data, ranges, list, n - 1);
      assert YieldsRange(data, ranges, list, n - 1);
      var lo, hi := KeysBefore(ranges, n - 1), KeysBefore(ranges, n);
      assert list[..hi] == list[..lo] + list[lo..hi];
    } else {
      assert list[..0] == [];
    }
  }

  // What an image shows of the tables, without saying how it is put together.

  ghost predicate ShowsRange(img: seq<Byte>, m: Tables, r: nat)
    requires r < |m.ranges| && ValidRanges(m)
  {
    var x := m.ranges[r];
    && RecordAt(img, r)
    && Read16(img, 6 + 2 * r) == RangeOffset(m, r)
    && RangeAt(img, r) == Range(TypeNumber(x.keyType), m.keys[x.lowerKeyIndex].keyCode,
                                m.keys[x.upperKeyIndex].keyCode, TrapOffset(m, x.lowerKeyIndex))
  }

  ghost predicate ShowsKey(img: seq<Byte>, m: Tables, k: nat)
    requires k < |m.keys| && ValidKeys(m)
  {
    var p := TrapOffset(m, k);
    && p + Width(m.keys[k]) <= |img|
    && match m.keys[k].value
       case Four(b0, b1, b2, b3) => img[p..p + 4] == [b0, b1, b2, b3]
       case StringIdx(i) => StringAt(img, Read16(img, p)) && CString(img, Read16(img, p)) == m.strings[i]
  }

  ghost predicate Shows(img: seq<Byte>, m: Tables) {
    && ValidTables(m) && StrictlySorted(m.keys) && ValidRanges(m) && ValidKeys(m)
    && Compiler.LastStart(m) < WORD && ShortStrings(m)
    && |img| == Total(m) >= 6
    && Read16(img, 0) == 0 && Read16(img, 2) == Total(m) % WORD && Read16(img, 4) == |m.ranges|
    && (forall r :: 0 <= r < |m.ranges| ==> ShowsRange(img, m, r))
    && (forall k :: 0 <= k < |m.keys| ==> ShowsKey(img, m, k))
  }

  lemma ImageShowsRange(m: Tables, r: nat)
    requires Fits(m) && r < |m.ranges|
    ensures ShowsRange(Image(m), m, r)
  {
    RangeDecoded(m, r);
  }

  lemma ImageShowsKey(m: Tables, k: nat)
    requires Fits(m) && k < |m.keys|
    ensures ShowsKey(Image(m), m, k)
  {
    assert m.ranges != [];
    ImageTrap(m, k);
    if m.keys[k].value.StringIdx? { StringTrap(m, k); }
  }

  lemma WordIs(img: seq<Byte>, p: nat, w: nat)
    requires p + 2 <= |img| && img[p..p + 2] == BigEndian(w)
    ensures Read16(img, p) == w % WORD
  {
    assert img[p] == img[p..p + 2][0] && img[p + 1] == img[p..p + 2][1];
  }

  lemma HeaderIs(m: Tables)
    requires Fits(m)
    ensures |Image(m)| >= 6 && Read16(Image(m), 0) == 0 && Read16(Image(m), 2) == Total(m) % WORD
  {
    ImageHeader(m);
    WordIs(Image(m), 0, 0);
    WordIs(Image(m), 2, Total(m));
  }

  lemma ImageShows(m: Tables)
    requires Fits(m) && StrictlySorted(m.keys) && ShortStrings(m)
    ensures Shows(Image(m), m)
  {
    HeaderIs(m);
    CountDecoded(m);
    forall r | 0 <= r < |m.ranges| ensures ShowsRange(Image(m), m, r) {
      ImageShowsRange(m, r);
    }
    forall k | 0 <= k < |m.keys| ensures ShowsKey(Image(m), m, k) {
      ImageShowsKey(m, k);
    }
  }

  // ---------------------------------------------------------------------------------------
  // Listing what is shown

  /** Key `k` of range `r`, whose decoded record is `x`. */
  lemma KeyIs(img: seq<Byte>, m: Tables, r: nat, k: nat, x: Range)
    requires ValidTables(m) && StrictlySorted(m.keys) && ValidKeys(m) && ValidRanges(m) && ShortStrings(m)
    requires |img| < WORD
    requires r < |m.ranges| && RangeOk(m.keys, m.ranges, r, |m.keys|)
    requires m.ranges[r].lowerKeyIndex <= k <= m.ranges[r].upperKeyIndex
    requires ShowsRange(img, m, r) && ShowsKey(img, m, k) && x == RangeAt(img, r)
    ensures Yields(img, x, m.ranges[r].lowerKeyIndex, Listing(m, |m.keys|), k)
  {
    RangeIsUniform(m.keys, m.ranges, r, k);
    UniformOffsets(m, r, k);
    var i := k - m.ranges[r].lowerKeyIndex;
    match m.keys[k].value
    case Four(b0, b1, b2, b3) =>
      FourIs(img, x, i, TrapOffset(m, k), b0, b1, b2, b3);
    case StringIdx(idx) =>
      assert ValidKey(m.keys[k], m.strings) && |m.strings[idx]| <= MAX_BYTE_SEQUENCE_LENGTH;
      StringIs(img, x, i, TrapOffset(m, k), m.strings[idx]);
  }

  lemma RangeSize(m: Tables, r: nat)
    requires ValidTables(m) && StrictlySorted(m.keys) && ValidKeys(m) && Compiler.LastStart(m) < WORD && r < |m.ranges|
    ensures RangeOk(m.keys, m.ranges, r, |m.keys|)
    ensures m.ranges[r].upperKeyIndex - m.ranges[r].lowerKeyIndex + 1 < WORD
  {
    RangeExtent(m, r);
    UniformOffsets(m, r, m.ranges[r].upperKeyIndex);
    Compiler.TrapStart(m, m.ranges[r].upperKeyIndex);
  }

  lemma CountIs(img: seq<Byte>, m: Tables, r: nat)
    requires Shows(img, m) && r < |m.ranges|
    ensures ShowsRange(img, m, r)
    ensures TrapCount(RangeAt(img, r)) == m.ranges[r].upperKeyIndex - m.ranges[r].lowerKeyIndex + 1 > 0
  {
    RangeSize(m, r);
    RangeIsUniform(m.keys, m.ranges, r, m.ranges[r].upperKeyIndex);
    assert ShowsRange(img, m, r);
  }

  lemma RangeYields(data: seq<Byte>, ranges: seq<KeyRange>, list: seq<Entry>, r: nat, x: Range)
    requires r < |ranges| && Word(data, 6 + 2 * r).Done? && RecordRead(data, Word(data, 6 + 2 * r).value) == Done(x)
    requires KeysBefore(ranges, r) <= ranges[r].upperKeyIndex < |list|
    requires TrapCount(x) == ranges[r].upperKeyIndex + 1 - KeysBefore(ranges, r)
    requires forall k :: KeysBefore(ranges, r) <= k <= ranges[r].upperKeyIndex ==>
               Yields(data, x, KeysBefore(ranges, r), list, k)
    ensures YieldsRange(data, ranges, list, r)
  {
    KeysAre(data, x, KeysBefore(ranges, r), list, TrapCount(x));
  }

  lemma RangeIs(img: seq<Byte>, m: Tables, r: nat, list: seq<Entry>)
    requires Shows(img, m) && |img| < WORD && r < |m.ranges| && list == Listing(m, |m.keys|)
    ensures YieldsRange(img, m.ranges, list, r)
  {
    CountIs(img, m, r);
    var x := RangeAt(img, r);
    assert RangeOk(m.keys, m.ranges, r, |m.keys|);
    forall k | m.ranges[r].lowerKeyIndex <= k <= m.ranges[r].upperKeyIndex
      ensures Yields(img, x, m.ranges[r].lowerKeyIndex, list, k)
    {
      assert ShowsKey(img, m, k);
      KeyIs(img, m, r, k, x);
    }
    RangeYields(img, m.ranges, list, r, x);
  }

  lemma RangesListed(img: seq<Byte>, ranges: seq<KeyRange>, list: seq<Entry>)
    requires KeysBefore(ranges, |ranges|) == |list|
    requires forall r :: 0 <= r < |ranges| ==> YieldsRange(img, ranges, list, r)
    ensures RangesRead(img, |ranges|) == Done(list)
  {
    RangesAre(img, ranges, list, |ranges|);
    assert list[..|list|] == list;
  }

  lemma DecompiledWhole(img: seq<Byte>, n: nat, list: seq<Entry>)
    requires |img| >= 6 && Read16(img, 0) == 0 && Read16(img, 2) == |img| && Read16(img, 4) == n
    requires RangesRead(img, n) == Done(list)
    ensures Decompiled(img) == Done(list)
  {
    assert img[..|img|] == img;
  }

  /** The decompiler lists all keys, in the order of their codes, if the size of the image is a 16 bit value. */
  lemma ListsAll(img: seq<Byte>, m: Tables, list: seq<Entry>)
    requires Shows(img, m) && |img| < WORD && list == Listing(m, |m.keys|)
    ensures Decompiled(img) == Done(list)
  {
    AllRangesAre(img, m, list);
    SizeIs(img, m);
    DecompiledWhole(img, |m.ranges|, list);
  }

  lemma SizeIs(img: seq<Byte>, m: Tables)
    requires Shows(img, m) && |img| < WORD
    ensures Read16(img, 2) == |img|
  {
    SmallMod(Total(m));
  }

  lemma SmallMod(n: nat)
    requires n < WORD
    ensures n % WORD == n
  {
  }

  lemma AllRangesAre(img: seq<Byte>, m: Tables, list: seq<Entry>)
    requires Shows(img, m) && |img| < WORD && list == Listing(m, |m.keys|)
    ensures RangesRead(img, |m.ranges|) == Done(list)
  {
    forall r | 0 <= r < |m.ranges| ensures YieldsRange(img, m.ranges, list, r) {
      RangeIs(img, m, r, list);
    }
    RangesListed(img, m.ranges, list);
  }

  /** An image of at most 65535 + 17 bytes whose size wrapped around claims at most 16 bytes. */
  lemma WrappedSize(m: Tables)
    requires ValidTables(m) && Compiler.LastStart(m) < WORD && ShortStrings(m) && Total(m) >= WORD
    ensures Total(m) <= WORD + 16 && m.ranges != []
  {
    if m.strings != [] {
      assert |m.strings[|m.strings| - 1]| <= MAX_BYTE_SEQUENCE_LENGTH;
    }
  }

  /** Nothing can be listed from so little: the keys of the first range lie behind it. */
  lemma TooShort(img: seq<Byte>, data: seq<Byte>, n: nat, x: Range)
    requires data <= img && |data| <= 16 && |img| >= 8 && n > 0
    requires Read16(img, 4) == n && Read16(img, 6) == 6 + 2 * n && 14 + 2 * n <= |img|
    requires x == Range(Read16(img, 6 + 2 * n), Read16(img, 8 + 2 * n), Read16(img, 10 + 2 * n),
                        Read16(img, 12 + 2 * n))
    requires x.traps == 6 + 10 * n && TrapCount(x) > 0
    ensures !KeysRead(data).Done?
  {
    if |data| >= 6 {
      assert Read16(data, 4) == n;
      FirstRangeTooShort(img, data, n, x);
      FirstFails(data, n);
    }
  }

  lemma FirstRangeTooShort(img: seq<Byte>, data: seq<Byte>, n: nat, x: Range)
    requires data <= img && |data| <= 16 && |img| >= 8 && n > 0
    requires Read16(img, 6) == 6 + 2 * n && 14 + 2 * n <= |img|
    requires x == Range(Read16(img, 6 + 2 * n), Read16(img, 8 + 2 * n), Read16(img, 10 + 2 * n),
                        Read16(img, 12 + 2 * n))
    requires x.traps == 6 + 10 * n && TrapCount(x) > 0
    ensures !RangeRead(data, 0).Done?
  {
    if Word(data, 6).Done? && RecordRead(data, 6 + 2 * n).Done? {
      assert n == 1 && RecordRead(data, 8) == Done(x);
      assert !TrapAt(data, x, 0).Done?;
      KeysFail(data, x, 0, TrapCount(x));
    }
  }

  lemma FirstFails(data: seq<Byte>, n: nat)
    requires n > 0 && !RangeRead(data, 0).Done?
    ensures !RangesRead(data, n).Done?
  {
    RangesFail(data, 0, n);
  }

  lemma DecompiledPart(img: seq<Byte>, size: nat)
    requires |img| >= 4 && Read16(img, 0) == 0 && Read16(img, 2) == size <= |img|
    ensures Decompiled(img) == KeysRead(img[..size])
  {
  }

  lemma WrappedFails(img: seq<Byte>, m: Tables)
    requires Shows(img, m) && |img| >= WORD
    ensures !Decompiled(img).Done?
  {
    WrappedSize(m);
    assert ShowsRange(img, m, 0);
    FirstRange(img, m, RangeAt(img, 0));
    PartFails(img, |m.ranges|);
  }

  lemma PartFails(img: seq<Byte>, n: nat)
    requires n > 0 && WORD <= |img| <= WORD + 16 && Read16(img, 0) == 0 && Read16(img, 2) == |img| % WORD
    requires Read16(img, 4) == n
    requires RecordAt(img, 0) && Read16(img, 6) == 6 + 2 * n && RangeAt(img, 0).traps == 6 + 10 * n
    requires TrapCount(RangeAt(img, 0)) > 0
    ensures !Decompiled(img).Done?
  {
    var size := |img| - WORD;
    assert |img| % WORD == size;
    DecompiledPart(img, size);
    TooShort(img, img[..size], n, RangeAt(img, 0));
  }

  lemma FirstRange(img: seq<Byte>, m: Tables, x: Range)
    requires Shows(img, m) && m.ranges != [] && RecordAt(img, 0) && x == RangeAt(img, 0)
    ensures Read16(img, 6) == 6 + 2 * |m.ranges| && x.traps == 6 + 10 * |m.ranges| && TrapCount(x) > 0
  {
    CountIs(img, m, 0);
    assert m.ranges[0].lowerKeyIndex == 0 by { assert RangeOk(m.keys, m.ranges, 0, |m.keys|); }
  }

  /**
   What the compiler writes can be listed again if and only if the image is shorter than 64k. The
   compiler also accepts images that are up to 17 bytes longer.
   */
  lemma DecompilesExactly(m: Tables)
    requires Fits(m) && StrictlySorted(m.keys) && ShortStrings(m)
    ensures Decompiled(Image(m)) == Done(Listing(m, |m.keys|)) <==> Total(m) < WORD
    ensures Decompiled(Image(m)).Done? <==> Total(m) < WORD
  {
    ImageShows(m);
    if Total(m) < WORD {
      ListsAll(Image(m), m, Listing(m, |m.keys|));
    } else {
      WrappedFails(Image(m), m);
    }
  }

  /** `n` keys with four characters each and the codes from 0 on. */
  function Plain(n: nat): (keys: seq<Key>)
    requires n <= WORD
    ensures |keys| == n && forall i :: 0 <= i < n ==> keys[i] == Key(i, Four(0, 0, 0, 0))
  {
    seq(n, i requires 0 <= i < n => Key(i, Four(0, 0, 0, 0)))
  }

  lemma {:induction false} PlainBytes(keys: seq<Key>, n: nat)
    requires n <= |keys| && forall i :: 0 <= i < |keys| ==> keys[i].value.Four?
    ensures KeyBytes(keys, n) == 4 * n
  {
    if n > 0 { PlainBytes(keys, n - 1); }
  }

  lemma PlainTables(n: nat, m: Tables)
    requires 0 < n < WORD && m == Tables(Plain(n), [KeyRange(FourBytes, 0, n - 1)], [])
    ensures ValidTables(m) && StrictlySorted(m.keys) && ValidRanges(m) && ValidKeys(m) && Total(m) == 16 + 4 * n
  {
    PlainBytes(m.keys, n);
    assert Breaks(m.keys, 0);
    forall i | 0 < i <= n - 1 ensures !Breaks(m.keys, i) {
      assert m.keys[i] == Key(i, Four(0, 0, 0, 0)) && m.keys[i - 1] == Key(i - 1, Four(0, 0, 0, 0));
    }
    assert RangeOk(m.keys, m.ranges, 0, n);
  }

  /** 16380 keys in one range fill 64k: the compiler accepts them, and the decompiler fails on what it wrote. */
  lemma FullImageFails(m: Tables)
    requires m == Tables(Plain(16380), [KeyRange(FourBytes, 0, 16379)], [])
    ensures Fits(m) && Total(m) == WORD && !Decompiled(Image(m)).Done?
  {
    PlainTables(16380, m);
    DecompilesExactly(m);
  }

  /** The listing has exactly the statements of the .keys file, sorted by their codes. */
  lemma ListingIsSource(m: Tables, entries: seq<Entry>)
    requires ValidTables(m) && StrictlySorted(m.keys) && ValidKeys(m) && TablesFor(m, entries)
    ensures forall e :: e in Listing(m, |m.keys|) <==> e in entries
    ensures forall i, j :: 0 <= i < j < |m.keys| ==> Listing(m, |m.keys|)[i].code < Listing(m, |m.keys|)[j].code
  {
    var list := Listing(m, |m.keys|);
    forall e | e in list ensures e in entries {
      var k :| 0 <= k < |list| && list[k] == e;
      assert HasEntry(m, entries, m.keys[k]);
    }
    forall e | e in entries ensures e in list {
      assert HasKey(m, e);
      var k :| 0 <= k < |m.keys| && KeyFor(m.keys[k], m.strings, e);
      assert list[k] == e;
    }
  }

  // ---------------------------------------------------------------------------------------
  // There and back

  ghost predicate SortedByCode(list: seq<Entry>) {
    forall i, j :: 0 <= i < j < |list| ==> list[i].code < list[j].code
  }

  ghost predicate ShortTexts(entries: seq<Entry>) {
    forall e :: e in entries && e.meaning.Text? ==> |e.meaning.s| <= MAX_BYTE_SEQUENCE_LENGTH
  }

  lemma {:induction false} CountsOnce(list: seq<Entry>, e: Entry)
    requires DistinctEntries(list)
    ensures multiset(list)[e] == if e in list then 1 else 0
  {
    if list != [] {
      var rest := list[1..];
      assert list == [list[0]] + rest;
      CountsOnce(rest, e);
      if e == list[0] {
        assert e !in rest by {
          forall i | 0 <= i < |rest| ensures rest[i] != e { assert rest[i] == list[i + 1]; }
        }
      }
    }
  }

  lemma SameEntries(list: seq<Entry>, entries: seq<Entry>)
    requires DistinctEntries(list) && DistinctEntries(entries) && forall e :: e in list <==> e in entries
    ensures multiset(list) == multiset(entries)
  {
    forall e ensures multiset(list)[e] == multiset(entries)[e] {
      CountsOnce(list, e);
      CountsOnce(entries, e);
    }
  }

  lemma ShortTables(m: Tables, entries: seq<Entry>)
    requires StringsOf(m.strings, entries) && ShortTexts(entries)
    ensures ShortStrings(m)
  {
    forall i | 0 <= i < |m.strings| ensures |m.strings[i]| <= MAX_BYTE_SEQUENCE_LENGTH {
      assert HasText(entries, m.strings[i]);
    }
  }

  /**
   Compiling a .keys file and decompiling the result lists the statements of the file, each once, in the order of
   their codes, if and only if the image is shorter than 64k.
   */
  lemma RoundTrip(m: Tables, entries: seq<Entry>)
    requires TablesRight(m, entries) && Compiler.LastStart(m) <= 65535
    requires DistinctEntries(entries) && ShortTexts(entries)
    ensures Decompiled(Image(m)).Done? <==> Total(m) < WORD
    ensures Decompiled(Image(m)).Done? ==>
              multiset(Decompiled(Image(m)).value) == multiset(entries) && SortedByCode(Decompiled(Image(m)).value)
  {
    ShortTables(m, entries);
    DecompilesExactly(m);
    var list := Listing(m, |m.keys|);
    ListingIsSource(m, entries);
    SameEntries(list, entries);
  }
}
