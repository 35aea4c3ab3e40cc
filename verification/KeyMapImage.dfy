/**
 The byte image of a compiled key map, as a function of the compiler's tables: header, one offset
 per range, one record per range, one trap per key, the strings.
 */
module KeyMapImage {
  import opened KeyMapSource
  import opened Memory

  datatype Tables = Tables(keys: seq<Key>, ranges: seq<KeyRange>, strings: seq<seq<Byte>>)

  ghost predicate ValidTables(m: Tables) {
    && Sorted(m.keys) && Partition(m.keys, m.ranges, |m.keys|)
    && (forall i :: 0 <= i < |m.keys| ==> ValidKey(m.keys[i], m.strings))
    && (forall i :: 0 <= i < |m.strings| ==> NulFree(m.strings[i]))
  }

  // ---------------------------------------------------------------------------------------
  // 16 bit values, big endian

  function Hi(w: nat): Byte {
    (w / 256 % 256) as Byte
  }

  function Lo(w: nat): Byte {
    (w % 256) as Byte
  }

  function BigEndian(w: nat): seq<Byte> {
    [Hi(w), Lo(w)]
  }

  function Read16(img: seq<Byte>, p: nat): (w: nat)
    requires p + 1 < |img|
    ensures w < 0x1_0000
  {
    (img[p] as int) * 256 + img[p + 1] as int
  }

  lemma ReadsBack(img: seq<Byte>, p: nat, w: nat)
    requires p + 2 <= |img| && img[p..p + 2] == BigEndian(w) && w < 0x1_0000
    ensures Read16(img, p) == w
  {
    assert img[p] == img[p..p + 2][0] && img[p + 1] == img[p..p + 2][1];
  }

  // ---------------------------------------------------------------------------------------
  // Layout

  function Width(k: Key): nat {
    if k.value.Four? then 4 else 2
  }

  function KeyBytes(keys: seq<Key>, n: nat): nat
    requires n <= |keys|
  {
    if n == 0 then 0 else KeyBytes(keys, n - 1) + Width(keys[n - 1])
  }

  function StringBytes(strings: seq<seq<Byte>>, n: nat): nat
    requires n <= |strings|
  {
    if n == 0 then 0 else StringBytes(strings, n - 1) + |strings[n - 1]| + 1
  }

  function RangeOffset(m: Tables, i: nat): nat {
    6 + 2 * |m.ranges| + 8 * i
  }

  function TrapOffset(m: Tables, k: nat): nat
    requires k <= |m.keys|
  {
    6 + 10 * |m.ranges| + KeyBytes(m.keys, k)
  }

  function StringOffset(m: Tables, i: nat): nat
    requires i <= |m.strings|
  {
    TrapOffset(m, |m.keys|) + StringBytes(m.strings, i)
  }

  function Total(m: Tables): nat {
    if m.ranges == [] then 6 else StringOffset(m, |m.strings|)
  }

  // ---------------------------------------------------------------------------------------
  // Content

  function Header(m: Tables): seq<Byte> {
    BigEndian(0) + BigEndian(Total(m)) + BigEndian(|m.ranges|)
  }

  function Offsets(m: Tables, n: nat): (s: seq<Byte>)
    ensures |s| == 2 * n
  {
    if n == 0 then [] else Offsets(m, n - 1) + BigEndian(RangeOffset(m, n - 1))
  }

  ghost predicate ValidRange(m: Tables, r: KeyRange) {
    r.lowerKeyIndex < |m.keys| && r.upperKeyIndex < |m.keys|
  }

  function Record(m: Tables, r: KeyRange): (s: seq<Byte>)
    requires ValidRange(m, r)
    ensures |s| == 8
  {
    BigEndian(TypeNumber(r.keyType)) + BigEndian(m.keys[r.lowerKeyIndex].keyCode)
    + BigEndian(m.keys[r.upperKeyIndex].keyCode) + BigEndian(TrapOffset(m, r.lowerKeyIndex))
  }

  ghost predicate ValidRanges(m: Tables) {
    forall i :: 0 <= i < |m.ranges| ==> ValidRange(m, m.ranges[i])
  }

  function Records(m: Tables, n: nat): (s: seq<Byte>)
    requires n <= |m.ranges| && ValidRanges(m)
    ensures |s| == 8 * n
  {
    if n == 0 then [] else Records(m, n - 1) + Record(m, m.ranges[n - 1])
  }

  function Trap(m: Tables, k: Key): (s: seq<Byte>)
    requires ValidKey(k, m.strings)
    ensures |s| == Width(k)
  {
    match k.value
    case Four(b0, b1, b2, b3) => [b0, b1, b2, b3]
    case StringIdx(i) => BigEndian(StringOffset(m, i))
  }

  ghost predicate ValidKeys(m: Tables) {
    forall i :: 0 <= i < |m.keys| ==> ValidKey(m.keys[i], m.strings)
  }

  function Traps(m: Tables, n: nat): (s: seq<Byte>)
    requires n <= |m.keys| && ValidKeys(m)
    ensures |s| == KeyBytes(m.keys, n)
  {
    if n == 0 then [] else Traps(m, n - 1) + Trap(m, m.keys[n - 1])
  }

  function Strings(m: Tables, n: nat): (s: seq<Byte>)
    requires n <= |m.strings|
    ensures |s| == StringBytes(m.strings, n)
  {
    if n == 0 then [] else Strings(m, n - 1) + m.strings[n - 1] + [0]
  }

  function UpToOffsets(m: Tables, n: nat): (s: seq<Byte>)
    ensures |s| == 6 + 2 * n
  {
    Header(m) + Offsets(m, n)
  }

  function UpToRecords(m: Tables, n: nat): (s: seq<Byte>)
    requires n <= |m.ranges| && ValidRanges(m)
    ensures |s| == RangeOffset(m, n)
  {
    UpToOffsets(m, |m.ranges|) + Records(m, n)
  }

  function UpToTraps(m: Tables, n: nat): (s: seq<Byte>)
    requires n <= |m.keys| && ValidRanges(m) && ValidKeys(m)
    ensures |s| == TrapOffset(m, n)
  {
    UpToRecords(m, |m.ranges|) + Traps(m, n)
  }

  function UpToStrings(m: Tables, n: nat): (s: seq<Byte>)
    requires n <= |m.strings| && ValidRanges(m) && ValidKeys(m)
    ensures |s| == StringOffset(m, n)
  {
    UpToTraps(m, |m.keys|) + Strings(m, n)
  }

  function Image(m: Tables): (s: seq<Byte>)
    requires ValidRanges(m) && ValidKeys(m)
    ensures |s| == Total(m)
  {
    if m.ranges == [] then Header(m) else UpToStrings(m, |m.strings|)
  }

  // ---------------------------------------------------------------------------------------
  // What stands where

  lemma PartitionIsValid(m: Tables)
    requires ValidTables(m)
    ensures ValidRanges(m) && ValidKeys(m)
  {
    forall i | 0 <= i < |m.ranges| ensures ValidRange(m, m.ranges[i]) {
      assert RangeOk(m.keys, m.ranges, i, |m.keys|);
    }
  }

  lemma SliceOfFront(a: seq<Byte>, b: seq<Byte>, p: nat, q: nat)
    requires p <= q <= |a|
    ensures (a + b)[p..q] == a[p..q]
  {
  }

  lemma SliceOfBack(a: seq<Byte>, b: seq<Byte>)
    ensures (a + b)[|a|..|a| + |b|] == b
  {
  }

  lemma {:induction false} OffsetsAt(m: Tables, n: nat, i: nat)
    requires i < n
    ensures Offsets(m, n)[2 * i..2 * i + 2] == BigEndian(RangeOffset(m, i))
  {
    var front, last := Offsets(m, n - 1), BigEndian(RangeOffset(m, n - 1));
    if i < n - 1 {
      OffsetsAt(m, n - 1, i);
      SliceOfFront(front, last, 2 * i, 2 * i + 2);
    } else {
      SliceOfBack(front, last);
    }
  }

  lemma {:induction false} RecordsAt(m: Tables, n: nat, i: nat)
    requires i < n <= |m.ranges| && ValidRanges(m)
    ensures Records(m, n)[8 * i..8 * i + 8] == Record(m, m.ranges[i])
  {
    var front, last := Records(m, n - 1), Record(m, m.ranges[n - 1]);
    if i < n - 1 {
      RecordsAt(m, n - 1, i);
      SliceOfFront(front, last, 8 * i, 8 * i + 8);
    } else {
      SliceOfBack(front, last);
    }
  }

  lemma {:induction false} KeyBytesMonotone(keys: seq<Key>, i: nat, n: nat)
    requires i < n <= |keys|
    ensures KeyBytes(keys, i) + Width(keys[i]) <= KeyBytes(keys, n)
    decreases n
  {
    if i < n - 1 { KeyBytesMonotone(keys, i, n - 1); }
  }

  lemma {:induction false} TrapsAt(m: Tables, n: nat, k: nat)
    requires k < n <= |m.keys| && ValidKeys(m)
    ensures var p := KeyBytes(m.keys, k);
            p + Width(m.keys[k]) <= |Traps(m, n)| && Traps(m, n)[p..p + Width(m.keys[k])] == Trap(m, m.keys[k])
  {
    KeyBytesMonotone(m.keys, k, n);
    var p, q, last := KeyBytes(m.keys, k), KeyBytes(m.keys, k) + Width(m.keys[k]), n - 1;
    if k < last {
      TrapsAt(m, last, k);
      SliceOfFront(Traps(m, last), Trap(m, m.keys[last]), p, q);
    } else {
      SliceOfBack(Traps(m, last), Trap(m, m.keys[last]));
    }
  }

  lemma {:induction false} StringBytesMonotone(strings: seq<seq<Byte>>, i: nat, n: nat)
    requires i < n <= |strings|
    ensures StringBytes(strings, i) + |strings[i]| + 1 <= StringBytes(strings, n)
    decreases n
  {
    if i < n - 1 { StringBytesMonotone(strings, i, n - 1); }
  }

  lemma {:induction false} StringsAt(m: Tables, n: nat, i: nat)
    requires i < n <= |m.strings|
    ensures var p := StringBytes(m.strings, i);
            p + |m.strings[i]| + 1 <= |Strings(m, n)| && Strings(m, n)[p..p + |m.strings[i]| + 1] == m.strings[i] + [0]
  {
    StringBytesMonotone(m.strings, i, n);
    var p, q := StringBytes(m.strings, i), StringBytes(m.strings, i) + |m.strings[i]| + 1;
    var front, last := Strings(m, n - 1), m.strings[n - 1] + [0];
    assert Strings(m, n) == front + last;
    if i < n - 1 {
      StringsAt(m, n - 1, i);
      SliceOfFront(front, last, p, q);
    } else {
      SliceOfBack(front, last);
    }
  }

  /** A slice of the tail of a concatenation. */
  lemma SliceOfTail(a: seq<Byte>, b: seq<Byte>, img: seq<Byte>, p: nat, q: nat)
    requires a + b <= img && p <= q <= |b|
    ensures img[|a| + p..|a| + q] == b[p..q]
  {
    assert img[..|a + b|] == a + b;
    assert img[|a| + p..|a| + q] == (a + b)[|a| + p..|a| + q];
  }

  lemma Prefixes(m: Tables)
    requires ValidRanges(m) && ValidKeys(m) && m.ranges != []
    ensures UpToOffsets(m, |m.ranges|) <= Image(m)
    ensures UpToRecords(m, |m.ranges|) <= Image(m)
    ensures UpToTraps(m, |m.keys|) <= Image(m)
    ensures Header(m) <= Image(m)
  {
  }

  lemma ImageHeader(m: Tables)
    requires ValidRanges(m) && ValidKeys(m)
    ensures Image(m)[0..2] == BigEndian(0) && Image(m)[2..4] == BigEndian(Total(m))
    ensures Image(m)[4..6] == BigEndian(|m.ranges|)
  {
    if m.ranges != [] { Prefixes(m); }
    assert Image(m)[..6] == Header(m);
    assert Image(m)[0..2] == Image(m)[..6][0..2] && Image(m)[2..4] == Image(m)[..6][2..4]
           && Image(m)[4..6] == Image(m)[..6][4..6];
  }

  lemma ImageRangeOffset(m: Tables, i: nat)
    requires ValidRanges(m) && ValidKeys(m) && i < |m.ranges|
    ensures 6 + 2 * i + 2 <= |Image(m)| && Image(m)[6 + 2 * i..6 + 2 * i + 2] == BigEndian(RangeOffset(m, i))
  {
    Prefixes(m);
    OffsetsAt(m, |m.ranges|, i);
    SliceOfTail(Header(m), Offsets(m, |m.ranges|), Image(m), 2 * i, 2 * i + 2);
  }

  lemma ImageRecord(m: Tables, i: nat)
    requires ValidRanges(m) && ValidKeys(m) && i < |m.ranges|
    ensures var p := RangeOffset(m, i); p + 8 <= |Image(m)| && Image(m)[p..p + 8] == Record(m, m.ranges[i])
  {
    Prefixes(m);
    RecordIn(m, i, Image(m));
  }

  lemma RecordIn(m: Tables, i: nat, img: seq<Byte>)
    requires ValidRanges(m) && i < |m.ranges| && UpToRecords(m, |m.ranges|) <= img
    ensures var p := RangeOffset(m, i); p + 8 <= |img| && img[p..p + 8] == Record(m, m.ranges[i])
  {
    RecordsAt(m, |m.ranges|, i);
    SliceOfTail(UpToOffsets(m, |m.ranges|), Records(m, |m.ranges|), img, 8 * i, 8 * i + 8);
  }

  lemma ImageTrap(m: Tables, k: nat)
    requires ValidRanges(m) && ValidKeys(m) && m.ranges != [] && k < |m.keys|
    ensures var p := TrapOffset(m, k);
            p + Width(m.keys[k]) <= |Image(m)| && Image(m)[p..p + Width(m.keys[k])] == Trap(m, m.keys[k])
  {
    Prefixes(m);
    TrapsAt(m, |m.keys|, k);
    SliceOfTail(UpToRecords(m, |m.ranges|), Traps(m, |m.keys|), Image(m),
                KeyBytes(m.keys, k), KeyBytes(m.keys, k) + Width(m.keys[k]));
  }

  lemma ImageString(m: Tables, i: nat)
    requires ValidRanges(m) && ValidKeys(m) && m.ranges != [] && i < |m.strings|
    ensures var p := StringOffset(m, i);
            p + |m.strings[i]| + 1 <= |Image(m)| && Image(m)[p..p + |m.strings[i]| + 1] == m.strings[i] + [0]
  {
    StringsAt(m, |m.strings|, i);
    SliceOfTail(UpToTraps(m, |m.keys|), Strings(m, |m.strings|), Image(m),
                StringBytes(m.strings, i), StringBytes(m.strings, i) + |m.strings[i]| + 1);
  }
}
