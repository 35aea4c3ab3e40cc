/** The key map compiler: writes the image front to back and back-patches the offsets. */
module KeyMapCompiler {
  import opened KeyMapSource
  import opened KeyMapImage
  import opened Memory

  /** `Fatal` stands for ending the program with an error message. */
  datatype Outcome<+T> = Fatal | Done(value: T) {
    predicate IsFailure() {
      Fatal?
    }

    function PropagateFailure<U>(): Outcome<U>
      requires Fatal?
    {
      Fatal
    }

    function Extract(): T
      requires Done?
    {
      value
    }
  }

  /** What a not yet known offset will refer to. */
  datatype Label = RangeLabel(r: nat) | StringLabel(i: nat)

  datatype PatchLocation = PatchLocation(offset: nat, target: Label)

  function Patched(bytes: seq<Byte>, offset: nat, w: nat): (r: seq<Byte>)
    requires offset + 2 <= |bytes|
    ensures |r| == |bytes|
  {
    bytes[offset := Hi(w)][offset + 1 := Lo(w)]
  }

  ghost predicate LocsInside(locs: seq<PatchLocation>, n: nat) {
    forall j :: 0 <= j < |locs| ==> locs[j].offset + 2 <= n
  }

  /** Patching every location that carries the target. */
  function PatchedAll(bytes: seq<Byte>, locs: seq<PatchLocation>, target: Label, w: nat): (r: seq<Byte>)
    requires LocsInside(locs, |bytes|)
    ensures |r| == |bytes|
  {
    if locs == [] then bytes
    else
      var last := |locs| - 1;
      var r := PatchedAll(bytes, locs[..last], target, w);
      if locs[last].target == target then Patched(r, locs[last].offset, w) else r
  }

  class CompiledKeyMap {
    var bytes: seq<Byte>
    var patchLocs: seq<PatchLocation>

    constructor ()
      ensures bytes == [] && patchLocs == []
    {
      bytes, patchLocs := [], [];
    }

    function LocationCounter(): nat
      reads this
    {
      |bytes| % 0x1_0000
    }

    method AddPatchLocation(offset: nat, target: Label)
      modifies this`patchLocs
      ensures patchLocs == old(patchLocs) + [PatchLocation(offset, target)]
    {
      patchLocs := patchLocs + [PatchLocation(offset, target)];
    }

    method Patch16(offset: nat, w: nat)
      requires offset + 2 <= |bytes|
      modifies this`bytes
      ensures bytes == Patched(old(bytes), offset, w)
    {
      bytes := bytes[offset := Hi(w)];
      bytes := bytes[offset + 1 := Lo(w)];
    }

    method PatchLabeled16(target: Label, w: nat)
      requires LocsInside(patchLocs, |bytes|)
      modifies this`bytes
      ensures bytes == PatchedAll(old(bytes), patchLocs, target, w)
    {
      for i := 0 to |patchLocs|
        invariant bytes == PatchedAll(old(bytes), patchLocs[..i], target, w)
      {
        assert patchLocs[..i + 1][..i] == patchLocs[..i];
        if patchLocs[i].target == target {
          Patch16(patchLocs[i].offset, w);
        }
      }
      assert patchLocs[..|patchLocs|] == patchLocs;
    }

    /** Fails if the image is too big already. */
    method Write16(w: nat) returns (r: Outcome<nat>)
      modifies this`bytes
      ensures r == if |old(bytes)| > 65535 then Fatal else Done(|old(bytes)|)
      ensures bytes == if r.Done? then old(bytes) + BigEndian(w) else old(bytes)
    {
      if |bytes| > 65535 {
        return Fatal;
      }
      bytes := bytes + [Hi(w), Lo(w)];
      return Done(|bytes| - 2);
    }

    method Write8(b: Byte) returns (r: Outcome<nat>)
      modifies this`bytes
      ensures r == if |old(bytes)| > 65535 then Fatal else Done(|old(bytes)|)
      ensures bytes == if r.Done? then old(bytes) + [b] else old(bytes)
    {
      if |bytes| > 65535 {
        return Fatal;
      }
      bytes := bytes + [b];
      return Done(|bytes| - 1);
    }

    method WriteString(str: seq<Byte>) returns (r: Outcome<nat>)
      modifies this`bytes
      ensures r == if |old(bytes)| > 65535 then Fatal else Done(|old(bytes)|)
      ensures bytes == if r.Done? then old(bytes) + str + [0] else old(bytes)
    {
      if |bytes| > 65535 {
        return Fatal;
      }
      var start := |bytes|;
      for i := 0 to |str|
        invariant bytes == old(bytes) + str[..i]
      {
        bytes := bytes + [str[i]];
      }
      assert str[..|str|] == str;
      bytes := bytes + [0];
      return Done(start);
    }
  }

  // ---------------------------------------------------------------------------------------
  // Images with holes

  /** The address that a target stands for. */
  function Address(m: Tables, target: Label): nat
    requires ValidRanges(m) && LabelOk(m, target)
  {
    match target
    case RangeLabel(r) => TrapOffset(m, m.ranges[r].lowerKeyIndex)
    case StringLabel(i) => StringOffset(m, i)
  }

  predicate LabelOk(m: Tables, target: Label) {
    match target
    case RangeLabel(r) => r < |m.ranges|
    case StringLabel(i) => i < |m.strings|
  }

  /** The ideal image holds, at every patch location, the address of the target. */
  ghost predicate LocsOk(m: Tables, ideal: seq<Byte>, locs: seq<PatchLocation>) {
    && ValidRanges(m)
    && forall j :: 0 <= j < |locs| ==>
         LabelOk(m, locs[j].target) && locs[j].offset + 2 <= |ideal|
           && ideal[locs[j].offset..locs[j].offset + 2] == BigEndian(Address(m, locs[j].target))
  }

  /** How far the compiler has got: header slots `a..b`, ranges and strings not yet addressed. */
  datatype Progress = Progress(a: nat, b: nat, rangesDone: nat, stringsDone: nat)

  predicate Unresolved(target: Label, pr: Progress) {
    match target
    case RangeLabel(r) => r >= pr.rangesDone
    case StringLabel(i) => i >= pr.stringsDone
  }

  predicate At(loc: PatchLocation, p: int) {
    p == loc.offset || p == loc.offset + 1
  }

  ghost predicate Awaited(locs: seq<PatchLocation>, pr: Progress, p: int) {
    exists j :: 0 <= j < |locs| && Unresolved(locs[j].target, pr) && At(locs[j], p)
  }

  /** Position `p` still waits for its final value: the size, a range offset, a labelled offset. */
  ghost predicate Hole(locs: seq<PatchLocation>, pr: Progress, p: int) {
    p == 2 || p == 3 || 6 + 2 * pr.a <= p < 6 + 2 * pr.b || Awaited(locs, pr, p)
  }

  ghost predicate Filled(bytes: seq<Byte>, ideal: seq<Byte>, locs: seq<PatchLocation>, pr: Progress) {
    |bytes| == |ideal| && forall p :: 0 <= p < |bytes| && !Hole(locs, pr, p) ==> bytes[p] == ideal[p]
  }

  ghost predicate CoveredBy(locs: seq<PatchLocation>, target: Label, p: int) {
    exists j :: 0 <= j < |locs| && locs[j].target == target && At(locs[j], p)
  }

  lemma CoveredByLast(locs: seq<PatchLocation>, front: seq<PatchLocation>, last: nat, target: Label, p: int)
    requires last < |locs| && last == |locs| - 1 && front == locs[..last]
    ensures CoveredBy(locs, target, p) <==>
              CoveredBy(front, target, p) || (locs[last].target == target && At(locs[last], p))
  {
    if CoveredBy(front, target, p) {
      var j :| 0 <= j < |front| && front[j].target == target && At(front[j], p);
      assert locs[j].target == target && At(locs[j], p);
    }
    if CoveredBy(locs, target, p) {
      var j :| 0 <= j < |locs| && locs[j].target == target && At(locs[j], p);
      if j < last { assert front[j].target == target && At(front[j], p); }
    }
  }

  lemma PatchedAt(bytes: seq<Byte>, ideal: seq<Byte>, loc: PatchLocation, w: nat, p: nat)
    requires |bytes| == |ideal| && loc.offset + 2 <= |bytes| && p < |bytes|
    requires ideal[loc.offset..loc.offset + 2] == BigEndian(w)
    ensures Patched(bytes, loc.offset, w)[p] == if At(loc, p) then ideal[p] else bytes[p]
  {
    var o := loc.offset;
    assert ideal[o] == ideal[o..o + 2][0] && ideal[o + 1] == ideal[o..o + 2][1];
  }

  lemma {:induction false} PatchedAllAt(bytes: seq<Byte>, ideal: seq<Byte>, locs: seq<PatchLocation>, target: Label,
                                        w: nat, p: nat)
    requires |bytes| == |ideal| && LocsInside(locs, |bytes|) && p < |bytes|
    requires forall j :: 0 <= j < |locs| && locs[j].target == target ==>
               ideal[locs[j].offset..locs[j].offset + 2] == BigEndian(w)
    ensures PatchedAll(bytes, locs, target, w)[p] == if CoveredBy(locs, target, p) then ideal[p] else bytes[p]
    decreases |locs|
  {
    if locs != [] {
      var last := |locs| - 1;
      var front := locs[..last];
      PatchedAllAt(bytes, ideal, front, target, w, p);
      CoveredByLast(locs, front, last, target, p);
      if locs[last].target == target {
        PatchedAt(PatchedAll(bytes, front, target, w), ideal, locs[last], w, p);
      }
    }
  }

  /** Appending bytes that are final. */
  lemma FilledAppend(bytes: seq<Byte>, ideal: seq<Byte>, locs: seq<PatchLocation>, pr: Progress, piece: seq<Byte>)
    requires Filled(bytes, ideal, locs, pr)
    ensures Filled(bytes + piece, ideal + piece, locs, pr)
  {
  }

  /** Appending a place holder for a labelled offset. */
  lemma FilledLabel(bytes: seq<Byte>, ideal: seq<Byte>, locs: seq<PatchLocation>, pr: Progress, w: nat, target: Label)
    requires Filled(bytes, ideal, locs, pr) && Unresolved(target, pr)
    ensures Filled(bytes + BigEndian(0), ideal + BigEndian(w), locs + [PatchLocation(|bytes|, target)], pr)
  {
    var locs' := locs + [PatchLocation(|bytes|, target)];
    forall p | 0 <= p < |bytes| + 2 && !Hole(locs', pr, p)
      ensures (bytes + BigEndian(0))[p] == (ideal + BigEndian(w))[p] {
      assert locs'[|locs|] == PatchLocation(|bytes|, target);
      assert !At(locs'[|locs|], p);
      forall j | 0 <= j < |locs| && Unresolved(locs[j].target, pr) ensures !At(locs[j], p) {
        assert locs'[j] == locs[j];
      }
    }
  }

  lemma LocsOkAppend(m: Tables, ideal: seq<Byte>, locs: seq<PatchLocation>, piece: seq<Byte>)
    requires LocsOk(m, ideal, locs)
    ensures LocsOk(m, ideal + piece, locs)
  {
    forall j | 0 <= j < |locs|
      ensures (ideal + piece)[locs[j].offset..locs[j].offset + 2] == BigEndian(Address(m, locs[j].target)) {
      assert (ideal + piece)[locs[j].offset..locs[j].offset + 2] == ideal[locs[j].offset..locs[j].offset + 2];
    }
  }

  lemma LocsOkLabel(m: Tables, ideal: seq<Byte>, locs: seq<PatchLocation>, target: Label)
    requires LocsOk(m, ideal, locs) && LabelOk(m, target)
    ensures LocsOk(m, ideal + BigEndian(Address(m, target)), locs + [PatchLocation(|ideal|, target)])
  {
    LocsOkAppend(m, ideal, locs, BigEndian(Address(m, target)));
    var ideal' := ideal + BigEndian(Address(m, target));
    assert ideal'[|ideal|..|ideal| + 2] == BigEndian(Address(m, target));
  }

  /** Resolving the next range or the next string. */
  lemma FilledResolve(m: Tables, bytes: seq<Byte>, ideal: seq<Byte>, locs: seq<PatchLocation>, pr: Progress,
                      pr': Progress, target: Label, w: nat)
    requires Filled(bytes, ideal, locs, pr) && LocsOk(m, ideal, locs) && LabelOk(m, target)
    requires BigEndian(w) == BigEndian(Address(m, target))
    requires pr'.a == pr.a && pr'.b == pr.b
    requires forall l :: Unresolved(l, pr) <==> Unresolved(l, pr') || l == target
    ensures LocsInside(locs, |bytes|) && Filled(PatchedAll(bytes, locs, target, w), ideal, locs, pr')
  {
    var r := PatchedAll(bytes, locs, target, w);
    forall p | 0 <= p < |bytes| && !Hole(locs, pr', p) ensures r[p] == ideal[p] {
      PatchedAllAt(bytes, ideal, locs, target, w, p);
      if !CoveredBy(locs, target, p) {
        forall j | 0 <= j < |locs| && Unresolved(locs[j].target, pr) ensures !At(locs[j], p) {
          assert Unresolved(locs[j].target, pr') || locs[j].target == target;
        }
      }
    }
  }

  /** Appending a place holder for a range offset in the header. */
  lemma FilledSlot(bytes: seq<Byte>, ideal: seq<Byte>, locs: seq<PatchLocation>, pr: Progress, w: nat)
    requires Filled(bytes, ideal, locs, pr) && |bytes| == 6 + 2 * pr.b && pr.a <= pr.b
    ensures Filled(bytes + BigEndian(0), ideal + BigEndian(w), locs, pr.(b := pr.b + 1))
  {
    var pr' := pr.(b := pr.b + 1);
    forall p | 0 <= p < |bytes| && !Hole(locs, pr', p) ensures bytes[p] == ideal[p] {
      assert Awaited(locs, pr, p) ==> Awaited(locs, pr', p);
      assert !Hole(locs, pr, p);
    }
  }

  /** Filling in the next range offset in the header. */
  lemma FilledSlotPatched(bytes: seq<Byte>, ideal: seq<Byte>, locs: seq<PatchLocation>, pr: Progress, w: nat)
    requires Filled(bytes, ideal, locs, pr) && 6 + 2 * pr.a + 2 <= |bytes|
    requires ideal[6 + 2 * pr.a..6 + 2 * pr.a + 2] == BigEndian(w)
    ensures Filled(Patched(bytes, 6 + 2 * pr.a, w), ideal, locs, pr.(a := pr.a + 1))
  {
    var o := 6 + 2 * pr.a;
    var pr' := pr.(a := pr.a + 1);
    assert ideal[o] == ideal[o..o + 2][0] && ideal[o + 1] == ideal[o..o + 2][1];
    forall p | 0 <= p < |bytes| && !Hole(locs, pr', p) && p != o && p != o + 1 ensures bytes[p] == ideal[p] {
      assert Awaited(locs, pr, p) ==> Awaited(locs, pr', p);
      assert !Hole(locs, pr, p);
    }
  }

  /** Filling in the size, the last hole. */
  lemma FilledSize(m: Tables, bytes: seq<Byte>, ideal: seq<Byte>, locs: seq<PatchLocation>, pr: Progress, w: nat)
    requires Filled(bytes, ideal, locs, pr) && LocsOk(m, ideal, locs) && |bytes| >= 4 && ideal[2..4] == BigEndian(w)
    requires pr.a >= pr.b && pr.rangesDone >= |m.ranges| && pr.stringsDone >= |m.strings|
    ensures Patched(bytes, 2, w) == ideal
  {
    assert ideal[2] == ideal[2..4][0] && ideal[3] == ideal[2..4][1];
    forall p | 0 <= p < |bytes| && p != 2 && p != 3 ensures bytes[p] == ideal[p] {
      assert !Awaited(locs, pr, p);
      assert !Hole(locs, pr, p);
    }
  }

  // ---------------------------------------------------------------------------------------
  // The phases of compileKeyMap_Type0

  ghost predicate Stage(bytes: seq<Byte>, locs: seq<PatchLocation>, m: Tables, ideal: seq<Byte>, pr: Progress) {
    Filled(bytes, ideal, locs, pr) && LocsOk(m, ideal, locs)
  }

  /** Where the last write to the image starts. */
  function LastStart(m: Tables): int {
    if m.ranges == [] then 4
    else if m.strings != [] then StringOffset(m, |m.strings| - 1)
    else TrapOffset(m, |m.keys|) - 1
  }

  method WriteHeader(ck: CompiledKeyMap, m: Tables) returns (r: Outcome<nat>)
    requires ck.bytes == [] && ck.patchLocs == [] && ValidRanges(m)
    modifies ck
    ensures r == Done(2) && |ck.bytes| == 6 && ck.patchLocs == []
    ensures forall i :: Stage(ck.bytes, ck.patchLocs, m, Header(m), Progress(0, 0, 0, i))
  {
    var _ := ck.Write16(0);
    var keyMapSizeOffset := ck.Write16(0);
    var _ := ck.Write16(|m.ranges|);
    return keyMapSizeOffset;
  }

  method WriteSlots(ck: CompiledKeyMap, m: Tables) returns (r: Outcome<()>)
    requires Stage(ck.bytes, ck.patchLocs, m, Header(m), Progress(0, 0, 0, 0)) && |ck.bytes| == 6
    requires 4 + 2 * |m.ranges| <= LastStart(m)
    modifies ck
    ensures r.Done? ==> Stage(ck.bytes, ck.patchLocs, m, UpToOffsets(m, |m.ranges|), Progress(0, |m.ranges|, 0, 0))
    ensures r.Fatal? ==> LastStart(m) > 65535
  {
    assert UpToOffsets(m, 0) == Header(m);
    for i := 0 to |m.ranges|
      invariant Stage(ck.bytes, ck.patchLocs, m, UpToOffsets(m, i), Progress(0, i, 0, 0))
    {
      var _ :- AppendSlot(ck, m, i);
    }
    r := Done(());
  }

  method AppendSlot(ck: CompiledKeyMap, m: Tables, i: nat) returns (r: Outcome<nat>)
    requires Stage(ck.bytes, ck.patchLocs, m, UpToOffsets(m, i), Progress(0, i, 0, 0)) && 6 + 2 * i <= LastStart(m)
    modifies ck`bytes
    ensures r.Done? ==> Stage(ck.bytes, ck.patchLocs, m, UpToOffsets(m, i + 1), Progress(0, i + 1, 0, 0))
    ensures r.Fatal? ==> LastStart(m) > 65535
  {
    FilledSlot(ck.bytes, UpToOffsets(m, i), ck.patchLocs, Progress(0, i, 0, 0), RangeOffset(m, i));
    LocsOkAppend(m, UpToOffsets(m, i), ck.patchLocs, BigEndian(RangeOffset(m, i)));
    assert UpToOffsets(m, i + 1) == UpToOffsets(m, i) + BigEndian(RangeOffset(m, i));
    r := ck.Write16(0);
  }

  /** Appends bytes that are final. */
  lemma StageAppend(m: Tables, bytes: seq<Byte>, ideal: seq<Byte>, locs: seq<PatchLocation>, pr: Progress,
                    piece: seq<Byte>)
    requires Filled(bytes, ideal, locs, pr) && LocsOk(m, ideal, locs)
    ensures Filled(bytes + piece, ideal + piece, locs, pr) && LocsOk(m, ideal + piece, locs)
  {
    FilledAppend(bytes, ideal, locs, pr, piece);
    LocsOkAppend(m, ideal, locs, piece);
  }

  lemma StageLabel(m: Tables, bytes: seq<Byte>, ideal: seq<Byte>, locs: seq<PatchLocation>, pr: Progress, target: Label)
    requires Filled(bytes, ideal, locs, pr) && LocsOk(m, ideal, locs) && LabelOk(m, target) && Unresolved(target, pr)
    ensures var ideal', locs' := ideal + BigEndian(Address(m, target)), locs + [PatchLocation(|bytes|, target)];
            Filled(bytes + BigEndian(0), ideal', locs', pr) && LocsOk(m, ideal', locs')
  {
    FilledLabel(bytes, ideal, locs, pr, Address(m, target), target);
    LocsOkLabel(m, ideal, locs, target);
  }

  /** The header slot of range `i` is part of everything written after the slots. */
  lemma SlotOf(m: Tables, i: nat, n: nat)
    requires i < |m.ranges| && n <= |m.ranges| && ValidRanges(m)
    ensures UpToRecords(m, n)[6 + 2 * i..6 + 2 * i + 2] == BigEndian(RangeOffset(m, i))
  {
    OffsetsAt(m, |m.ranges|, i);
    SliceOfTail(Header(m), Offsets(m, |m.ranges|), UpToRecords(m, n), 2 * i, 2 * i + 2);
  }

  lemma RecordPieces(m: Tables, i: nat)
    requires i < |m.ranges| && ValidRanges(m)
    ensures var x := m.ranges[i];
            UpToRecords(m, i + 1) ==
            UpToRecords(m, i) + BigEndian(TypeNumber(x.keyType)) + BigEndian(m.keys[x.lowerKeyIndex].keyCode)
            + BigEndian(m.keys[x.upperKeyIndex].keyCode) + BigEndian(Address(m, RangeLabel(i)))
  {
  }

  /** Writes a value that is final. */
  method AppendWord(ck: CompiledKeyMap, m: Tables, w: nat, ghost ideal: seq<Byte>, ghost pr: Progress)
    returns (r: Outcome<nat>)
    requires Stage(ck.bytes, ck.patchLocs, m, ideal, pr) && |ideal| <= LastStart(m)
    modifies ck`bytes
    ensures r.Done? ==> r.value == |ideal| && Stage(ck.bytes, ck.patchLocs, m, ideal + BigEndian(w), pr)
    ensures r.Fatal? ==> LastStart(m) > 65535
  {
    StageAppend(m, ck.bytes, ideal, ck.patchLocs, pr, BigEndian(w));
    r := ck.Write16(w);
  }

  /** Writes a place holder for the address of `target`. */
  method AppendLabel(ck: CompiledKeyMap, m: Tables, target: Label, ghost ideal: seq<Byte>, ghost pr: Progress)
    returns (r: Outcome<nat>)
    requires Stage(ck.bytes, ck.patchLocs, m, ideal, pr) && |ideal| <= LastStart(m) && LabelOk(m, target)
    requires Unresolved(target, pr)
    modifies ck
    ensures r.Done? ==> r.value == |ideal| <= 65535
                        && Stage(ck.bytes, ck.patchLocs, m, ideal + BigEndian(Address(m, target)), pr)
    ensures r.Fatal? ==> LastStart(m) > 65535
  {
    StageLabel(m, ck.bytes, ideal, ck.patchLocs, pr, target);
    r := ck.Write16(0);
    if r.Done? {
      ck.AddPatchLocation(r.value, target);
    }
  }

  /** Back-patches the header slot of range `i`. */
  method PatchSlot(ck: CompiledKeyMap, m: Tables, i: nat, offsetToCurRange: nat)
    requires i < |m.ranges| && ValidRanges(m)
    requires Stage(ck.bytes, ck.patchLocs, m, UpToRecords(m, i + 1), Progress(i, |m.ranges|, 0, 0))
    requires offsetToCurRange == RangeOffset(m, i)
    modifies ck`bytes
    ensures Stage(ck.bytes, ck.patchLocs, m, UpToRecords(m, i + 1), Progress(i + 1, |m.ranges|, 0, 0))
  {
    SlotOf(m, i, i + 1);
    StageSlotPatched(ck.bytes, ck.patchLocs, m, i, UpToRecords(m, i + 1));
    ck.Patch16(6 + 2 * i, offsetToCurRange);
  }

  lemma StageSlotPatched(bytes: seq<Byte>, locs: seq<PatchLocation>, m: Tables, i: nat, ideal: seq<Byte>)
    requires Stage(bytes, locs, m, ideal, Progress(i, |m.ranges|, 0, 0))
    requires 6 + 2 * i + 2 <= |ideal| && ideal[6 + 2 * i..6 + 2 * i + 2] == BigEndian(RangeOffset(m, i))
    ensures 6 + 2 * i + 2 <= |bytes|
    ensures Stage(Patched(bytes, 6 + 2 * i, RangeOffset(m, i)), locs, m, ideal, Progress(i + 1, |m.ranges|, 0, 0))
  {
    FilledSlotPatched(bytes, ideal, locs, Progress(i, |m.ranges|, 0, 0), RangeOffset(m, i));
  }

  method WriteRecord(ck: CompiledKeyMap, m: Tables, i: nat) returns (r: Outcome<()>)
    requires i < |m.ranges| && ValidRanges(m)
    requires Stage(ck.bytes, ck.patchLocs, m, UpToRecords(m, i), Progress(i, |m.ranges|, 0, 0))
    requires RangeOffset(m, i) + 6 <= LastStart(m)
    modifies ck
    ensures r.Done? ==> Stage(ck.bytes, ck.patchLocs, m, UpToRecords(m, i + 1), Progress(i + 1, |m.ranges|, 0, 0))
    ensures r.Fatal? ==> LastStart(m) > 65535
  {
    ghost var pr := Progress(i, |m.ranges|, 0, 0);
    var x := m.ranges[i];
    ghost var i0 := UpToRecords(m, i);
    var offsetToCurRange :- AppendWord(ck, m, TypeNumber(x.keyType), i0, pr);
    ghost var i1 := i0 + BigEndian(TypeNumber(x.keyType));
    var _ :- AppendWord(ck, m, m.keys[x.lowerKeyIndex].keyCode, i1, pr);
    ghost var i2 := i1 + BigEndian(m.keys[x.lowerKeyIndex].keyCode);
    var _ :- AppendWord(ck, m, m.keys[x.upperKeyIndex].keyCode, i2, pr);
    ghost var i3 := i2 + BigEndian(m.keys[x.upperKeyIndex].keyCode);
    var _ :- AppendLabel(ck, m, RangeLabel(i), i3, pr);
    RecordPieces(m, i);
    PatchSlot(ck, m, i, offsetToCurRange);
    r := Done(());
  }

  method WriteRecords(ck: CompiledKeyMap, m: Tables) returns (r: Outcome<()>)
    requires ValidRanges(m)
    requires Stage(ck.bytes, ck.patchLocs, m, UpToOffsets(m, |m.ranges|), Progress(0, |m.ranges|, 0, 0))
    requires RangeOffset(m, |m.ranges|) <= LastStart(m) + 2
    modifies ck
    ensures r.Done? ==> Stage(ck.bytes, ck.patchLocs, m, UpToRecords(m, |m.ranges|),
                              Progress(|m.ranges|, |m.ranges|, 0, 0))
    ensures r.Fatal? ==> LastStart(m) > 65535
  {
    assert UpToRecords(m, 0) == UpToOffsets(m, |m.ranges|);
    for i := 0 to |m.ranges|
      invariant Stage(ck.bytes, ck.patchLocs, m, UpToRecords(m, i), Progress(i, |m.ranges|, 0, 0))
    {
      var _ :- WriteRecord(ck, m, i);
    }
    r := Done(());
  }

  /** Where the last write of a key's trap starts. */
  function LastTrapWrite(m: Tables, k: nat): nat
    requires k < |m.keys|
  {
    TrapOffset(m, k) + if m.keys[k].value.Four? then 3 else 0
  }

  lemma TrapStart(m: Tables, k: nat)
    requires ValidKeys(m) && m.ranges != [] && k < |m.keys|
    ensures LastTrapWrite(m, k) <= LastStart(m)
  {
    KeyBytesMonotone(m.keys, k, |m.keys|);
  }

  lemma TrapPieces(m: Tables, k: nat)
    requires k < |m.keys| && ValidRanges(m) && ValidKeys(m)
    ensures UpToTraps(m, k + 1) == UpToTraps(m, k) + Trap(m, m.keys[k])
  {
  }

  method AppendByte(ck: CompiledKeyMap, m: Tables, b: Byte, ghost ideal: seq<Byte>, ghost pr: Progress)
    returns (r: Outcome<nat>)
    requires Stage(ck.bytes, ck.patchLocs, m, ideal, pr) && |ideal| <= LastStart(m)
    modifies ck`bytes
    ensures r.Done? ==> r.value == |ideal| <= 65535 && Stage(ck.bytes, ck.patchLocs, m, ideal + [b], pr)
    ensures r.Fatal? ==> LastStart(m) > 65535
  {
    StageAppend(m, ck.bytes, ideal, ck.patchLocs, pr, [b]);
    r := ck.Write8(b);
  }

  /** The traps of the first `k` keys are written. */
  ghost predicate TrapStage(bytes: seq<Byte>, locs: seq<PatchLocation>, m: Tables, k: nat, pr: Progress)
    requires k <= |m.keys| && ValidRanges(m) && ValidKeys(m)
  {
    Stage(bytes, locs, m, UpToTraps(m, k), pr)
  }

  /** The last write of the first `k` traps did not start too late. */
  ghost predicate StartsFit(m: Tables, k: nat)
    requires k <= |m.keys|
  {
    k > 0 && LastTrapWrite(m, k - 1) <= 65535
  }

  method WriteTrap(ck: CompiledKeyMap, m: Tables, k: nat, ghost pr: Progress) returns (r: Outcome<()>)
    requires k < |m.keys| && m.ranges != [] && ValidRanges(m) && ValidKeys(m)
    requires TrapStage(ck.bytes, ck.patchLocs, m, k, pr) && pr.stringsDone == 0
    modifies ck
    ensures r.Done? ==> TrapStage(ck.bytes, ck.patchLocs, m, k + 1, pr) && StartsFit(m, k + 1)
    ensures r.Fatal? ==> LastStart(m) > 65535
  {
    ghost var i0 := UpToTraps(m, k);
    TrapStart(m, k);
    TrapPieces(m, k);
    match m.keys[k].value
    case Four(b0, b1, b2, b3) =>
      var _ :- AppendByte(ck, m, b0, i0, pr);
      var _ :- AppendByte(ck, m, b1, i0 + [b0], pr);
      var _ :- AppendByte(ck, m, b2, i0 + [b0] + [b1], pr);
      var _ :- AppendByte(ck, m, b3, i0 + [b0] + [b1] + [b2], pr);
      assert i0 + [b0] + [b1] + [b2] + [b3] == i0 + [b0, b1, b2, b3];
      r := Done(());
    case StringIdx(idx) =>
      var _ :- AppendLabel(ck, m, StringLabel(idx), i0, pr);
      r := Done(());
  }

  lemma SameBigEndian(w: nat)
    ensures BigEndian(w % 0x1_0000) == BigEndian(w)
  {
    var q, r := w / 0x1_0000, w % 0x1_0000;
    assert w == 256 * (256 * q + r / 256) + r % 256;
    assert w / 256 == 256 * q + r / 256;
  }

  /** Back-patches every reference to `target` with the current location. */
  method Resolve(ck: CompiledKeyMap, m: Tables, target: Label, w: nat, ghost ideal: seq<Byte>, ghost pr: Progress,
                 ghost pr': Progress)
    requires Stage(ck.bytes, ck.patchLocs, m, ideal, pr) && LabelOk(m, target)
    requires BigEndian(w) == BigEndian(Address(m, target))
    requires pr'.a == pr.a && pr'.b == pr.b
    requires forall l :: Unresolved(l, pr) <==> Unresolved(l, pr') || l == target
    modifies ck`bytes
    ensures Stage(ck.bytes, ck.patchLocs, m, ideal, pr')
  {
    FilledResolve(m, ck.bytes, ideal, ck.patchLocs, pr, pr', target, w);
    ck.PatchLabeled16(target, w);
  }

  /** The first key that the ranges from `r` on have. */
  ghost function FirstKey(m: Tables, r: nat): nat
    requires r <= |m.ranges|
  {
    if r == |m.ranges| then |m.keys| else m.ranges[r].lowerKeyIndex
  }

  /** Each range goes on where the one before it ends. */
  ghost predicate Contiguous(m: Tables) {
    && FirstKey(m, 0) == 0
    && forall r :: 0 <= r < |m.ranges| ==>
         FirstKey(m, r) <= m.ranges[r].upperKeyIndex < |m.keys| && FirstKey(m, r + 1) == m.ranges[r].upperKeyIndex + 1
  }

  lemma PartitionIsContiguous(m: Tables)
    requires Partition(m.keys, m.ranges, |m.keys|) && m.ranges != []
    ensures Contiguous(m)
  {
    assert RangeOk(m.keys, m.ranges, 0, |m.keys|);
    forall r | 0 <= r < |m.ranges|
      ensures FirstKey(m, r) <= m.ranges[r].upperKeyIndex < |m.keys|
      ensures FirstKey(m, r + 1) == m.ranges[r].upperKeyIndex + 1
    {
      assert RangeOk(m.keys, m.ranges, r, |m.keys|);
      if r + 1 < |m.ranges| { assert RangeOk(m.keys, m.ranges, r + 1, |m.keys|); }
    }
  }

  /** Writes the key traps `lower..upper`. */
  method WriteTrapTable(ck: CompiledKeyMap, m: Tables, lower: nat, upper: nat, ghost pr: Progress)
    returns (o: Outcome<()>)
    requires m.ranges != [] && ValidRanges(m) && ValidKeys(m) && lower <= upper < |m.keys|
    requires TrapStage(ck.bytes, ck.patchLocs, m, lower, pr) && pr.stringsDone == 0
    modifies ck
    ensures o.Done? ==> TrapStage(ck.bytes, ck.patchLocs, m, upper + 1, pr) && StartsFit(m, upper + 1)
    ensures o.Fatal? ==> LastStart(m) > 65535
  {
    for k := lower to upper + 1
      invariant TrapStage(ck.bytes, ck.patchLocs, m, k, pr) && (k > lower ==> StartsFit(m, k))
    {
      var t := WriteTrap(ck, m, k, pr);
      if t.Fatal? {
        return t;
      }
    }
    o := Done(());
  }

  /** The first `r` ranges are resolved, and the traps of their keys, the first `k`, are written. */
  ghost predicate RangeStage(bytes: seq<Byte>, locs: seq<PatchLocation>, m: Tables, r: nat, k: nat)
    requires ValidRanges(m) && ValidKeys(m)
  {
    && k <= |m.keys| && TrapStage(bytes, locs, m, k, Progress(|m.ranges|, |m.ranges|, r, 0))
    && (r > 0 ==> StartsFit(m, k))
  }

  /** Resolves the references to range `r` and writes its traps. */
  method WriteRangeTraps(ck: CompiledKeyMap, m: Tables, r: nat) returns (o: Outcome<()>)
    requires r < |m.ranges| && ValidRanges(m) && ValidKeys(m) && m.ranges[r].lowerKeyIndex <= m.ranges[r].upperKeyIndex
    requires RangeStage(ck.bytes, ck.patchLocs, m, r, m.ranges[r].lowerKeyIndex)
    modifies ck
    ensures o.Done? ==> RangeStage(ck.bytes, ck.patchLocs, m, r + 1, m.ranges[r].upperKeyIndex + 1)
    ensures o.Fatal? ==> LastStart(m) > 65535
  {
    var n, x := |m.ranges|, m.ranges[r];
    SameBigEndian(|ck.bytes|);
    Resolve(ck, m, RangeLabel(r), ck.LocationCounter(), UpToTraps(m, x.lowerKeyIndex), Progress(n, n, r, 0),
            Progress(n, n, r + 1, 0));
    o := WriteTrapTable(ck, m, x.lowerKeyIndex, x.upperKeyIndex, Progress(n, n, r + 1, 0));
  }

  method WriteTraps(ck: CompiledKeyMap, m: Tables) returns (o: Outcome<()>)
    requires Contiguous(m) && ValidRanges(m) && ValidKeys(m) && m.ranges != []
    requires RangeStage(ck.bytes, ck.patchLocs, m, 0, 0)
    modifies ck
    ensures o.Done? ==> RangeStage(ck.bytes, ck.patchLocs, m, |m.ranges|, |m.keys|)
    ensures o.Fatal? ==> LastStart(m) > 65535
  {
    for r := 0 to |m.ranges|
      invariant RangeStage(ck.bytes, ck.patchLocs, m, r, FirstKey(m, r))
    {
      var t := WriteRangeTraps(ck, m, r);
      if t.Fatal? {
        return t;
      }
    }
    o := Done(());
  }

  lemma StringPieces(m: Tables, i: nat)
    requires i < |m.strings| && ValidRanges(m) && ValidKeys(m) && m.ranges != []
    ensures UpToStrings(m, i + 1) == UpToStrings(m, i) + (m.strings[i] + [0])
    ensures StringOffset(m, i) <= LastStart(m)
  {
    if i < |m.strings| - 1 { StringBytesMonotone(m.strings, i, |m.strings| - 1); }
  }

  method AppendString(ck: CompiledKeyMap, m: Tables, i: nat) returns (r: Outcome<()>)
    requires ValidRanges(m) && ValidKeys(m) && m.ranges != [] && i < |m.strings|
    requires Stage(ck.bytes, ck.patchLocs, m, UpToStrings(m, i), Progress(|m.ranges|, |m.ranges|, |m.ranges|, i))
    modifies ck`bytes
    ensures r.Done? ==> Stage(ck.bytes, ck.patchLocs, m, UpToStrings(m, i + 1),
                              Progress(|m.ranges|, |m.ranges|, |m.ranges|, i + 1))
                        && StringOffset(m, i) <= 65535
    ensures r.Fatal? ==> LastStart(m) > 65535
  {
    var n := |m.ranges|;
    StringPieces(m, i);
    var offsetToString := ck.LocationCounter();
    SameBigEndian(|ck.bytes|);
    StageAppend(m, ck.bytes, UpToStrings(m, i), ck.patchLocs, Progress(n, n, n, i), m.strings[i] + [0]);
    assert ck.bytes + m.strings[i] + [0] == ck.bytes + (m.strings[i] + [0]);
    var _ :- ck.WriteString(m.strings[i]);
    Resolve(ck, m, StringLabel(i), offsetToString, UpToStrings(m, i + 1), Progress(n, n, n, i),
            Progress(n, n, n, i + 1));
    r := Done(());
  }

  method WriteStrings(ck: CompiledKeyMap, m: Tables) returns (o: Outcome<()>)
    requires ValidRanges(m) && ValidKeys(m) && m.ranges != []
    requires Stage(ck.bytes, ck.patchLocs, m, UpToTraps(m, |m.keys|), Progress(|m.ranges|, |m.ranges|, |m.ranges|, 0))
    modifies ck
    ensures o.Done? ==> Stage(ck.bytes, ck.patchLocs, m, UpToStrings(m, |m.strings|),
                              Progress(|m.ranges|, |m.ranges|, |m.ranges|, |m.strings|))
    ensures o.Fatal? ==> LastStart(m) > 65535
    ensures o.Done? && m.strings != [] ==> LastStart(m) <= 65535
  {
    assert UpToStrings(m, 0) == UpToTraps(m, |m.keys|);
    for i := 0 to |m.strings|
      invariant Stage(ck.bytes, ck.patchLocs, m, UpToStrings(m, i), Progress(|m.ranges|, |m.ranges|, |m.ranges|, i))
      invariant i > 0 ==> StringOffset(m, i - 1) <= 65535
    {
      var _ :- AppendString(ck, m, i);
    }
    o := Done(());
  }

  lemma StartsBeforeTraps(m: Tables)
    requires ValidTables(m) && m.ranges != []
    ensures RangeOffset(m, |m.ranges|) <= LastStart(m) + 1
  {
    assert RangeOk(m.keys, m.ranges, 0, |m.keys|);
    KeyBytesMonotone(m.keys, 0, |m.keys|);
  }

  lemma LastStartIsTrap(m: Tables)
    requires ValidTables(m) && m.ranges != [] && m.strings == []
    ensures |m.keys| > 0 && LastStart(m) == LastTrapWrite(m, |m.keys| - 1)
  {
    assert RangeOk(m.keys, m.ranges, 0, |m.keys|);
    assert ValidKey(m.keys[|m.keys| - 1], m.strings);
  }

  /**
   `compileKeyMap_Type0`: whatever is written, and however offsets are patched in afterwards, the
   result is the image of the tables. It fails exactly if a write would start beyond 65535.
   */
  method CompileTables(m: Tables) returns (r: Outcome<seq<Byte>>)
    requires ValidTables(m)
    ensures ValidRanges(m) && ValidKeys(m)
    ensures r.Done? <==> LastStart(m) <= 65535
    ensures r.Done? ==> r.value == Image(m)
  {
    PartitionIsValid(m);
    var ck := new CompiledKeyMap();
    var hdr := WriteHeader(ck, m);
    var keyMapSizeOffset := hdr.value;
    ghost var n := |m.ranges|;
    assert Stage(ck.bytes, ck.patchLocs, m, Header(m), Progress(0, 0, 0, |m.strings|))
           && Stage(ck.bytes, ck.patchLocs, m, Header(m), Progress(0, 0, 0, 0));
    if |m.ranges| > 0 {
      StartsBeforeTraps(m);
      PartitionIsContiguous(m);
      var _ :- WriteSlots(ck, m);
      var _ :- WriteRecords(ck, m);
      assert UpToTraps(m, 0) == UpToRecords(m, n);
      var _ :- WriteTraps(ck, m);
      var _ :- WriteStrings(ck, m);
      if m.strings == [] { LastStartIsTrap(m); }
    }
    ImageHeader(m);
    FilledSize(m, ck.bytes, Image(m), ck.patchLocs,
               if n > 0 then Progress(n, n, n, |m.strings|) else Progress(0, 0, 0, |m.strings|), |ck.bytes|);
    ck.Patch16(keyMapSizeOffset, |ck.bytes|);
    r := Done(ck.bytes);
  }
}
