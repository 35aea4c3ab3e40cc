/** The kernel's ring buffer: indices run freely, wrap around at the word size and are masked on use. */
module RingBuffer {
  import opened Arithmetic
  import opened Memory

  /** `size_t` has 32 bits. */
  const WORD := 0x1_0000_0000

  /** Where the byte `i` places behind an index is stored. */
  function Slot(index: nat, i: nat, capacity: nat): (s: nat)
    requires capacity > 0
    ensures s < capacity
  {
    (index + i) % capacity
  }

  lemma SlotsDiffer(index: nat, j: nat, k: nat, capacity: nat)
    requires j < capacity && k < capacity && j != k
    ensures Slot(index, j, capacity) != Slot(index, k, capacity)
  {
    if j < k { ModDistinct(index, j, k, capacity); } else { ModDistinct(index, k, j, capacity); }
  }

  lemma SlotWraps(index: nat, n: nat, i: nat, capacity: nat)
    requires 0 < capacity && WORD % capacity == 0
    ensures Slot((index + n) % WORD, i, capacity) == Slot(index, n + i, capacity)
  {
    ModOfMod(index + n, WORD, i, capacity);
  }

  class CBuf {
    const data: array<Byte>
    var readIdx: nat
    var writeIdx: nat
    /** The stored bytes, the oldest one first. */
    ghost var contents: seq<Byte>

    /** The capacity is a power of two, so masking an index is taking its remainder. */
    ghost predicate Shape()
      reads this
    {
      && 0 < data.Length < WORD && WORD % data.Length == 0
      && readIdx < WORD && writeIdx < WORD
      && |contents| <= data.Length && writeIdx == (readIdx + |contents|) % WORD
    }

    ghost predicate Valid()
      reads this, data
    {
      Shape() && forall i :: 0 <= i < |contents| ==> data[Slot(readIdx, i, data.Length)] == contents[i]
    }

    constructor (capacity: nat)
      requires 0 < capacity < WORD && WORD % capacity == 0
      ensures Valid() && fresh(data) && data.Length == capacity && contents == []
    {
      data := new Byte[capacity];
      readIdx, writeIdx, contents := 0, 0, [];
    }

    predicate Empty()
      requires Shape()
      reads this
      ensures Empty() == (contents == [])
    {
      ReadableIs(readIdx, |contents|);
      readIdx == writeIdx
    }

    function Readable(): (n: nat)
      requires Shape()
      reads this
      ensures n == |contents|
    {
      ReadableIs(readIdx, |contents|);
      (writeIdx - readIdx) % WORD
    }

    function Writable(): (n: nat)
      requires Shape()
      reads this
      ensures n == data.Length - |contents|
    {
      data.Length - Readable()
    }

    method Get() returns (n: nat, b: Byte)
      requires Valid()
      modifies `readIdx, `contents
      ensures Valid()
      ensures old(contents) == [] ==> n == 0 && contents == []
      ensures old(contents) != [] ==> n == 1 && old(contents) == [b] + contents
    {
      if Readable() >= 1 {
        b := data[Slot(readIdx, 0, data.Length)];
        NextByte();
        readIdx, contents := (readIdx + 1) % WORD, contents[1..];
        WordWraps(old(readIdx), 1, |contents|);
        return 1, b;
      }
      return 0, 0;
    }

    /** What is stored behind the first byte is found from the next index on. */
    lemma NextByte()
      requires Valid() && contents != []
      ensures forall i :: 0 <= i < |contents| - 1 ==>
                data[Slot((readIdx + 1) % WORD, i, data.Length)] == contents[1..][i]
    {
      forall i | 0 <= i < |contents| - 1 ensures data[Slot((readIdx + 1) % WORD, i, data.Length)] == contents[1..][i] {
        var next := 1 + i;
        SlotWraps(readIdx, 1, i, data.Length);
        assert data[Slot(readIdx, next, data.Length)] == contents[next];
      }
    }

    /** Stores the byte `i` places behind the end. */
    method PutByte(b: Byte, i: nat)
      requires Shape() && |contents| + i < data.Length
      modifies data
      ensures data[Slot(readIdx, |contents| + i, data.Length)] == b
      ensures forall j :: 0 <= j < data.Length && j != |contents| + i
                ==> data[Slot(readIdx, j, data.Length)] == old(data[Slot(readIdx, j, data.Length)])
    {
      ghost var k := |contents| + i;
      SlotWraps(readIdx, |contents|, i, data.Length);
      data[Slot(writeIdx, i, data.Length)] := b;
      forall j | 0 <= j < data.Length && j != k ensures Slot(readIdx, j, data.Length) != Slot(readIdx, k, data.Length) {
        SlotsDiffer(readIdx, j, k, data.Length);
      }
    }

    /** Stores bytes behind the end, which does not move yet. */
    method StoreBehind(bytes: seq<Byte>)
      requires Valid() && |contents| + |bytes| <= data.Length
      modifies data
      ensures Valid()
      ensures forall j :: 0 <= j < |contents| + |bytes| ==> data[Slot(readIdx, j, data.Length)] == (contents + bytes)[j]
    {
      ghost var all := contents + bytes;
      for i := 0 to |bytes|
        invariant forall j :: 0 <= j < |contents| + i ==> data[Slot(readIdx, j, data.Length)] == all[j]
      {
        PutByte(bytes[i], i);
      }
    }

    method Puts(bytes: seq<Byte>) returns (n: nat)
      requires Valid()
      modifies `writeIdx, `contents, data
      ensures Valid()
      ensures n == if |bytes| <= data.Length - |old(contents)| then |bytes| else data.Length - |old(contents)|
      ensures contents == old(contents) + bytes[..n]
    {
      var avail := Writable();
      if |bytes| == 0 || avail == 0 {
        return 0;
      }
      n := if avail < |bytes| then avail else |bytes|;
      StoreBehind(bytes[..n]);
      WordWraps(readIdx, |contents|, n);
      writeIdx, contents := (writeIdx + n) % WORD, contents + bytes[..n];
    }
  }

  lemma WordWraps(index: nat, n: nat, i: nat)
    ensures ((index + n) % WORD + i) % WORD == (index + (n + i)) % WORD
  {
  }

  /** The difference of the indices is the number of bytes, whether or not the index wrapped around. */
  lemma ReadableIs(readIdx: nat, count: nat)
    requires readIdx < WORD && count < WORD
    ensures ((readIdx + count) % WORD - readIdx) % WORD == count
    ensures readIdx == (readIdx + count) % WORD <==> count == 0
  {
  }
}
