/** A disk in memory that is read and written block by block. */
module RamContainer {
  import opened Arithmetic
  import opened Errors
  import opened Memory

  const NO_LBA: nat := 0xffff_ffff_ffff_ffff

  datatype MapBlock = ReadOnly | Update | Replace | Cleared
  datatype WriteBlock = NoWrite | Sync | Deferred

  /** The block that holds an offset. */
  lemma BlockOf(blockSize: nat, count: nat, offset: nat)
    requires 0 < blockSize && offset < Start(blockSize, count)
    ensures Start(blockSize, offset / blockSize) + offset % blockSize == offset && offset / blockSize < count
  {
    var lba := offset / blockSize;
    StartIs(blockSize, lba);
    assert offset == blockSize * lba + offset % blockSize;
    if lba > count {
      StartsGrow(blockSize, count, lba);
    }
  }

  function Slice(s: seq<Byte>, at: nat, n: nat): (r: seq<Byte>)
    requires at + n <= |s|
    ensures |r| == n
  {
    s[at..at + n]
  }

  /** How many bytes a request gets. */
  function Granted(n: int, offset: int, diskSize: nat): nat {
    if n <= 0 || offset < 0 || offset >= diskSize then 0 else Min(n, diskSize - offset)
  }

  function Status(n: int, offset: int, diskSize: nat): Errno {
    if n < 0 then EINVAL
    else if n > 0 && offset < 0 then EOVERFLOW
    else if n > 0 && offset >= diskSize then ENXIO
    else EOK
  }

  class Container {
    const blockCount: nat
    const blockSize: nat
    const diskImage: array<Byte>
    const mappedFlags: array<bool>
    var lowestWrittenToLba: nat
    var highestWrittenToLba: nat

    ghost predicate Shape() {
      && 0 < blockSize && diskImage.Length == Start(blockSize, blockCount) && mappedFlags.Length == blockCount
    }

    /** Tokens count from one: zero is the token of no block. */
    predicate IsToken(token: int) {
      0 < token <= mappedFlags.Length
    }

    /** No block is mapped between two operations. */
    ghost predicate Valid()
      reads mappedFlags
    {
      Shape() && forall i :: 0 <= i < blockCount ==> !mappedFlags[i]
    }

    constructor (blockCount: nat, blockSize: nat)
      requires blockSize > 0
      ensures Valid() && fresh(diskImage) && fresh(mappedFlags)
      ensures this.blockCount == blockCount && this.blockSize == blockSize
      ensures lowestWrittenToLba == NO_LBA && highestWrittenToLba == 0
      ensures forall i :: 0 <= i < diskImage.Length ==> diskImage[i] == 0
    {
      this.blockCount, this.blockSize := blockCount, blockSize;
      diskImage := new Byte[Start(blockSize, blockCount)](_ => 0);
      mappedFlags := new bool[blockCount](_ => false);
      lowestWrittenToLba, highestWrittenToLba := NO_LBA, 0;
    }

    /**
     A `fault` is to abort because the block is mapped already, or to look up the flag of a block that does not
     exist, which comes before the check of the range.
     */
    method Map(lba: nat, mode: MapBlock) returns (fault: bool, token: int, data: nat)
      requires Shape()
      modifies mappedFlags, diskImage
      ensures fault <==> lba >= blockCount || old(mappedFlags[..])[lba]
      ensures fault ==> mappedFlags[..] == old(mappedFlags[..]) && diskImage[..] == old(diskImage[..])
      ensures !fault ==> mappedFlags[..] == old(mappedFlags[..])[lba := true]
      ensures !fault ==> token == lba + 1 && data == Start(blockSize, lba) && data + blockSize <= diskImage.Length
      ensures !fault && mode != Cleared ==> diskImage[..] == old(diskImage[..])
      ensures !fault && mode == Cleared ==> diskImage[..] == Patch(old(diskImage[..]), data, Repeat(0, blockSize))
    {
      if lba >= blockCount || mappedFlags[lba] {
        return true, 0, 0;
      }
      fault, token := false, lba + 1;
      StartsGrow(blockSize, lba, blockCount);
      data := Start(blockSize, lba);
      if mode == Cleared {
        forall i | 0 <= i < blockSize {
          diskImage[data + i] := 0;
        }
        assert diskImage[..] == Patch(old(diskImage[..]), data, Repeat(0, blockSize));
      }
      mappedFlags[lba] := true;
    }

    /**
     Gives back the block that the token of a map call stands for. A `fault` is to write to the flag of a block
     that does not exist: only a write checks the range.
     */
    method Unmap(token: int, mode: WriteBlock) returns (fault: bool, err: Errno)
      requires Shape()
      modifies this, mappedFlags
      ensures fault <==> mode == NoWrite && token != 0 && !IsToken(token)
      ensures err == if mode != NoWrite && token != 0 && !IsToken(token) then ENXIO else EOK
      ensures mappedFlags[..] == if IsToken(token) then old(mappedFlags[..])[token - 1 := false]
              else old(mappedFlags[..])
      ensures lowestWrittenToLba == if mode == NoWrite || !IsToken(token) then old(lowestWrittenToLba)
              else Min(old(lowestWrittenToLba), token - 1)
      ensures highestWrittenToLba == if mode == NoWrite || !IsToken(token) then old(highestWrittenToLba)
              else Max(old(highestWrittenToLba), token - 1)
    {
      fault, err := false, EOK;
      if token == 0 {
        return;
      }
      var lba := token - 1;
      match mode {
        case NoWrite =>
          if 0 <= lba < blockCount {
            mappedFlags[lba] := false;
          } else {
            fault := true;
          }
        case _ =>
          if 0 <= lba < blockCount {
            if lba < lowestWrittenToLba {
              lowestWrittenToLba := lba;
            }
            if lba > highestWrittenToLba {
              highestWrittenToLba := lba;
            }
            mappedFlags[lba] := false;
          } else {
            err := ENXIO;
          }
      }
    }

    /** Copies a piece of one block into the caller's buffer. */
    method ReadInBlock(lba: nat, blockOffset: nat, n: nat, buf: array<Byte>, dp: nat)
      requires Valid() && lba < blockCount && blockOffset + n <= blockSize && dp + n <= buf.Length && buf != diskImage
      modifies this, mappedFlags, diskImage, buf
      ensures Valid() && diskImage[..] == old(diskImage[..])
      ensures Start(blockSize, lba) + blockSize <= diskImage.Length
      ensures buf[..] == Patch(old(buf[..]), dp, Slice(diskImage[..], Start(blockSize, lba) + blockOffset, n))
      ensures lowestWrittenToLba == old(lowestWrittenToLba) && highestWrittenToLba == old(highestWrittenToLba)
    {
      var fault, token, data := Map(lba, ReadOnly);
      forall i | 0 <= i < n {
        buf[dp + i] := diskImage[data + blockOffset + i];
      }
      assert buf[..] == Patch(old(buf[..]), dp, Slice(diskImage[..], data + blockOffset, n));
      var fault', err := Unmap(token, NoWrite);
    }

    method Read(buf: array<Byte>, nBytesToRead: int, offset: int) returns (err: Errno, nBytesRead: nat)
      requires Valid() && nBytesToRead <= buf.Length && buf != diskImage
      modifies this, mappedFlags, diskImage, buf
      ensures Valid() && diskImage[..] == old(diskImage[..])
      ensures err == Status(nBytesToRead, offset, diskImage.Length)
      ensures nBytesRead == Granted(nBytesToRead, offset, diskImage.Length)
      ensures nBytesRead > 0 ==> buf[..] == Patch(old(buf[..]), 0, Slice(old(diskImage[..]), offset, nBytesRead))
      ensures nBytesRead == 0 ==> buf[..] == old(buf[..])
      ensures lowestWrittenToLba == old(lowestWrittenToLba) && highestWrittenToLba == old(highestWrittenToLba)
    {
      nBytesRead := 0;
      if nBytesToRead < 0 {
        return EINVAL, 0;
      }
      if nBytesToRead > 0 {
        if offset < 0 {
          return EOVERFLOW, 0;
        }
        if offset >= diskImage.Length {
          return ENXIO, 0;
        }
      }
      err := EOK;
      if nBytesToRead > 0 {
        nBytesRead := ReadBlocks(buf, Min(nBytesToRead, diskImage.Length - offset), offset);
      }
    }

    /** Reads on from the position that the block index and the offset in the block stand for. */
    method ReadOn(buf: array<Byte>, n: nat, offset: nat, k: nat, blockIdx: nat, blockOffset: nat,
                  ghost image: seq<Byte>, ghost dest: seq<Byte>)
      returns (total: nat)
      requires Valid() && diskImage[..] == image && k < n <= buf.Length && buf != diskImage && offset + n <= |image|
      requires IsAt(blockSize, blockIdx, blockOffset, offset + k)
      requires Copied(buf[..], dest, image, offset, k)
      modifies this, mappedFlags, diskImage, buf
      ensures Valid() && diskImage[..] == image && total == k + Min(n - k, blockSize - blockOffset)
      ensures Copied(buf[..], dest, image, offset, total)
      ensures lowestWrittenToLba == old(lowestWrittenToLba) && highestWrittenToLba == old(highestWrittenToLba)
    {
      BlockInside(blockSize, blockCount, blockIdx, offset + k);
      var inBlock := Min(n - k, blockSize - blockOffset);
      ReadInBlock(blockIdx, blockOffset, inBlock, buf, k);
      PatchTwice(dest, image, offset, k, inBlock);
      total := k + inBlock;
    }

    method ReadBlocks(buf: array<Byte>, n: nat, offset: nat) returns (nBytesRead: nat)
      requires Valid() && n <= buf.Length && buf != diskImage && offset + n <= diskImage.Length
      requires offset < diskImage.Length
      modifies this, mappedFlags, diskImage, buf
      ensures Valid() && diskImage[..] == old(diskImage[..]) && nBytesRead == n
      ensures buf[..] == Patch(old(buf[..]), 0, Slice(old(diskImage[..]), offset, n))
      ensures lowestWrittenToLba == old(lowestWrittenToLba) && highestWrittenToLba == old(highestWrittenToLba)
    {
      var blockIdx: nat, blockOffset: nat := offset / blockSize, offset % blockSize;
      BlockOf(blockSize, blockCount, offset);
      ghost var image, dest := diskImage[..], buf[..];
      PatchNothing(dest, 0);
      nBytesRead := 0;
      while nBytesRead < n
        invariant Valid() && diskImage[..] == image && nBytesRead <= n
        invariant nBytesRead < n ==> IsAt(blockSize, blockIdx, blockOffset, offset + nBytesRead)
        invariant Copied(buf[..], dest, image, offset, nBytesRead)
        invariant lowestWrittenToLba == old(lowestWrittenToLba) && highestWrittenToLba == old(highestWrittenToLba)
        decreases n - nBytesRead
      {
        nBytesRead := ReadOn(buf, n, offset, nBytesRead, blockIdx, blockOffset, image, dest);
        blockOffset, blockIdx := 0, blockIdx + 1;
      }
    }

    /** Copies bytes into a piece of one block. */
    method WriteInBlock(lba: nat, blockOffset: nat, bytes: seq<Byte>)
      requires Valid() && lba < blockCount && blockOffset + |bytes| <= blockSize
      modifies this, mappedFlags, diskImage
      ensures Valid() && Start(blockSize, lba) + blockSize <= diskImage.Length
      ensures diskImage[..] == Patch(old(diskImage[..]), Start(blockSize, lba) + blockOffset, bytes)
      ensures lowestWrittenToLba == Min(old(lowestWrittenToLba), lba)
      ensures highestWrittenToLba == Max(old(highestWrittenToLba), lba)
    {
      var fault, token, data := Map(lba, if |bytes| == blockSize then Replace else Update);
      forall i | 0 <= i < |bytes| {
        diskImage[data + blockOffset + i] := bytes[i];
      }
      assert diskImage[..] == Patch(old(diskImage[..]), data + blockOffset, bytes);
      var fault', err := Unmap(token, Sync);
    }

    /** Writes on from the position that the block index and the offset in the block stand for. */
    method WriteOn(buf: seq<Byte>, offset: nat, k: nat, blockIdx: nat, blockOffset: nat, ghost image: seq<Byte>)
      returns (total: nat)
      requires Valid() && k < |buf| && offset + |buf| <= diskImage.Length
      requires IsAt(blockSize, blockIdx, blockOffset, offset + k)
      requires Received(diskImage[..], image, offset, buf, k)
      modifies this, mappedFlags, diskImage
      ensures Valid() && total == k + Min(|buf| - k, blockSize - blockOffset)
      ensures Received(diskImage[..], image, offset, buf, total)
      ensures lowestWrittenToLba == Min(old(lowestWrittenToLba), blockIdx)
      ensures highestWrittenToLba == Max(old(highestWrittenToLba), blockIdx)
    {
      BlockInside(blockSize, blockCount, blockIdx, offset + k);
      var inBlock := Min(|buf| - k, blockSize - blockOffset);
      WriteInBlock(blockIdx, blockOffset, buf[k..k + inBlock]);
      PatchMore(image, offset, buf, k, inBlock);
      total := k + inBlock;
    }

    method WriteBlocks(buf: seq<Byte>, offset: nat) returns (nBytesWritten: nat)
      requires Valid() && 0 < |buf| && offset + |buf| <= diskImage.Length
      modifies this, mappedFlags, diskImage
      ensures Valid() && nBytesWritten == |buf|
      ensures diskImage[..] == Patch(old(diskImage[..]), offset, buf)
      ensures lowestWrittenToLba == Min(old(lowestWrittenToLba), offset / blockSize)
      ensures highestWrittenToLba == Max(old(highestWrittenToLba), (offset + |buf| - 1) / blockSize)
    {
      var blockIdx: nat, blockOffset: nat := offset / blockSize, offset % blockSize;
      BlockOf(blockSize, blockCount, offset);
      ghost var image, first := diskImage[..], blockIdx;
      PatchNothing(image, offset);
      nBytesWritten := 0;
      while nBytesWritten < |buf|
        invariant Valid() && nBytesWritten <= |buf|
        invariant nBytesWritten < |buf| ==> IsAt(blockSize, blockIdx, blockOffset, offset + nBytesWritten)
        invariant Received(diskImage[..], image, offset, buf, nBytesWritten)
        invariant WrittenTo(old(lowestWrittenToLba), old(highestWrittenToLba), lowestWrittenToLba, highestWrittenToLba,
                            first, blockIdx)
        invariant nBytesWritten > 0 ==> first < blockIdx && EndsIn(blockSize, blockIdx - 1, offset + nBytesWritten)
        decreases |buf| - nBytesWritten
      {
        ghost var at := offset + nBytesWritten;
        nBytesWritten := WriteOn(buf, offset, nBytesWritten, blockIdx, blockOffset, image);
        NextBlock(blockSize, blockIdx, blockOffset, at, offset + |buf|);
        blockOffset, blockIdx := 0, blockIdx + 1;
      }
      assert buf[..|buf|] == buf;
      LastBlock(blockSize, blockIdx - 1, offset + |buf| - 1);
    }

    method Write(buf: seq<Byte>, nBytesToWrite: int, offset: int) returns (err: Errno, nBytesWritten: nat)
      requires Valid() && nBytesToWrite <= |buf|
      modifies this, mappedFlags, diskImage
      ensures Valid()
      ensures err == Status(nBytesToWrite, offset, diskImage.Length)
      ensures nBytesWritten == Granted(nBytesToWrite, offset, diskImage.Length)
      ensures nBytesWritten > 0 ==> diskImage[..] == Patch(old(diskImage[..]), offset, buf[..nBytesWritten])
      ensures nBytesWritten == 0 ==> diskImage[..] == old(diskImage[..])
      ensures nBytesWritten > 0 ==> lowestWrittenToLba == Min(old(lowestWrittenToLba), offset / blockSize)
      ensures nBytesWritten > 0 ==> highestWrittenToLba
                                      == Max(old(highestWrittenToLba), (offset + nBytesWritten - 1) / blockSize)
    {
      nBytesWritten := 0;
      if nBytesToWrite < 0 {
        return EINVAL, 0;
      }
      if nBytesToWrite > 0 {
        if offset < 0 {
          return EOVERFLOW, 0;
        }
        if offset >= diskImage.Length {
          return ENXIO, 0;
        }
      }
      err := EOK;
      if nBytesToWrite > 0 {
        nBytesWritten := WriteBlocks(buf[..Min(nBytesToWrite, diskImage.Length - offset)], offset);
      }
    }

    method WipeDisk()
      requires Shape()
      modifies this, diskImage
      ensures forall i :: 0 <= i < diskImage.Length ==> diskImage[i] == 0
      ensures lowestWrittenToLba == 0 && highestWrittenToLba == if blockCount == 0 then NO_LBA else blockCount - 1
    {
      forall i | 0 <= i < diskImage.Length {
        diskImage[i] := 0;
      }
      lowestWrittenToLba, highestWrittenToLba := 0, if blockCount == 0 then NO_LBA else blockCount - 1;
    }
  }

  /** A buffer that held `dest` has received the first `k` bytes from `offset` on. */
  ghost predicate Copied(b: seq<Byte>, dest: seq<Byte>, image: seq<Byte>, offset: nat, k: nat) {
    k <= |dest| && offset + k <= |image| && b == Patch(dest, 0, Slice(image, offset, k))
  }

  /** A disk that held `image` has received the first `k` bytes of `buf` at `offset`. */
  ghost predicate Received(disk: seq<Byte>, image: seq<Byte>, offset: nat, buf: seq<Byte>, k: nat) {
    k <= |buf| && offset + |buf| <= |image| && disk == Patch(image, offset, buf[..k])
  }

  ghost predicate IsAt(blockSize: nat, lba: nat, blockOffset: nat, at: nat) {
    blockOffset < blockSize && Start(blockSize, lba) + blockOffset == at
  }

  /** The byte in front of `end` is in block `lba`. */
  ghost predicate EndsIn(blockSize: nat, lba: nat, end: nat) {
    Start(blockSize, lba) < end <= Start(blockSize, lba) + blockSize
  }

  /** The bounds take in the blocks from `first` up to `next`. */
  ghost predicate WrittenTo(low: nat, high: nat, newLow: nat, newHigh: nat, first: nat, next: nat) {
    && first <= next
    && newLow == (if first == next then low else Min(low, first))
    && newHigh == (if first == next then high else Max(high, next - 1))
  }

  lemma BlockInside(blockSize: nat, count: nat, lba: nat, at: nat)
    requires Start(blockSize, lba) <= at < Start(blockSize, count)
    ensures lba < count
  {
    if count < lba { StartsGrow(blockSize, count, lba); }
  }

  /** What ends behind block `lba`, or at `end`, goes on with the block after it. */
  lemma NextBlock(blockSize: nat, lba: nat, blockOffset: nat, at: nat, end: nat)
    requires IsAt(blockSize, lba, blockOffset, at) && at < end
    ensures var next := at + Min(end - at, blockSize - blockOffset);
            EndsIn(blockSize, lba, next) && (next < end ==> IsAt(blockSize, lba + 1, 0, next))
  {
  }

  lemma LastBlock(blockSize: nat, lba: nat, at: nat)
    requires Start(blockSize, lba) <= at < Start(blockSize, lba) + blockSize
    ensures at / blockSize == lba
  {
    StartIs(blockSize, lba);
    Remainder(at, blockSize, lba, at - Start(blockSize, lba));
  }

  lemma PatchTwice(dest: seq<Byte>, image: seq<Byte>, offset: nat, k: nat, n: nat)
    requires k + n <= |dest| && offset + k + n <= |image|
    ensures Patch(Patch(dest, 0, Slice(image, offset, k)), k, Slice(image, offset + k, n))
              == Patch(dest, 0, Slice(image, offset, k + n))
  {
  }

  lemma PatchMore(image: seq<Byte>, offset: nat, buf: seq<Byte>, k: nat, n: nat)
    requires k + n <= |buf| && offset + |buf| <= |image|
    ensures Patch(Patch(image, offset, buf[..k]), offset + k, buf[k..k + n]) == Patch(image, offset, buf[..k + n])
  {
  }
}
