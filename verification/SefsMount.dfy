/** Mounting a SerenaFS volume, and what a mount finds on a volume that was just formatted. */
module SefsMount {
  import opened Arithmetic
  import opened Errors
  import opened SefsFormat

  const MAX_BLOCK_SIZE := 65535

  // ---------------------------------------------------------------------------------------
  // The allocation bitmap in memory

  function BitmapBlocks(header: Block, blockSize: nat): nat
    requires header.VolumeHeader? && blockSize > 0
  {
    (header.allocBitmapByteSize + (blockSize - 1)) / blockSize
  }

  predicate HasBitmap(disk: Disk, lba: nat, blockSize: nat) {
    lba in disk && disk[lba].Bitmap? && |disk[lba].bytes| == blockSize
  }

  /** The `n` blocks from `lba` on can be read and hold bitmaps. */
  predicate Readable(disk: Disk, lba: nat, blockSize: nat, n: nat) {
    n == 0 || (Readable(disk, lba, blockSize, n - 1) && HasBitmap(disk, lba + n - 1, blockSize))
  }

  /** Their bytes, one block behind the other. */
  function Joined(disk: Disk, lba: nat, blockSize: nat, n: nat): (r: seq<bv8>)
    requires Readable(disk, lba, blockSize, n)
    ensures |r| == Start(blockSize, n)
  {
    if n == 0 then [] else Joined(disk, lba, blockSize, n - 1) + disk[lba + n - 1].bytes
  }

  lemma {:induction false} ReadableUpTo(disk: Disk, lba: nat, blockSize: nat, n: nat, i: nat)
    requires Readable(disk, lba, blockSize, n) && i <= n
    ensures Readable(disk, lba, blockSize, i)
    decreases n
  {
    if i < n { ReadableUpTo(disk, lba, blockSize, n - 1, i); }
  }

  lemma {:induction false} JoinedAt(disk: Disk, lba: nat, blockSize: nat, n: nat, i: nat, j: nat)
    requires Readable(disk, lba, blockSize, n) && i < n && j < blockSize
    ensures HasBitmap(disk, lba + i, blockSize) && Start(blockSize, i) + j < Start(blockSize, n)
    ensures Joined(disk, lba, blockSize, n)[Start(blockSize, i) + j] == disk[lba + i].bytes[j]
    decreases n
  {
    StartsGrow(blockSize, i, n);
    if i < n - 1 { JoinedAt(disk, lba, blockSize, n - 1, i, j); }
  }

  /** A block that is needed starts inside of the bitmap, and the last one ends behind it. */
  lemma BlocksNeeded(size: nat, blockSize: nat, i: nat)
    requires blockSize > 0
    ensures var n := (size + (blockSize - 1)) / blockSize;
            (i < n ==> Start(blockSize, i) < size) && size <= Start(blockSize, n)
  {
    var n := (size + (blockSize - 1)) / blockSize;
    StartIs(blockSize, n);
    if i < n {
      if size > 0 { CeilingIsLeast(size, blockSize); }
      StartIs(blockSize, i);
      Monotone(i, n - 1, blockSize);
    }
    CeilingReaches(size, blockSize, n);
  }

  lemma CeilingReaches(size: nat, m: nat, n: nat)
    requires m > 0 && n == (size + (m - 1)) / m
    ensures size <= n * m
  {
    assert size + (m - 1) == m * n + (size + (m - 1)) % m;
  }

  /** The first part of the bitmap is in memory. */
  ghost predicate Loaded(bitmap: seq<bv8>, disk: Disk, lba: nat, blockSize: nat, n: nat) {
    && Readable(disk, lba, blockSize, n)
    && var m := Min(Start(blockSize, n), |bitmap|); bitmap[..m] == Joined(disk, lba, blockSize, n)[..m]
  }

  lemma LoadedMore(before: seq<bv8>, after: seq<bv8>, disk: Disk, lba: nat, blockSize: nat, n: nat, count: nat)
    requires Loaded(before, disk, lba, blockSize, n) && HasBitmap(disk, lba + n, blockSize) && |after| == |before|
    requires Start(blockSize, n) <= |before| && count == Min(blockSize, |before| - Start(blockSize, n))
    requires after == before[..Start(blockSize,
                                     n)] + disk[lba + n].bytes[..count] + before[Start(blockSize, n) + count..]
    ensures Loaded(after, disk, lba, blockSize, n + 1)
  {
    var at, bytes := Start(blockSize, n), disk[lba + n].bytes;
    var m := Min(at + blockSize, |after|);
    assert m == at + count;
    assert after[..m] == before[..at] + bytes[..count];
    assert Joined(disk, lba, blockSize, n + 1)[..m] == Joined(disk, lba, blockSize, n) + bytes[..count];
  }

  /**
   `SfsAllocator_Start`: reads the bitmap block by block into memory. A block that cannot be read ends it, and so
   does one that holds something else, whose bytes are not known here.
   */
  method LoadBitmap(disk: Disk, header: Block, blockSize: nat, bitmap: array<bv8>) returns (err: Errno)
    requires header.VolumeHeader? && blockSize > 0 && bitmap.Length == header.allocBitmapByteSize
    modifies bitmap
    ensures err == if Readable(disk, header.lbaAllocBitmap, blockSize, BitmapBlocks(header, blockSize)) then EOK
            else EIO
    ensures err == EOK ==> Loaded(bitmap[..], disk, header.lbaAllocBitmap, blockSize, BitmapBlocks(header, blockSize))
  {
    var n, at, rest := BitmapBlocks(header, blockSize), 0, bitmap.Length;
    for i := 0 to n
      invariant at == Start(blockSize, i) && rest == Max(bitmap.Length - at, 0)
      invariant Loaded(bitmap[..], disk, header.lbaAllocBitmap, blockSize, i)
    {
      var lba := header.lbaAllocBitmap + i;
      if !HasBitmap(disk, lba, blockSize) {
        if Readable(disk, header.lbaAllocBitmap, blockSize, n) {
          ReadableUpTo(disk, header.lbaAllocBitmap, blockSize, n, i + 1);
        }
        return EIO;
      }
      BlocksNeeded(bitmap.Length, blockSize, i);
      var nBytesToCopy := Min(blockSize, rest);
      ghost var before := bitmap[..];
      CopyBytes(bitmap, at, disk[lba].bytes[..nBytesToCopy]);
      LoadedMore(before, bitmap[..], disk, header.lbaAllocBitmap, blockSize, i, nBytesToCopy);
      rest, at := rest - nBytesToCopy, at + blockSize;
    }
    err := EOK;
  }

  method CopyBytes(bitmap: array<bv8>, at: nat, bytes: seq<bv8>)
    requires at + |bytes| <= bitmap.Length
    modifies bitmap
    ensures bitmap[..] == old(bitmap[..at]) + bytes + old(bitmap[at + |bytes|..])
  {
    forall j | 0 <= j < |bytes| {
      bitmap[at + j] := bytes[j];
    }
  }

  // ---------------------------------------------------------------------------------------
  // Mounting

  /** What is known of a mounted volume. */
  datatype Mounted = Refused(err: Errno) | Mounted(rootDirectoryId: nat, bitmap: seq<bv8>, volumeBlockCount: nat)

  /** The checks of `SerenaFS_onStart` and `SfsAllocator_Start`; a volume without a header has no signature. */
  predicate Acceptable(disk: Disk, fscBlockCount: nat, fscBlockSize: nat) {
    && fscBlockCount >= MIN_BLOCK_COUNT && fscBlockSize <= MAX_BLOCK_SIZE
    && 0 in disk && disk[0].VolumeHeader? && disk[0].volBlockSize == fscBlockSize
    && disk[0].allocBitmapByteSize >= 1 && disk[0].volBlockCount >= MIN_BLOCK_COUNT
  }

  method Mount(disk: Disk, fscBlockCount: nat, fscBlockSize: nat) returns (m: Mounted)
    requires fscBlockSize > 0
    ensures m.Mounted? <==>
              && Acceptable(disk, fscBlockCount, fscBlockSize)
              && Readable(disk, disk[0].lbaAllocBitmap, fscBlockSize, BitmapBlocks(disk[0], fscBlockSize))
    ensures m.Refused? ==> m.err == EIO
    ensures m.Mounted? ==>
              && m.rootDirectoryId == disk[0].lbaRootDir && m.volumeBlockCount == disk[0].volBlockCount
              && |m.bitmap| == disk[0].allocBitmapByteSize
              && Loaded(m.bitmap, disk, disk[0].lbaAllocBitmap, fscBlockSize, BitmapBlocks(disk[0], fscBlockSize))
  {
    if fscBlockCount < MIN_BLOCK_COUNT {
      return Refused(EIO);
    }
    if fscBlockSize > MAX_BLOCK_SIZE {
      return Refused(EIO);
    }
    if 0 !in disk || !disk[0].VolumeHeader? || disk[0].volBlockSize != fscBlockSize {
      return Refused(EIO);
    }
    var header := disk[0];
    if header.allocBitmapByteSize < 1 || header.volBlockCount < MIN_BLOCK_COUNT {
      return Refused(EIO);
    }
    var bitmap := new bv8[header.allocBitmapByteSize];
    var err := LoadBitmap(disk, header, fscBlockSize, bitmap);
    if err != EOK {
      return Refused(err);
    }
    m := Mounted(header.lbaRootDir, bitmap[..], header.volBlockCount);
  }

  /** `AllocationBitmap_IsBlockInUse` */
  predicate IsBlockInUse(bitmap: seq<bv8>, lba: nat)
    requires lba / 8 < |bitmap|
  {
    bitmap[lba / 8] & Mask(lba % 8) != 0
  }

  /** `SerenaFS_onAcquireNode` accepts the block as the inode with this id. */
  predicate IsInode(disk: Disk, id: nat) {
    id in disk && disk[id].Inode? && disk[id].id == id
  }

  /** A directory that is its own parent and is empty but for the two names of itself. */
  predicate IsEmptyRoot(disk: Disk, id: nat) {
    && IsInode(disk, id) && disk[id].parent == id && disk[id].linkCount == 1
    && disk[id].content in disk && disk[disk[id].content] == Directory([(id, "."), (id, "..")])
  }

  // ---------------------------------------------------------------------------------------
  // A volume that was just formatted

  lemma {:induction false} FormattedReadable(blockCount: nat, blockSize: nat, volumeLabel: string, n: nat)
    requires blockSize > 0 && n <= BitmapBlockCount(blockCount, blockSize)
    ensures Readable(OnDisk(Plan(blockCount, blockSize, volumeLabel)), 1, blockSize, n)
  {
    if n > 0 {
      FormattedReadable(blockCount, blockSize, volumeLabel, n - 1);
      FormattedDisk(blockCount, blockSize, volumeLabel, n);
      PlanAt(blockCount, blockSize, volumeLabel, n);
    }
  }

  lemma FormattedHeader(blockCount: nat, blockSize: nat, volumeLabel: string)
    requires MIN_BLOCK_COUNT <= blockCount < WORD && 0 < blockSize < WORD
    ensures var disk := OnDisk(Plan(blockCount, blockSize, volumeLabel));
            && 0 in disk && disk[0].VolumeHeader? && disk[0].volBlockSize == blockSize
            && disk[0].volBlockCount == blockCount && disk[0].volumeLabel == volumeLabel
            && disk[0].lbaAllocBitmap == 1 && disk[0].allocBitmapByteSize == BitmapByteSize(blockCount)
            && disk[0].lbaRootDir == BitmapBlockCount(blockCount, blockSize) + 1
  {
    FormattedDisk(blockCount, blockSize, volumeLabel, 0);
    PlanAt(blockCount, blockSize, volumeLabel, 0);
    HeaderFields(blockCount, blockSize, volumeLabel);
  }

  lemma HeaderFields(blockCount: nat, blockSize: nat, volumeLabel: string)
    requires MIN_BLOCK_COUNT <= blockCount < WORD && 0 < blockSize < WORD
    ensures var h := Header(blockCount, blockSize, volumeLabel);
            && h.volBlockSize == blockSize && h.volBlockCount == blockCount && h.volumeLabel == volumeLabel
            && h.lbaAllocBitmap == 1 && h.allocBitmapByteSize == BitmapByteSize(blockCount)
            && h.lbaRootDir == BitmapBlockCount(blockCount, blockSize) + 1
  {
    FewBitmapBlocks(blockCount, blockSize);
  }

  lemma ByteSize(blockCount: nat)
    requires blockCount < WORD
    ensures BitmapByteSize(blockCount) == (blockCount + 7) / 8
  {
  }

  lemma FewBitmapBlocks(blockCount: nat, blockSize: nat)
    requires MIN_BLOCK_COUNT <= blockCount < WORD && 0 < blockSize
    ensures BitmapBlockCount(blockCount, blockSize) + 2 < WORD
  {
    var bytes, n := BitmapByteSize(blockCount), BitmapBlockCount(blockCount, blockSize);
    CeilingIsLeast(bytes, blockSize);
    Monotone(1, blockSize, n - 1);
  }

  lemma FormattedRoot(blockCount: nat, blockSize: nat, volumeLabel: string, root: nat)
    requires MIN_BLOCK_COUNT <= blockCount < WORD && 0 < blockSize
    requires root == BitmapBlockCount(blockCount, blockSize) + 1
    ensures IsEmptyRoot(OnDisk(Plan(blockCount, blockSize, volumeLabel)), root)
  {
    FewBitmapBlocks(blockCount, blockSize);
    FormattedDisk(blockCount, blockSize, volumeLabel, root);
    PlanAt(blockCount, blockSize, volumeLabel, root);
    FormattedDisk(blockCount, blockSize, volumeLabel, root + 1);
    PlanAt(blockCount, blockSize, volumeLabel, root + 1);
  }

  /** The bits in memory are those of the blocks on the disk. */
  lemma LoadedBits(disk: Disk, blockSize: nat, n: nat, bitmap: seq<bv8>, lba: nat)
    requires 0 in disk && disk[0].VolumeHeader? && blockSize > 0
    requires Loaded(bitmap, disk, disk[0].lbaAllocBitmap, blockSize, n) && |bitmap| <= Start(blockSize, n)
    requires lba / 8 < |bitmap|
    ensures IsBlockInUse(bitmap, lba) <==> InUse(disk, blockSize, lba)
  {
    var b, base := lba / 8, disk[0].lbaAllocBitmap;
    var i, j := b / blockSize, b % blockSize;
    InBlock(b, blockSize, n);
    JoinedAt(disk, base, blockSize, n, i, j);
    assert bitmap[..|bitmap|][b] == Joined(disk, base, blockSize, n)[..|bitmap|][b];
  }

  lemma InBlock(b: nat, blockSize: nat, n: nat)
    requires blockSize > 0 && b < Start(blockSize, n)
    ensures b / blockSize < n && Start(blockSize, b / blockSize) + b % blockSize == b
  {
    var i := b / blockSize;
    StartIs(blockSize, i);
    assert b == blockSize * i + b % blockSize;
    if i > n { StartsGrow(blockSize, n, i); }
  }

  /** What a mount of a volume that was just formatted finds. */
  ghost predicate MountsAs(disk: Disk, m: Mounted, blockCount: nat, blockSize: nat, volumeLabel: string)
    requires blockSize > 0
  {
    && m.Mounted? && m.volumeBlockCount == blockCount && IsEmptyRoot(disk, m.rootDirectoryId)
    && 0 in disk && disk[0].VolumeHeader? && disk[0].volumeLabel == volumeLabel
    && (forall lba :: lba in disk ==> lba < blockCount) && m.rootDirectoryId in disk
    && |m.bitmap| == (blockCount + 7) / 8
    && forall lba :: 0 <= lba < blockCount ==>
         (IsBlockInUse(m.bitmap, lba) <==> lba in disk && lba < 8 * blockSize)
  }

  lemma MountedBits(blockCount: nat, blockSize: nat, volumeLabel: string, disk: Disk, bitmap: seq<bv8>, lba: nat)
    requires MIN_BLOCK_COUNT <= blockCount < WORD && MIN_BLOCK_SIZE <= blockSize < WORD && lba < blockCount
    requires disk == OnDisk(Plan(blockCount, blockSize, volumeLabel)) && |bitmap| == BitmapByteSize(blockCount)
    requires Loaded(bitmap, disk, 1, blockSize, BitmapBlockCount(blockCount, blockSize))
    ensures lba / 8 < |bitmap|
    ensures IsBlockInUse(bitmap, lba) <==> lba in disk && lba < 8 * blockSize
  {
    ByteSize(blockCount);
    FormattedHeader(blockCount, blockSize, volumeLabel);
    BlocksNeeded(|bitmap|, blockSize, 0);
    LoadedBits(disk, blockSize, BitmapBlockCount(blockCount, blockSize), bitmap, lba);
    WrittenBits(blockCount, blockSize, volumeLabel, disk, lba);
  }

  lemma WrittenBits(blockCount: nat, blockSize: nat, volumeLabel: string, disk: Disk, lba: nat)
    requires lba < blockCount < WORD && blockSize > 0 && disk == OnDisk(Plan(blockCount, blockSize, volumeLabel))
    ensures InUse(disk, blockSize, lba) <==> lba in disk && lba < 8 * blockSize
  {
    MarksInUse(blockCount, blockSize, volumeLabel, lba);
    FormattedDisk(blockCount, blockSize, volumeLabel, lba);
  }

  /** The header has 32 bits for the number of blocks. */
  lemma HeaderCount(blockCount: nat, blockSize: nat, volumeLabel: string)
    requires blockSize > 0
    ensures var disk := OnDisk(Plan(blockCount, blockSize, volumeLabel));
            0 in disk && disk[0].VolumeHeader? && disk[0].volBlockCount == blockCount % WORD
  {
    FormattedDisk(blockCount, blockSize, volumeLabel, 0);
    PlanAt(blockCount, blockSize, volumeLabel, 0);
  }

  lemma MountFinds(blockCount: nat, blockSize: nat, volumeLabel: string, disk: Disk, m: Mounted)
    requires MIN_BLOCK_COUNT <= blockCount < WORD && MIN_BLOCK_SIZE <= blockSize < WORD && m.Mounted?
    requires disk == OnDisk(Plan(blockCount, blockSize, volumeLabel)) && 0 in disk && disk[0].VolumeHeader?
    requires m.rootDirectoryId == disk[0].lbaRootDir && m.volumeBlockCount == disk[0].volBlockCount
    requires |m.bitmap| == disk[0].allocBitmapByteSize
    requires Loaded(m.bitmap, disk, disk[0].lbaAllocBitmap, blockSize, BitmapBlocks(disk[0], blockSize))
    ensures MountsAs(disk, m, blockCount, blockSize, volumeLabel)
  {
    FormattedHeader(blockCount, blockSize, volumeLabel);
    ByteSize(blockCount);
    FormattedRoot(blockCount, blockSize, volumeLabel, m.rootDirectoryId);
    Inside(blockCount, blockSize, volumeLabel);
    forall lba | 0 <= lba < blockCount
      ensures IsBlockInUse(m.bitmap, lba) <==> lba in disk && lba < 8 * blockSize
    {
      MountedBits(blockCount, blockSize, volumeLabel, disk, m.bitmap, lba);
    }
  }

  lemma Mountable(blockCount: nat, blockSize: nat, volumeLabel: string, disk: Disk)
    requires MIN_BLOCK_COUNT <= blockCount < WORD && MIN_BLOCK_SIZE <= blockSize <= MAX_BLOCK_SIZE
    requires disk == OnDisk(Plan(blockCount, blockSize, volumeLabel))
    ensures Acceptable(disk, blockCount, blockSize)
    ensures Readable(disk, disk[0].lbaAllocBitmap, blockSize, BitmapBlocks(disk[0], blockSize))
  {
    FormattedHeader(blockCount, blockSize, volumeLabel);
    ByteSize(blockCount);
    FormattedReadable(blockCount, blockSize, volumeLabel, BitmapBlockCount(blockCount, blockSize));
  }

  /**
   Formatting, then mounting. The mount finds the volume as it was asked for, an empty root directory, and the
   bitmap of the blocks that were written, as far as they are counted in one bitmap block, if and only if blocks are
   not larger than 65535 bytes and their number has 32 bits.
   */
  method FormatAndMount(blockCount: nat, blockSize: nat, volumeLabel: string) returns (disk: Disk, m: Mounted)
    requires Status(blockCount, blockSize, volumeLabel) == EOK
    ensures MountsAs(disk, m, blockCount, blockSize, volumeLabel) <==> blockSize <= MAX_BLOCK_SIZE && blockCount < WORD
  {
    var vol := new Volume();
    var err, done := Format(vol, _ => EOK, blockCount, blockSize, volumeLabel);
    ghost var plan := Plan(blockCount, blockSize, volumeLabel);
    assert err == EOK && [] + plan[..|plan|] == plan;
    disk := OnDisk(vol.writes);
    m := Mount(disk, blockCount, blockSize);
    if blockSize <= MAX_BLOCK_SIZE && blockCount < WORD {
      Mountable(blockCount, blockSize, volumeLabel, disk);
      MountFinds(blockCount, blockSize, volumeLabel, disk, m);
    } else {
      HeaderCount(blockCount, blockSize, volumeLabel);
    }
  }

  lemma Inside(blockCount: nat, blockSize: nat, volumeLabel: string)
    requires MIN_BLOCK_COUNT <= blockCount < WORD && MIN_BLOCK_SIZE <= blockSize
    ensures forall lba :: lba in OnDisk(Plan(blockCount, blockSize, volumeLabel)) ==> lba < blockCount
  {
    InsideVolume(blockCount, blockSize);
    forall lba | lba in OnDisk(Plan(blockCount, blockSize, volumeLabel)) ensures lba < blockCount {
      FormattedDisk(blockCount, blockSize, volumeLabel, lba);
    }
  }
}
