/** Formatting a SerenaFS volume: the layout and the allocation bitmap. */
module SefsFormat {
  import opened Arithmetic
  import opened Errors

  const MIN_BLOCK_SIZE := 512
  const MIN_BLOCK_COUNT := 4
  const MAX_LABEL_LENGTH := 48
  const WORD := 0x1_0000_0000

  /** A block with everything but its bitmap bytes taken apart. Numbers on disk have 32 bits. */
  datatype Block =
    | VolumeHeader(volBlockSize: nat, volBlockCount: nat, allocBitmapByteSize: nat, lbaRootDir: nat,
                   lbaAllocBitmap: nat, volumeLabel: string)
    | Bitmap(bytes: seq<bv8>)
    | Inode(id: nat, parent: nat, linkCount: nat, content: nat)
    | Directory(entries: seq<(nat, string)>)

  datatype Write = Write(lba: nat, block: Block)

  // ---------------------------------------------------------------------------------------
  // Layout

  function BitmapByteSize(blockCount: nat): nat {
    (blockCount + 7) / 8 % WORD
  }

  function BitmapBlockCount(blockCount: nat, blockSize: nat): nat
    requires blockSize > 0
  {
    (BitmapByteSize(blockCount) + (blockSize - 1)) / blockSize
  }

  /** Volume header, allocation bitmap, root directory and its content. */
  function BlocksToAllocate(blockCount: nat, blockSize: nat): nat
    requires blockSize > 0
  {
    1 + BitmapBlockCount(blockCount, blockSize) + 1 + 1
  }

  // ---------------------------------------------------------------------------------------
  // Bitmaps

  /** The bit of a byte that stands for block `i` of its eight blocks: the highest one comes first. */
  function Mask(i: nat): bv8
    requires i < 8
  {
    match i
    case 0 => 0x80
    case 1 => 0x40
    case 2 => 0x20
    case 3 => 0x10
    case 4 => 0x08
    case 5 => 0x04
    case 6 => 0x02
    case 7 => 0x01
  }

  /** The first `k` bits of a byte. */
  function FirstBits(k: nat): bv8
    requires k <= 8
  {
    match k
    case 0 => 0x00
    case 1 => 0x80
    case 2 => 0xc0
    case 3 => 0xe0
    case 4 => 0xf0
    case 5 => 0xf8
    case 6 => 0xfc
    case 7 => 0xfe
    case 8 => 0xff
  }

  function BitsOfByte(n: nat, j: nat): nat {
    if n <= 8 * j then 0 else if n >= 8 * j + 8 then 8 else n - 8 * j
  }

  /** A bitmap whose first `n` bits are set. */
  function FirstMarked(size: nat, n: nat): (b: seq<bv8>)
    ensures |b| == size && forall j :: 0 <= j < size ==> b[j] == FirstBits(BitsOfByte(n, j))
  {
    seq(size, j requires 0 <= j < size => FirstBits(BitsOfByte(n, j)))
  }

  lemma FirstBitsSet(k: nat, i: nat)
    requires k <= 8 && i < 8
    ensures FirstBits(k) & Mask(i) != 0 <==> i < k
  {
  }

  lemma OneMoreBit(k: nat)
    requires k < 8
    ensures FirstBits(k) | Mask(k) == FirstBits(k + 1)
  {
  }

  lemma MarkedMore(size: nat, n: nat)
    requires n < 8 * size
    ensures FirstMarked(size, n)[n / 8 := FirstMarked(size, n)[n / 8] | Mask(n % 8)] == FirstMarked(size, n + 1)
  {
    OneMoreBit(n % 8);
  }

  /** `alloc_bmp_mark_used`, for a block that is in use */
  method MarkUsed(bitmap: array<bv8>, lba: nat)
    requires lba < 8 * bitmap.Length
    modifies bitmap
    ensures bitmap[..] == old(bitmap[..])[lba / 8 := old(bitmap[..])[lba / 8] | Mask(lba % 8)]
  {
    bitmap[lba / 8] := bitmap[lba / 8] | Mask(lba % 8);
  }

  // ---------------------------------------------------------------------------------------
  // The blocks that are written

  predicate IsPow2(n: nat) {
    n == 1 || (n > 1 && n % 2 == 0 && IsPow2(n / 2))
  }

  function Power(k: nat): nat {
    if k == 0 then 1 else 2 * Power(k - 1)
  }

  lemma {:induction false} PowersPass(k: nat)
    ensures IsPow2(Power(k))
  {
    if k > 0 { PowersPass(k - 1); }
  }

  lemma {:induction false} OnlyPowersPass(n: nat) returns (k: nat)
    requires IsPow2(n)
    ensures n == Power(k)
  {
    if n == 1 {
      k := 0;
    } else {
      k := OnlyPowersPass(n / 2);
      k := k + 1;
    }
  }

  function Status(blockCount: nat, blockSize: nat, volumeLabel: string): Errno {
    if !IsPow2(blockSize) || blockSize < MIN_BLOCK_SIZE then EINVAL
    else if blockCount < MIN_BLOCK_COUNT then ENOSPC
    else if |volumeLabel| > MAX_LABEL_LENGTH then ERANGE
    else EOK
  }

  function Header(blockCount: nat, blockSize: nat, volumeLabel: string): Block
    requires blockSize > 0
  {
    VolumeHeader(blockSize % WORD, blockCount % WORD, BitmapByteSize(blockCount),
                 (BitmapBlockCount(blockCount, blockSize) + 1) % WORD, 1, volumeLabel)
  }

  /** The bits that the formatter sets: it starts to count in the first block only. */
  function BitmapBlock(blockCount: nat, blockSize: nat, i: nat): Block
    requires blockSize > 0
  {
    Bitmap(FirstMarked(blockSize, if i == 0 then Min(BlocksToAllocate(blockCount, blockSize), 8 * blockSize) else 0))
  }

  function RootInode(rootDirLba: nat): Block {
    Inode(rootDirLba % WORD, rootDirLba % WORD, 1, (rootDirLba + 1) % WORD)
  }

  function RootContent(rootDirLba: nat): Block {
    Directory([(rootDirLba % WORD, "."), (rootDirLba % WORD, "..")])
  }

  /** What a complete run writes, in this order. */
  function Plan(blockCount: nat, blockSize: nat, volumeLabel: string): (ws: seq<Write>)
    requires blockSize > 0
    ensures |ws| == BlocksToAllocate(blockCount, blockSize)
  {
    var nab := BitmapBlockCount(blockCount, blockSize);
    var rootDirLba := nab + 1;
    [Write(0, Header(blockCount, blockSize, volumeLabel))]
    + seq(nab, i requires 0 <= i < nab => Write(1 + i, BitmapBlock(blockCount, blockSize, i)))
    + [Write(rootDirLba, RootInode(rootDirLba)), Write(rootDirLba + 1, RootContent(rootDirLba))]
  }

  lemma PlanAt(blockCount: nat, blockSize: nat, volumeLabel: string, j: nat)
    requires blockSize > 0 && j < BlocksToAllocate(blockCount, blockSize)
    ensures var nab, w := BitmapBlockCount(blockCount, blockSize), Plan(blockCount, blockSize, volumeLabel)[j];
            w == if j == 0 then Write(0, Header(blockCount, blockSize, volumeLabel))
                 else if j <= nab then Write(j, BitmapBlock(blockCount, blockSize, j - 1))
                 else if j == nab + 1 then Write(j, RootInode(j)) else Write(j, RootContent(j - 1))
  {
  }

  // ---------------------------------------------------------------------------------------
  // The formatter

  class Volume {
    /** The blocks that reached the disk. */
    var writes: seq<Write>

    constructor ()
      ensures writes == []
    {
      writes := [];
    }
  }

  /** The disk driver decides the fate of every write; `io` says how. */
  method BlockWrite(vol: Volume, io: nat -> Errno, lba: nat, block: Block) returns (err: Errno)
    modifies vol
    ensures err == io(|old(vol.writes)|)
    ensures vol.writes == if err == EOK then old(vol.writes) + [Write(lba, block)] else old(vol.writes)
  {
    err := io(|vol.writes|);
    if err == EOK {
      vol.writes := vol.writes + [Write(lba, block)];
    }
  }

  /** One more block of the plan, or the error that ended the run. */
  ghost predicate Progress(ws: seq<Write>, base: seq<Write>, plan: seq<Write>, done: nat, err: Errno,
                           io: nat -> Errno) {
    && done <= |plan| && ws == base + plan[..done]
    && (err != EOK ==> done < |plan| && err == io(|base| + done))
  }

  method WritePlanned(vol: Volume, io: nat -> Errno, lba: nat, block: Block, ghost base: seq<Write>,
                      ghost plan: seq<Write>, ghost done: nat)
    returns (err: Errno)
    requires done < |plan| && plan[done] == Write(lba, block) && Progress(vol.writes, base, plan, done, EOK, io)
    modifies vol
    ensures Progress(vol.writes, base, plan, if err == EOK then done + 1 else done, err, io)
  {
    err := BlockWrite(vol, io, lba, block);
    assert err == EOK ==> base + plan[..done] + [plan[done]] == base + plan[..done + 1];
  }

  /** Marks further blocks in a cleared bitmap block until the count reaches its limit. */
  method MarkBlocks(bp: array<bv8>, nBlocksAllocated: nat, limit: nat) returns (counted: nat)
    requires bp.Length > 0 && limit <= 8 * bp.Length && (nBlocksAllocated == 0 || nBlocksAllocated == limit)
    modifies bp
    ensures counted == limit && bp[..] == FirstMarked(bp.Length, limit - nBlocksAllocated)
  {
    for j := 0 to bp.Length
      invariant forall i :: 0 <= i < j ==> bp[i] == 0
    {
      bp[j] := 0;
    }
    var bitNo := 0;
    counted := nBlocksAllocated;
    assert bp[..] == FirstMarked(bp.Length, 0);
    while counted < limit
      invariant nBlocksAllocated <= counted <= limit && bitNo == counted - nBlocksAllocated
      invariant bp[..] == FirstMarked(bp.Length, bitNo)
    {
      MarkedMore(bp.Length, bitNo);
      MarkUsed(bp, bitNo);
      counted, bitNo := counted + 1, bitNo + 1;
    }
  }

  /** When the formatter accepts its parameters. */
  lemma AcceptsExactly(blockCount: nat, blockSize: nat, volumeLabel: string)
    ensures Status(blockCount, blockSize, volumeLabel) == EOK <==>
              (exists k :: blockSize == Power(k)) && blockSize >= 512 && blockCount >= 4 && |volumeLabel| <= 48
  {
    if IsPow2(blockSize) {
      var k := OnlyPowersPass(blockSize);
    } else {
      forall k ensures blockSize != Power(k) { PowersPass(k); }
    }
  }

  /** `sefs_init` */
  method Format(vol: Volume, io: nat -> Errno, blockCount: nat, blockSize: nat, volumeLabel: string)
    returns (err: Errno, ghost done: nat)
    modifies vol
    ensures Status(blockCount, blockSize, volumeLabel) != EOK ==>
              err == Status(blockCount, blockSize, volumeLabel) && vol.writes == old(vol.writes)
    ensures Status(blockCount, blockSize, volumeLabel) == EOK ==>
              var plan := Plan(blockCount, blockSize, volumeLabel);
              Progress(vol.writes, old(vol.writes), plan, done, err, io) && (err == EOK ==> done == |plan|)
  {
    done := 0;
    if !IsPow2(blockSize) {
      return EINVAL, 0;
    }
    if blockSize < MIN_BLOCK_SIZE {
      return EINVAL, 0;
    }
    if blockCount < MIN_BLOCK_COUNT {
      return ENOSPC, 0;
    }
    if |volumeLabel| > MAX_LABEL_LENGTH {
      return ERANGE, 0;
    }
    err, done := WriteVolume(vol, io, blockCount, blockSize, volumeLabel);
  }

  method WriteVolume(vol: Volume, io: nat -> Errno, blockCount: nat, blockSize: nat, volumeLabel: string)
    returns (err: Errno, ghost done: nat)
    requires blockSize > 0
    modifies vol
    ensures var plan := Plan(blockCount, blockSize, volumeLabel);
            Progress(vol.writes, old(vol.writes), plan, done, err, io) && (err == EOK ==> done == |plan|)
  {
    var allocBitmapBlockCount := BitmapBlockCount(blockCount, blockSize);
    var rootDirLba := allocBitmapBlockCount + 1;
    ghost var base, plan := vol.writes, Plan(blockCount, blockSize, volumeLabel);
    done := 0;
    PlanAt(blockCount, blockSize, volumeLabel, 0);
    err := WritePlanned(vol, io, 0, Header(blockCount, blockSize, volumeLabel), base, plan, done);
    if err != EOK {
      return;
    }
    err, done := WriteBitmap(vol, io, blockCount, blockSize, base, volumeLabel);
    if err != EOK {
      return;
    }
    PlanAt(blockCount, blockSize, volumeLabel, rootDirLba);
    err := WritePlanned(vol, io, rootDirLba, RootInode(rootDirLba), base, plan, done);
    if err != EOK {
      return;
    }
    done := done + 1;
    PlanAt(blockCount, blockSize, volumeLabel, rootDirLba + 1);
    err := WritePlanned(vol, io, rootDirLba + 1, RootContent(rootDirLba), base, plan, done);
    if err == EOK {
      done := done + 1;
    }
  }

  method WriteBitmap(vol: Volume, io: nat -> Errno, blockCount: nat, blockSize: nat, ghost base: seq<Write>,
                     volumeLabel: string)
    returns (err: Errno, ghost done: nat)
    requires blockSize > 0 && Progress(vol.writes, base, Plan(blockCount, blockSize, volumeLabel), 1, EOK, io)
    modifies vol
    ensures Progress(vol.writes, base, Plan(blockCount, blockSize, volumeLabel), done, err, io)
    ensures err == EOK ==> done == 1 + BitmapBlockCount(blockCount, blockSize)
  {
    var bp := new bv8[blockSize];
    var nAllocationBitsPerBlock := 8 * blockSize;
    var nBlocksToAllocate := BlocksToAllocate(blockCount, blockSize);
    var nBlocksAllocated := 0;
    err, done := EOK, 1;
    for i := 0 to BitmapBlockCount(blockCount, blockSize)
      invariant err == EOK && done == 1 + i
      invariant Progress(vol.writes, base, Plan(blockCount, blockSize, volumeLabel), done, EOK, io)
      invariant nBlocksAllocated == if i == 0 then 0 else Min(nBlocksToAllocate, nAllocationBitsPerBlock)
    {
      nBlocksAllocated := MarkBlocks(bp, nBlocksAllocated, Min(nBlocksToAllocate, nAllocationBitsPerBlock));
      PlanAt(blockCount, blockSize, volumeLabel, 1 + i);
      err := WritePlanned(vol, io, 1 + i, Bitmap(bp[..]), base, Plan(blockCount, blockSize, volumeLabel), done);
      if err != EOK {
        return;
      }
      done := done + 1;
    }
  }

  // ---------------------------------------------------------------------------------------
  // The volume

  lemma CeilingOf(x: nat, m: nat, y: nat)
    requires m > 0 && y < x
    ensures y / m < (x + (m - 1)) / m
  {
    var q, n := y / m, (x + (m - 1)) / m;
    assert y == m * q + y % m && x + (m - 1) == m * n + (x + (m - 1)) % m;
    Difference(m, q, n);
    if q > n { Multiple(m, q - n); }
  }

  lemma CeilingIsLeast(x: nat, m: nat)
    requires m > 0 && x > 0
    ensures var n := (x + (m - 1)) / m; n >= 1 && m * (n - 1) < x
  {
    var n := (x + (m - 1)) / m;
    assert x + (m - 1) == m * n + (x + (m - 1)) % m;
    CeilingOf(x, m, 0);
    Difference(m, n, 1);
  }

  lemma FewBlocks(blockCount: nat, n: nat)
    requires n >= 1 && MIN_BLOCK_COUNT <= blockCount && MIN_BLOCK_SIZE * (n - 1) < (blockCount + 7) / 8
    ensures n + 3 <= blockCount
  {
  }

  /** Everything fits into the volume. */
  lemma InsideVolume(blockCount: nat, blockSize: nat)
    requires MIN_BLOCK_COUNT <= blockCount < WORD && blockSize >= MIN_BLOCK_SIZE
    ensures BlocksToAllocate(blockCount, blockSize) <= blockCount
  {
    var bytes, n := BitmapByteSize(blockCount), BitmapBlockCount(blockCount, blockSize);
    CeilingIsLeast(bytes, blockSize);
    Monotone(MIN_BLOCK_SIZE, blockSize, n - 1);
    FewBlocks(blockCount, n);
  }

  type Disk = map<nat, Block>

  /** What a disk holds after the writes. */
  function OnDisk(ws: seq<Write>): Disk {
    if ws == [] then map[] else OnDisk(ws[..|ws| - 1])[ws[|ws| - 1].lba := ws[|ws| - 1].block]
  }

  /** Blocks that are written in order, from the first one on. */
  lemma {:induction false} OnDiskAt(ws: seq<Write>, lba: nat)
    requires forall j :: 0 <= j < |ws| ==> ws[j].lba == j
    ensures lba in OnDisk(ws) <==> lba < |ws|
    ensures lba < |ws| ==> OnDisk(ws)[lba] == ws[lba].block
  {
    if ws != [] { OnDiskAt(ws[..|ws| - 1], lba); }
  }

  /** Block `n` of the allocation bitmap, which is where the volume header says. */
  function BitmapOf(disk: Disk, n: nat): seq<bv8> {
    if 0 in disk && disk[0].VolumeHeader? && disk[0].lbaAllocBitmap + n in disk
      && disk[disk[0].lbaAllocBitmap + n].Bitmap?
    then disk[disk[0].lbaAllocBitmap + n].bytes else []
  }

  /** Whether the bitmap marks a block as allocated, as the on-disk format defines it. */
  predicate InUse(disk: Disk, blockSize: nat, lba: nat)
    requires blockSize > 0
  {
    var byteOffset := lba / 8;
    var bytes := BitmapOf(disk, byteOffset / blockSize);
    byteOffset % blockSize < |bytes| && bytes[byteOffset % blockSize] & Mask(lba % 8) != 0
  }

  /** The disk after a complete run. */
  lemma FormattedDisk(blockCount: nat, blockSize: nat, volumeLabel: string, j: nat)
    requires blockSize > 0
    ensures var disk := OnDisk(Plan(blockCount, blockSize, volumeLabel));
            && (j in disk <==> j < BlocksToAllocate(blockCount, blockSize))
            && (j in disk ==> disk[j] == Plan(blockCount, blockSize, volumeLabel)[j].block)
  {
    var ws := Plan(blockCount, blockSize, volumeLabel);
    forall i | 0 <= i < |ws| ensures ws[i].lba == i { PlanAt(blockCount, blockSize, volumeLabel, i); }
    OnDiskAt(ws, j);
  }

  lemma BitmapBlockOf(blockCount: nat, blockSize: nat, volumeLabel: string, i: nat)
    requires blockSize > 0 && i < BitmapBlockCount(blockCount, blockSize)
    ensures BitmapOf(OnDisk(Plan(blockCount, blockSize, volumeLabel)), i) == BitmapBlock(blockCount, blockSize, i).bytes
  {
    FormattedDisk(blockCount, blockSize, volumeLabel, 0);
    FormattedDisk(blockCount, blockSize, volumeLabel, 1 + i);
    PlanAt(blockCount, blockSize, volumeLabel, 0);
    PlanAt(blockCount, blockSize, volumeLabel, 1 + i);
  }

  lemma QuotientZero(x: nat, m: nat)
    requires m > 0
    ensures x / m == 0 <==> x < m
    ensures x < m ==> x % m == x
  {
    assert x == m * (x / m) + x % m;
    if x < m {
      Remainder(x, m, 0, x);
    }
  }

  /** The bitmap marks the blocks that were written, as far as one bitmap block reaches. */
  lemma MarksInUse(blockCount: nat, blockSize: nat, volumeLabel: string, lba: nat)
    requires lba < blockCount < WORD && blockSize > 0
    ensures InUse(OnDisk(Plan(blockCount, blockSize, volumeLabel)), blockSize, lba)
            <==> lba < Min(BlocksToAllocate(blockCount, blockSize), 8 * blockSize)
  {
    var i := lba / 8 / blockSize;
    CeilingOf(BitmapByteSize(blockCount), blockSize, lba / 8);
    BitmapBlockOf(blockCount, blockSize, volumeLabel, i);
    MarkedInBlock(blockSize, if i == 0 then Min(BlocksToAllocate(blockCount, blockSize), 8 * blockSize) else 0, lba);
    FirstBlock(blockSize, lba);
  }

  lemma MarkedInBlock(blockSize: nat, n: nat, lba: nat)
    requires blockSize > 0
    ensures lba / 8 % blockSize < blockSize
    ensures FirstMarked(blockSize, n)[lba / 8 % blockSize] & Mask(lba % 8) != 0 <==>
              8 * (lba / 8 % blockSize) + lba % 8 < n
  {
    FirstBitsSet(BitsOfByte(n, lba / 8 % blockSize), lba % 8);
  }

  lemma FirstBlock(blockSize: nat, lba: nat)
    requires blockSize > 0
    ensures lba / 8 / blockSize == 0 <==> lba < 8 * blockSize
    ensures lba < 8 * blockSize ==> 8 * (lba / 8 % blockSize) + lba % 8 == lba
  {
    QuotientZero(lba / 8, blockSize);
  }

  /** The bitmap marks exactly the blocks that are in use. */
  ghost predicate BitmapRight(ws: seq<Write>, blockCount: nat, blockSize: nat)
    requires blockSize > 0
  {
    forall lba :: 0 <= lba < blockCount ==> (InUse(OnDisk(ws), blockSize, lba) <==> lba < |ws|)
  }

  /**
   A formatted volume is consistent: the blocks 0 up to the content of the root directory are written,
   each one once and all of them inside of the volume. The bitmap is right if and only if these blocks
   can be counted in one bitmap block.
   */
  lemma FormattedVolume(blockCount: nat, blockSize: nat, volumeLabel: string)
    requires Status(blockCount, blockSize, volumeLabel) == EOK && blockCount < WORD
    ensures var ws := Plan(blockCount, blockSize, volumeLabel);
            && |ws| == BitmapBlockCount(blockCount, blockSize) + 3 <= blockCount
            && (forall j :: 0 <= j < |ws| ==> ws[j].lba == j)
            && (BitmapRight(ws, blockCount, blockSize) <==>
                  3 + BitmapBlockCount(blockCount, blockSize) <= 8 * blockSize)
  {
    var ws := Plan(blockCount, blockSize, volumeLabel);
    InsideVolume(blockCount, blockSize);
    forall j | 0 <= j < |ws| ensures ws[j].lba == j {
      PlanAt(blockCount, blockSize, volumeLabel, j);
    }
    if |ws| <= 8 * blockSize {
      forall lba | 0 <= lba < blockCount ensures InUse(OnDisk(ws), blockSize, lba) <==> lba < |ws| {
        MarksInUse(blockCount, blockSize, volumeLabel, lba);
      }
    } else {
      MarksInUse(blockCount, blockSize, volumeLabel, 8 * blockSize);
    }
  }

  /** A volume of 16 GB with blocks of 512 bytes is too large: its own bitmap has 8192 blocks. */
  lemma LargeVolume()
    ensures Status(0x200_0000, 512, "") == EOK && !BitmapRight(Plan(0x200_0000, 512, ""), 0x200_0000, 512)
  {
    assert IsPow2(1) && IsPow2(2) && IsPow2(4) && IsPow2(8) && IsPow2(16) && IsPow2(32) && IsPow2(64) && IsPow2(128)
           && IsPow2(256);
    FormattedVolume(0x200_0000, 512, "");
  }
}
