/**
 The disk block cache as a machine of atomic steps. All cache state is protected by one
 interlock, so every stretch of code between two waits is one step. A client call that
 waits (for a block lock, for a free disk operation, for I/O to finish) is an `Activity`
 whose `Phase` says where it waits.
 */
module DiskCacheModel {
  import opened Errors
  import opened Memory
  import opened Options

  type Ref = nat          // a block pointer; also the token a client holds while it maps the block
  type SessionRef = nat   // a session pointer
  type Act = nat          // identifies one client call, from its map (or sync) to its release

  const HASH_CHAIN_COUNT := 8
  const SIZE_MODULUS := 0x1_0000_0000

  datatype Key = Key(sid: nat, lba: nat)

  datatype IoOp = Idle | Read | Write

  datatype DiskBlock = DiskBlock(
    key: Key,
    shareCount: nat,
    exclusive: bool,
    hasData: bool,
    isDirty: bool,
    isPinned: bool,
    op: IoOp,
    isAsync: bool,
    readError: Errno,
    data: Bytes)

  datatype DiskOp = DiskOp(kind: IoOp, blk: Ref)

  datatype Session = Session(
    sessionId: nat,
    isOpen: bool,
    activeMappingsCount: int,
    dopsCache: nat,
    dopsInUse: seq<DiskOp>)

  datatype MapMode = ReadOnly | Update | Replace | Cleared
  datatype WriteMode = NoWrite | Sync | Deferred
  datatype LockMode = Shared | Exclusive
  datatype Held = NotHeld | HeldShared | HeldExclusive

  /** Where a client call currently is. */
  datatype Phase =
    | MapWait(mode: MapMode, lock: LockMode) // block found, content lock taken by somebody else
    | MapNeedsRead(mode: MapMode)            // locked exclusively, waiting for a disk operation
    | MapReading(mode: MapMode)              // read submitted
    | Mapped(mode: MapMode)                  // the client may use the block's data
    | UnmapNeedsWrite                        // sync unmap, waiting for a disk operation
    | UnmapWriting                           // sync unmap, write submitted
    | SyncNeedsWrite                         // write back of a dirty block, waiting for a disk operation
    | SyncWriting                            // write back, write submitted

  /** `touched` records that the client changed the data and has not written it back yet. */
  datatype Activity = Activity(
    s: SessionRef,
    ref: Ref,
    key: Key,
    phase: Phase,
    held: Held,
    touched: bool)

  type Chains = h: seq<seq<Ref>> | |h| == HASH_CHAIN_COUNT witness [[], [], [], [], [], [], [], []]

  datatype Cache = Cache(
    nextAvailSessionId: nat,
    lruGeneration: nat,
    lru: seq<Ref>,                 // first is the most recently used block
    hash: Chains,
    blockSize: nat,
    blockCount: nat,
    blockCapacity: nat,
    dirtyBlockCount: int,
    blocks: map<Ref, DiskBlock>,
    sessions: map<SessionRef, Session>,
    acts: map<Act, Activity>,
    disk: map<Key, Bytes>)

  // ---------------------------------------------------------------------------------------
  // Blocks

  predicate InUse(b: DiskBlock) {
    b.shareCount > 0 || b.exclusive
  }

  /** `DiskBlock_HashKey` masked with `DISK_BLOCK_HASH_CHAIN_MASK`. */
  function Bucket(k: Key): (i: nat)
    ensures i < HASH_CHAIN_COUNT
  {
    (k.sid + k.lba) % SIZE_MODULUS % HASH_CHAIN_COUNT
  }

  function Zeros(n: nat): Bytes {
    seq(n, i => 0)
  }

  function NewBlock(k: Key, blockSize: nat): DiskBlock {
    DiskBlock(k, 0, false, false, false, false, Idle, false, EOK, Zeros(blockSize))
  }

  predicate CanLock(b: DiskBlock, mode: LockMode) {
    match mode
    case Shared => !b.exclusive
    case Exclusive => !b.exclusive && b.shareCount == 0
  }

  function Lock(b: DiskBlock, mode: LockMode): DiskBlock {
    match mode
    case Shared => b.(shareCount := b.shareCount + 1)
    case Exclusive => b.(exclusive := true)
  }

  function Unlock(b: DiskBlock): DiskBlock
    requires InUse(b)
  {
    if b.exclusive then b.(exclusive := false) else b.(shareCount := b.shareCount - 1)
  }

  function Downgrade(b: DiskBlock): DiskBlock
    requires b.exclusive
  {
    b.(exclusive := false, shareCount := b.shareCount + 1)
  }

  // ---------------------------------------------------------------------------------------
  // Chains

  function Without(s: seq<Ref>, r: Ref): seq<Ref> {
    if s == [] then [] else if s[0] == r then s[1..] else [s[0]] + Without(s[1..], r)
  }

  function FindInChain(chain: seq<Ref>, blocks: map<Ref, DiskBlock>, k: Key): Option<Ref> {
    if chain == [] then None
    else if chain[0] in blocks && blocks[chain[0]].key == k then Some(chain[0])
    else FindInChain(chain[1..], blocks, k)
  }

  function Find(c: Cache, k: Key): Option<Ref> {
    FindInChain(c.hash[Bucket(k)], c.blocks, k)
  }

  predicate Reusable(b: DiskBlock) {
    !InUse(b) && !b.isDirty && !b.isPinned
  }

  /** The reusable block closest to the end of the LRU chain. */
  function Victim(lru: seq<Ref>, blocks: map<Ref, DiskBlock>): Option<Ref> {
    if lru == [] then None
    else
      var r := lru[|lru| - 1];
      if r in blocks && Reusable(blocks[r]) then Some(r) else Victim(lru[..|lru| - 1], blocks)
  }

  function Register(c: Cache, r: Ref): Cache
    requires r in c.blocks
  {
    var i := Bucket(c.blocks[r].key);
    c.(hash := c.hash[i := [r] + c.hash[i]], lru := [r] + c.lru, lruGeneration := c.lruGeneration + 1)
  }

  function Deregister(c: Cache, r: Ref): Cache
    requires r in c.blocks
  {
    var i := Bucket(c.blocks[r].key);
    c.(hash := c.hash[i := Without(c.hash[i], r)], lru := Without(c.lru, r), lruGeneration := c.lruGeneration + 1)
  }

  function RecentUse(c: Cache, r: Ref): Cache {
    c.(lru := [r] + Without(c.lru, r), lruGeneration := c.lruGeneration + 1)
  }

  function CreateBlock(c: Cache, r: Ref, k: Key): Cache {
    Register(c.(blocks := c.blocks[r := NewBlock(k, c.blockSize)]), r).(blockCount := c.blockCount + 1)
  }

  function RecycleBlock(c: Cache, r: Ref, k: Key): Cache
    requires r in c.blocks
  {
    var b := c.blocks[r].(key := k, data := Zeros(c.blockSize), hasData := false);
    Register(Deregister(c, r).(blocks := c.blocks[r := b]), r)
  }

  /** `_DiskCache_GetBlock` with the options Allocate and RecentUse. None: the caller has to wait. */
  function GetBlock(c: Cache, k: Key, newRef: Ref): Option<(Cache, Ref)> {
    match Find(c, k)
    case Some(r) => Some((RecentUse(c, r), r))
    case None =>
      if c.blockCount < c.blockCapacity then
        Some((RecentUse(CreateBlock(c, newRef, k), newRef), newRef))
      else
        match Victim(c.lru, c.blocks)
        case Some(r) => if r in c.blocks then Some((RecentUse(RecycleBlock(c, r, k), r), r)) else None
        case None => None
  }

  // ---------------------------------------------------------------------------------------
  // Steps

  datatype Event =
    | EvOpen(s: SessionRef, content: map<nat, Bytes>)
    | EvClose(s: SessionRef)
    | EvMap(a: Act, s: SessionRef, lba: nat, mode: MapMode, newRef: Ref)
    | EvLock(a: Act)
    | EvGiveUp(a: Act)
    | EvStartIo(a: Act, accepted: bool)
    | EvIoDone(s: SessionRef, err: Errno, rlen: nat, junk: Bytes)
    | EvFinish(a: Act, cancelled: bool)
    | EvStore(a: Act, data: Bytes)
    | EvUnmap(a: Act, wmode: WriteMode)
    | EvSync(a: Act, s: SessionRef, lba: nat)
    | EvPin(s: SessionRef, lba: nat, pinned: bool)

  function SetBlock(c: Cache, r: Ref, b: DiskBlock): Cache {
    c.(blocks := c.blocks[r := b])
  }

  function SetAct(c: Cache, a: Act, x: Activity): Cache {
    c.(acts := c.acts[a := x])
  }

  function EndAct(c: Cache, a: Act): Cache {
    c.(acts := c.acts - {a})
  }

  function AddMappings(c: Cache, s: SessionRef, n: int): Cache
    requires s in c.sessions
  {
    var x := c.sessions[s];
    c.(sessions := c.sessions[s := x.(activeMappingsCount := x.activeMappingsCount + n)])
  }

  /** The content of a medium, addressed through session `sid`. */
  function MediaKeys(sid: nat, content: map<nat, Bytes>): map<Key, Bytes> {
    map lba | lba in content :: Key(sid, lba) := content[lba]
  }

  function Open(c: Cache, s: SessionRef, content: map<nat, Bytes>): Cache {
    c.(sessions := c.sessions[s := Session(c.nextAvailSessionId, true, 0, 1, [])],
       nextAvailSessionId := c.nextAvailSessionId + 1,
       disk := c.disk + MediaKeys(c.nextAvailSessionId, content))
  }

  function Close(c: Cache, s: SessionRef): Cache
    requires s in c.sessions
  {
    c.(sessions := c.sessions[s := c.sessions[s].(sessionId := 0, isOpen := false)])
  }

  /** The part of `DiskCache_MapBlock` up to the acquisition of the content lock. */
  function Map(c: Cache, a: Act, s: SessionRef, lba: nat, mode: MapMode, newRef: Ref): Cache
    requires s in c.sessions
    requires var g := GetBlock(c, Key(c.sessions[s].sessionId, lba), newRef); g.Some? && g.value.1 in g.value.0.blocks
  {
    var k := Key(c.sessions[s].sessionId, lba);
    var (c1, r) := GetBlock(c, k, newRef).value;
    var lock := if mode == ReadOnly && c1.blocks[r].hasData then Shared else Exclusive;
    SetAct(c1, a, Activity(s, r, k, MapWait(mode, lock), NotHeld, false))
  }

  function HeldBy(lock: LockMode): Held {
    match lock
    case Shared => HeldShared
    case Exclusive => HeldExclusive
  }

  /** The block after the content lock was acquired and, for Cleared and Replace, its data was declared valid. */
  function LockedForMap(b: DiskBlock, mode: MapMode, lock: LockMode, blockSize: nat): DiskBlock {
    var b1 := Lock(b, lock);
    match mode
    case Cleared => b1.(data := Zeros(blockSize), hasData := true)
    case Replace => b1.(hasData := true)
    case _ => b1
  }

  /** Acquires the content lock and carries on until the block is mapped or must be read first. */
  function LockForMap(c: Cache, a: Act): Cache
    requires a in c.acts && c.acts[a].phase.MapWait?
    requires c.acts[a].ref in c.blocks && c.acts[a].s in c.sessions
  {
    var x := c.acts[a];
    var mode := x.phase.mode;
    var b := LockedForMap(c.blocks[x.ref], mode, x.phase.lock, c.blockSize);
    var x1 := x.(held := HeldBy(x.phase.lock), phase := if b.hasData then Mapped(mode) else MapNeedsRead(mode),
                 touched := mode == Cleared || mode == Replace);
    var c1 := SetAct(SetBlock(c, x.ref, b), a, x1);
    if b.hasData then AddMappings(c1, x.s, 1) else c1
  }

  /** `DiskCache_MapBlock` up to its first wait: it takes the content lock at once if that is free. */
  function MapNow(c: Cache, a: Act, s: SessionRef, lba: nat, mode: MapMode, newRef: Ref): Cache
    requires CanMap(c, a, s, lba, newRef)
  {
    var d := Map(c, a, s, lba, mode, newRef);
    if CanLockForMap(d, a) then LockForMap(d, a) else d
  }

  /** Ends a client call: drops its lock on the block. */
  function Release(c: Cache, a: Act, r: Ref): Cache
    requires r in c.blocks && InUse(c.blocks[r])
  {
    EndAct(SetBlock(c, r, Unlock(c.blocks[r])), a)
  }

  function IoKind(p: Phase): IoOp {
    match p
    case MapNeedsRead(_) => Read
    case MapReading(_) => Read
    case UnmapNeedsWrite => Write
    case UnmapWriting => Write
    case SyncNeedsWrite => Write
    case SyncWriting => Write
    case _ => Idle
  }

  predicate NeedsIo(p: Phase) {
    p.MapNeedsRead? || p.UnmapNeedsWrite? || p.SyncNeedsWrite?
  }

  predicate DoingIo(p: Phase) {
    p.MapReading? || p.UnmapWriting? || p.SyncWriting?
  }

  function Submitted(p: Phase): Phase
    requires NeedsIo(p)
  {
    match p
    case MapNeedsRead(m) => MapReading(m)
    case UnmapNeedsWrite => UnmapWriting
    case SyncNeedsWrite => SyncWriting
  }

  /** How a client call ends whose I/O failed to start, or is over (`err` is what the caller sees). */
  function Complete(c: Cache, a: Act, err: Errno): Cache
    requires a in c.acts && (NeedsIo(c.acts[a].phase) || DoingIo(c.acts[a].phase))
    requires c.acts[a].ref in c.blocks && c.acts[a].s in c.sessions
    requires InUse(c.blocks[c.acts[a].ref])
    requires IoKind(c.acts[a].phase) == Read ==> c.blocks[c.acts[a].ref].exclusive
  {
    var x := c.acts[a];
    match x.phase
    case MapNeedsRead(mode) => FinishMap(c, a, mode, err)
    case MapReading(mode) => FinishMap(c, a, mode, err)
    case UnmapNeedsWrite => Release(AddMappings(c, x.s, -1), a, x.ref)
    case UnmapWriting => Release(AddMappings(c, x.s, -1), a, x.ref)
    case SyncNeedsWrite => Release(c, a, x.ref)
    case SyncWriting => Release(c, a, x.ref)
  }

  function FinishMap(c: Cache, a: Act, mode: MapMode, err: Errno): Cache
    requires a in c.acts && c.acts[a].ref in c.blocks && c.acts[a].s in c.sessions
    requires c.blocks[c.acts[a].ref].exclusive
  {
    var x := c.acts[a];
    var b := c.blocks[x.ref];
    var b1 := if mode == ReadOnly then Downgrade(b) else b;
    var c1 := SetBlock(c, x.ref, b1);
    if err == EOK then
      AddMappings(SetAct(c1, a, x.(phase := Mapped(mode),
                                   held := if mode == ReadOnly then HeldShared else HeldExclusive)), x.s, 1)
    else
      Release(c1, a, x.ref)
  }

  /** `_DiskCache_StartReadOp` / `_DiskCache_StartWriteOp` with a cluster size of one block. */
  function Submit(c: Cache, s: SessionRef, r: Ref, kind: IoOp): Cache
    requires s in c.sessions && c.sessions[s].dopsCache > 0 && r in c.blocks
  {
    var x := c.sessions[s];
    SetBlock(c, r, c.blocks[r].(op := kind, isAsync := false, readError := EOK))
    .(sessions := c.sessions[s := x.(dopsCache := x.dopsCache - 1, dopsInUse := [DiskOp(kind, r)] + x.dopsInUse)])
  }

  function StartIo(c: Cache, a: Act, accepted: bool): Cache
    requires CanStartIo(c, a)
  {
    var x := c.acts[a];
    var c1 := Submit(c, x.s, x.ref, IoKind(x.phase));
    if accepted then SetAct(c1, a, x.(phase := Submitted(x.phase))) else Complete(c1, a, EIO)
  }

  /** The status `_on_disk_op_done` derives from the driver's result: a short transfer is an error. */
  function Status(err: Errno, rlen: nat, blockSize: nat): Errno {
    if rlen < blockSize && err == EOK then EIO else err
  }

  /** `_DiskCache_OnBlockRequestDone`, with the transfer that the driver did. */
  function BlockDone(b: DiskBlock, kind: IoOp, status: Errno, incoming: Bytes): DiskBlock {
    var b1 := match kind
      case Read => (if status == EOK then b.(hasData := true) else b).(readError := status, data := incoming)
      case _ => if status == EOK then b.(isDirty := false) else b;
    var b2 := b1.(isAsync := false, op := Idle);
    if b.isAsync && InUse(b2) then Unlock(b2) else b2
  }

  function IoDone(c: Cache, s: SessionRef, err: Errno, rlen: nat, junk: Bytes): Cache
    requires CanIoDone(c, s, err, rlen)
  {
    var x := c.sessions[s];
    var d := x.dopsInUse[0];
    var b := c.blocks[d.blk];
    var status := Status(err, rlen, c.blockSize);
    var incoming := if status == EOK && d.kind == Read then c.disk[b.key] else junk;
    var outgoing := if status == EOK then b.data else junk;
    SetBlock(c, d.blk, BlockDone(b, d.kind, status, incoming))
    .(dirtyBlockCount :=
        if d.kind == Write && status == EOK && b.isDirty then c.dirtyBlockCount - 1 else c.dirtyBlockCount,
      disk := if d.kind == Write && b.key in c.disk then c.disk[b.key := outgoing] else c.disk,
      sessions := c.sessions[s := x.(dopsInUse := x.dopsInUse[1..], dopsCache := x.dopsCache + 1)])
  }

  function Finish(c: Cache, a: Act, cancelled: bool): Cache
    requires CanFinish(c, a, cancelled)
  {
    Complete(c, a, if cancelled then ECANCELED else c.blocks[c.acts[a].ref].readError)
  }

  function Store(c: Cache, a: Act, data: Bytes): Cache
    requires a in c.acts && c.acts[a].ref in c.blocks
  {
    var x := c.acts[a];
    SetAct(SetBlock(c, x.ref, c.blocks[x.ref].(data := data)), a, x.(touched := true))
  }

  function Unmap(c: Cache, a: Act, wmode: WriteMode): Cache
    requires CanUnmap(c, a, wmode)
  {
    var x := c.acts[a];
    var b := c.blocks[x.ref];
    match wmode
    case NoWrite => Release(AddMappings(c, x.s, -1), a, x.ref)
    case Sync =>
      var c1 := SetBlock(c, x.ref, Downgrade(b));
      if b.isPinned then
        Release(AddMappings(c1, x.s, -1), a, x.ref)
      else
        SetAct(c1, a, x.(phase := UnmapNeedsWrite, held := HeldShared, touched := false))
    case Deferred =>
      var c1 := SetBlock(c, x.ref, b.(isDirty := true))
        .(dirtyBlockCount := if b.isDirty then c.dirtyBlockCount else c.dirtyBlockCount + 1);
      Release(AddMappings(c1, x.s, -1), a, x.ref)
  }

  function SyncBlock(c: Cache, a: Act, s: SessionRef, lba: nat): Cache
    requires CanSync(c, a, s, lba)
  {
    var k := Key(c.sessions[s].sessionId, lba);
    var r := Find(c, k).value;
    SetAct(SetBlock(c, r, Lock(c.blocks[r], Shared)), a, Activity(s, r, k, SyncNeedsWrite, HeldShared, false))
  }

  function Pin(c: Cache, s: SessionRef, lba: nat, pinned: bool): Cache
    requires Found(c, s, lba)
  {
    var r := Find(c, Key(c.sessions[s].sessionId, lba)).value;
    SetBlock(c, r, c.blocks[r].(isPinned := pinned))
  }

  predicate KnownAct(c: Cache, a: Act) {
    a in c.acts && c.acts[a].ref in c.blocks && c.acts[a].s in c.sessions
  }

  predicate IsOpen(c: Cache, s: SessionRef) {
    s in c.sessions && c.sessions[s].isOpen
  }

  // When a step can happen: the code's own wait conditions and assertions.

  predicate CanClose(c: Cache, s: SessionRef) {
    IsOpen(c, s) && c.sessions[s].activeMappingsCount <= 0
  }

  predicate CanMap(c: Cache, a: Act, s: SessionRef, lba: nat, newRef: Ref) {
    && a !in c.acts && newRef !in c.blocks && IsOpen(c, s)
    && var g := GetBlock(c, Key(c.sessions[s].sessionId, lba), newRef);
       g.Some? && g.value.1 in g.value.0.blocks
  }

  predicate CanLockForMap(c: Cache, a: Act) {
    KnownAct(c, a) && c.acts[a].phase.MapWait? && CanLock(c.blocks[c.acts[a].ref], c.acts[a].phase.lock)
  }

  /** The wait for the content lock is interrupted. */
  predicate CanGiveUp(c: Cache, a: Act) {
    KnownAct(c, a) && c.acts[a].phase.MapWait?
  }

  predicate CanStartIo(c: Cache, a: Act) {
    && KnownAct(c, a) && NeedsIo(c.acts[a].phase) && c.sessions[c.acts[a].s].dopsCache > 0
    && InUse(c.blocks[c.acts[a].ref])
    && (c.acts[a].phase.MapNeedsRead? ==> c.blocks[c.acts[a].ref].exclusive)
  }

  predicate CanIoDone(c: Cache, s: SessionRef, err: Errno, rlen: nat) {
    && s in c.sessions && c.sessions[s].dopsInUse != [] && c.sessions[s].dopsInUse[0].blk in c.blocks
    && c.sessions[s].dopsInUse[0].kind != Idle
    && (Status(err, rlen, c.blockSize) == EOK ==> c.blocks[c.sessions[s].dopsInUse[0].blk].key in c.disk)
  }

  predicate CanFinish(c: Cache, a: Act, cancelled: bool) {
    && KnownAct(c, a) && DoingIo(c.acts[a].phase)
    && InUse(c.blocks[c.acts[a].ref])
    && (c.acts[a].phase.MapReading? ==> c.blocks[c.acts[a].ref].exclusive)
    && (cancelled || c.blocks[c.acts[a].ref].op != IoKind(c.acts[a].phase))
  }

  predicate CanStore(c: Cache, a: Act) {
    KnownAct(c, a) && c.acts[a].phase.Mapped? && c.acts[a].held == HeldExclusive
  }

  predicate CanUnmap(c: Cache, a: Act, wmode: WriteMode) {
    && KnownAct(c, a) && c.acts[a].phase.Mapped? && InUse(c.blocks[c.acts[a].ref])
    && (wmode != NoWrite ==> c.blocks[c.acts[a].ref].exclusive)
  }

  predicate Found(c: Cache, s: SessionRef, lba: nat) {
    && IsOpen(c, s)
    && var f := Find(c, Key(c.sessions[s].sessionId, lba)); f.Some? && f.value in c.blocks
  }

  predicate CanSync(c: Cache, a: Act, s: SessionRef, lba: nat) {
    && a !in c.acts && Found(c, s, lba)
    && var b := c.blocks[Find(c, Key(c.sessions[s].sessionId, lba)).value];
       !InUse(b) && b.isDirty && !b.isPinned && b.op != Write
  }

  predicate Enabled(c: Cache, e: Event) {
    match e
    case EvOpen(s, content) => true
    case EvClose(s) => CanClose(c, s)
    case EvMap(a, s, lba, mode, newRef) => CanMap(c, a, s, lba, newRef)
    case EvLock(a) => CanLockForMap(c, a)
    case EvGiveUp(a) => CanGiveUp(c, a)
    case EvStartIo(a, accepted) => CanStartIo(c, a)
    case EvIoDone(s, err, rlen, junk) => CanIoDone(c, s, err, rlen)
    case EvFinish(a, cancelled) => CanFinish(c, a, cancelled)
    case EvStore(a, data) => CanStore(c, a)
    case EvUnmap(a, wmode) => CanUnmap(c, a, wmode)
    case EvSync(a, s, lba) => CanSync(c, a, s, lba)
    case EvPin(s, lba, pinned) => Found(c, s, lba)
  }

  function Step(c: Cache, e: Event): Cache
    requires Enabled(c, e)
  {
    match e
    case EvOpen(s, content) => Open(c, s, content)
    case EvClose(s) => Close(c, s)
    case EvMap(a, s, lba, mode, newRef) => MapNow(c, a, s, lba, mode, newRef)
    case EvLock(a) => LockForMap(c, a)
    case EvGiveUp(a) => EndAct(c, a)
    case EvStartIo(a, accepted) => StartIo(c, a, accepted)
    case EvIoDone(s, err, rlen, junk) => IoDone(c, s, err, rlen, junk)
    case EvFinish(a, cancelled) => Finish(c, a, cancelled)
    case EvStore(a, data) => Store(c, a, data)
    case EvUnmap(a, wmode) => Unmap(c, a, wmode)
    case EvSync(a, s, lba) => SyncBlock(c, a, s, lba)
    case EvPin(s, lba, pinned) => Pin(c, s, lba, pinned)
  }

  function Init(blockSize: nat, maxBlockCount: nat): Cache {
    Cache(1, 0, [], [[], [], [], [], [], [], [], []], blockSize, 0, maxBlockCount, 0, map[], map[], map[], map[])
  }
}
