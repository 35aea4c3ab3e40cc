/** Writing dirty blocks back: what one synchronous write does, and what a whole sync does. */
module DiskCacheSync {
  import opened DiskCacheModel
  import opened DiskCacheInvariant
  import opened DiskCacheSteps
  import opened DiskCacheRefinement
  import opened Errors
  import opened Memory
  import opened Options

  /** What the driver reports for a request, and what a failed transfer leaves behind. */
  datatype DriverResult = DriverResult(err: Errno, rlen: nat, junk: Bytes)

  function StatusOf(res: DriverResult, blockSize: nat): Errno {
    Status(res.err, res.rlen, blockSize)
  }

  predicate Syncable(b: DiskBlock, sid: nat) {
    !InUse(b) && b.isDirty && !b.isPinned && b.key.sid == sid
  }

  function Flushed(b: DiskBlock, status: Errno): DiskBlock {
    b.(isDirty := b.isDirty && status != EOK, readError := EOK, isAsync := false)
  }

  function FlushedDisk(disk: map<Key, Bytes>, b: DiskBlock, status: Errno, junk: Bytes): map<Key, Bytes> {
    if b.key in disk then disk[b.key := if status == EOK then b.data else junk] else disk
  }

  /** The effect of one write back that nothing interrupts. */
  function FlushOne(c: Cache, r: Ref, res: DriverResult): Cache
    requires r in c.blocks
  {
    var b := c.blocks[r];
    var status := StatusOf(res, c.blockSize);
    SetBlock(c, r, Flushed(b, status))
    .(dirtyBlockCount := if b.isDirty && status == EOK then c.dirtyBlockCount - 1 else c.dirtyBlockCount,
      disk := FlushedDisk(c.disk, b, status, res.junk))
  }

  /** The block can be written back now: it is idle and the session's disk operation is free. */
  ghost predicate CanFlush(c: Cache, s: SessionRef, r: Ref, res: DriverResult) {
    && IsOpen(c, s) && r in c.blocks && Syncable(c.blocks[r], c.sessions[s].sessionId)
    && c.blocks[r].op == Idle && !c.blocks[r].isAsync && !c.blocks[r].exclusive
    && c.sessions[s].dopsInUse == [] && c.sessions[s].dopsCache == 1
    && (StatusOf(res, c.blockSize) == EOK ==> c.blocks[r].key in c.disk)
  }

  lemma CanFlushNow(c: Cache, s: SessionRef, r: Ref, res: DriverResult)
    requires Inv(c) && IsOpen(c, s) && r in c.blocks && Syncable(c.blocks[r], c.sessions[s].sessionId)
    requires c.sessions[s].dopsInUse == []
    requires StatusOf(res, c.blockSize) == EOK ==> c.blocks[r].key in c.disk
    ensures CanFlush(c, s, r, res) && Find(c, c.blocks[r].key) == Some(r)
  {
    FindsBlock(c, r);
    assert SessionOk(c, s) && BlockInv(c.blocks[r], r, c.acts);
  }

  // A write back that nothing interrupts, step by step.

  function Locked(c: Cache, a: Act, s: SessionRef, r: Ref): Cache
    requires r in c.blocks
  {
    SetAct(SetBlock(c, r, Lock(c.blocks[r], Shared)), a,
           Activity(s, r, c.blocks[r].key, SyncNeedsWrite, HeldShared, false))
  }

  function InTransit(c: Cache, a: Act, s: SessionRef, r: Ref): Cache
    requires r in c.blocks && s in c.sessions
  {
    var b := Lock(c.blocks[r], Shared).(op := Write, isAsync := false, readError := EOK);
    SetAct(SetBlock(c, r, b), a, Activity(s, r, c.blocks[r].key, SyncWriting, HeldShared, false))
    .(sessions := c.sessions[s := c.sessions[s].(dopsCache := 0, dopsInUse := [DiskOp(Write, r)])])
  }

  function Arrived(c: Cache, a: Act, s: SessionRef, r: Ref, res: DriverResult): Cache
    requires r in c.blocks
  {
    var c1 := FlushOne(c, r, res);
    SetAct(SetBlock(c1, r, Lock(c1.blocks[r], Shared)), a,
           Activity(s, r, c.blocks[r].key, SyncWriting, HeldShared, false))
  }

  lemma FlushLocks(c: Cache, a: Act, s: SessionRef, r: Ref, res: DriverResult)
    requires CanFlush(c, s, r, res) && Find(c, c.blocks[r].key) == Some(r) && a !in c.acts
    ensures CanSync(c, a, s, c.blocks[r].key.lba)
    ensures SyncBlock(c, a, s, c.blocks[r].key.lba) == Locked(c, a, s, r)
  {
    assert Key(c.sessions[s].sessionId, c.blocks[r].key.lba) == c.blocks[r].key;
  }

  lemma FlushStarts(c: Cache, a: Act, s: SessionRef, r: Ref, res: DriverResult)
    requires CanFlush(c, s, r, res) && a !in c.acts
    ensures CanStartIo(Locked(c, a, s, r), a)
    ensures DiskCacheModel.StartIo(Locked(c, a, s, r), a, true) == InTransit(c, a, s, r)
  {
    var d := DiskCacheModel.StartIo(Locked(c, a, s, r), a, true);
    assert [DiskOp(Write, r)] + c.sessions[s].dopsInUse == [DiskOp(Write, r)];
    assert d.blocks == InTransit(c, a, s, r).blocks && d.acts == InTransit(c, a, s, r).acts;
  }

  lemma FlushArrives(c: Cache, a: Act, s: SessionRef, r: Ref, res: DriverResult)
    requires CanFlush(c, s, r, res) && a !in c.acts
    ensures CanIoDone(InTransit(c, a, s, r), s, res.err, res.rlen)
    ensures IoDone(InTransit(c, a, s, r), s, res.err, res.rlen, res.junk) == Arrived(c, a, s, r, res)
  {
    var d := IoDone(InTransit(c, a, s, r), s, res.err, res.rlen, res.junk);
    assert [DiskOp(Write, r)][1..] == c.sessions[s].dopsInUse;
    assert d.sessions[s] == c.sessions[s];
    assert d.blocks == Arrived(c, a, s, r, res).blocks && d.sessions == c.sessions;
  }

  lemma FlushEnds(c: Cache, a: Act, s: SessionRef, r: Ref, res: DriverResult)
    requires CanFlush(c, s, r, res) && a !in c.acts
    ensures CanFinish(Arrived(c, a, s, r, res), a, false) && !InFlight(Arrived(c, a, s, r, res), a)
    ensures Finish(Arrived(c, a, s, r, res), a, false) == FlushOne(c, r, res)
  {
    var d := Finish(Arrived(c, a, s, r, res), a, false);
    assert d.blocks == FlushOne(c, r, res).blocks && d.acts == c.acts;
  }

  /** A write back keeps the invariant and is invisible to clients. */
  lemma FlushKeeps(c: Cache, s: SessionRef, r: Ref, res: DriverResult)
    requires Inv(c) && CanFlush(c, s, r, res)
    ensures Inv(FlushOne(c, r, res))
    ensures forall store :: StoreInv(c, store) ==> StoreInv(FlushOne(c, r, res), store)
  {
    var a := FreshAct(c.acts.Keys);
    FindsBlock(c, r);
    FlushLocks(c, a, s, r, res);
    FlushStarts(c, a, s, r, res);
    FlushArrives(c, a, s, r, res);
    FlushEnds(c, a, s, r, res);
    FlushKeepsInv(c, a, s, r, res);
    forall store | StoreInv(c, store) ensures StoreInv(FlushOne(c, r, res), store) {
      SyncRefines(c, store, a, s, c.blocks[r].key.lba);
      StartIoRefines(Locked(c, a, s, r), store, a);
      IoDoneRefines(InTransit(c, a, s, r), store, s, res.err, res.rlen, res.junk);
      FinishRefines(Arrived(c, a, s, r, res), store, a, false);
    }
  }

  lemma FlushKeepsInv(c: Cache, a: Act, s: SessionRef, r: Ref, res: DriverResult)
    requires Inv(c) && CanFlush(c, s, r, res) && a !in c.acts
    ensures Inv(Locked(c, a, s, r)) && Inv(InTransit(c, a, s, r)) && Inv(Arrived(c, a, s, r, res))
    ensures Inv(FlushOne(c, r, res))
  {
    FindsBlock(c, r);
    FlushLocks(c, a, s, r, res);
    FlushStarts(c, a, s, r, res);
    FlushArrives(c, a, s, r, res);
    FlushEnds(c, a, s, r, res);
    SyncStep(c, a, s, c.blocks[r].key.lba);
    StartIoStep(Locked(c, a, s, r), a);
    IoDoneStep(InTransit(c, a, s, r), s, res.err, res.rlen, res.junk);
    FinishStep(Arrived(c, a, s, r, res), a, false);
  }

  /** Every block of the session that could be written back was, the blocks in `done` are accounted for. */
  ghost predicate FlushedAll(before: map<Ref, DiskBlock>, after: map<Ref, DiskBlock>, done: set<Ref>, sid: nat,
                             driver: Ref -> DriverResult, blockSize: nat)
  {
    && after.Keys == before.Keys
    && forall r :: r in before ==>
         after[r] == if r in done && Syncable(before[r], sid) then Flushed(before[r], StatusOf(driver(r), blockSize))
           else before[r]
  }

  ghost predicate WrittenBack(blocks: map<Ref, DiskBlock>, done: set<Ref>, sid: nat, r: Ref) {
    r in blocks && r in done && Syncable(blocks[r], sid)
  }

  /** The disk holds the bytes of the blocks written back and is otherwise unchanged. */
  ghost predicate FlushedMedia(blocks: map<Ref, DiskBlock>, before: map<Key, Bytes>, after: map<Key, Bytes>,
                               done: set<Ref>,
                               sid: nat, driver: Ref -> DriverResult, blockSize: nat)
  {
    && after.Keys == before.Keys
    && (forall r :: WrittenBack(blocks, done, sid, r) && blocks[r].key in before ==>
          after[blocks[r].key] == if StatusOf(driver(r), blockSize) == EOK then blocks[r].data else driver(r).junk)
    && (forall k :: k in before && (forall r :: WrittenBack(blocks, done, sid, r) ==> blocks[r].key != k) ==>
          after[k] == before[k])
  }

  lemma FlushedAllStep(before: map<Ref, DiskBlock>, mid: map<Ref, DiskBlock>, after: map<Ref, DiskBlock>,
                       done: set<Ref>, r: Ref,
                       sid: nat, driver: Ref -> DriverResult, blockSize: nat)
    requires FlushedAll(before, mid, done, sid, driver, blockSize) && r in before && r !in done
    requires after == if Syncable(before[r], sid) then mid[r := Flushed(before[r], StatusOf(driver(r), blockSize))]
             else mid
    ensures FlushedAll(before, after, done + {r}, sid, driver, blockSize)
  {
  }

  lemma FlushedMediaStep(blocks: map<Ref, DiskBlock>, before: map<Key, Bytes>, mid: map<Key, Bytes>,
                         after: map<Key, Bytes>,
                         done: set<Ref>, r: Ref, sid: nat, driver: Ref -> DriverResult, blockSize: nat)
    requires UniqueKeys(blocks) && FlushedMedia(blocks, before, mid, done, sid, driver, blockSize) && r in blocks
    requires r !in done
    requires after == if Syncable(blocks[r], sid)
                      then FlushedDisk(mid, blocks[r], StatusOf(driver(r), blockSize), driver(r).junk) else mid
    ensures FlushedMedia(blocks, before, after, done + {r}, sid, driver, blockSize)
  {
    var done' := done + {r};
    forall k | k in before && (forall q :: WrittenBack(blocks, done', sid, q) ==> blocks[q].key != k)
      ensures after[k] == before[k] {
      assert forall q :: WrittenBack(blocks, done, sid, q) ==> WrittenBack(blocks, done', sid, q);
      assert Syncable(blocks[r], sid) ==> WrittenBack(blocks, done', sid, r);
    }
    forall q | WrittenBack(blocks, done', sid, q) && blocks[q].key in before
      ensures after[blocks[q].key] == if StatusOf(driver(q), blockSize) == EOK then blocks[q].data else driver(q).junk {
      if q != r { assert WrittenBack(blocks, done, sid, q); }
    }
  }

  /** The blocks on the LRU chain from position `i` on. */
  ghost function TailOf(lru: seq<Ref>, i: nat): set<Ref>
    requires i <= |lru|
  {
    set j | i <= j < |lru| :: lru[j]
  }

  lemma TailStep(lru: seq<Ref>, S: set<Ref>, i: nat)
    requires Lists(lru, S) && i < |lru|
    ensures lru[i] in S && lru[i] !in TailOf(lru, i + 1) && TailOf(lru, i) == TailOf(lru, i + 1) + {lru[i]}
  {
    ListsMember(lru, S, lru[i]);
    forall j | i < j < |lru| ensures lru[j] != lru[i] {
      assert lru == lru[..i] + [lru[i]] + lru[i + 1..j] + [lru[j]] + lru[j + 1..];
      assert multiset(lru)[lru[i]] <= 1;
    }
  }

  lemma TailWhole(lru: seq<Ref>, S: set<Ref>)
    requires Lists(lru, S)
    ensures TailOf(lru, 0) == S && TailOf(lru, |lru|) == {}
  {
    forall r ensures r in TailOf(lru, 0) <==> r in S {
      ListsMember(lru, S, r);
    }
  }

  /** What a sync turned the state `c` into, as far as the blocks in `done` are concerned. */
  ghost predicate Synced(c: Cache, d: Cache, sid: nat, done: set<Ref>, driver: Ref -> DriverResult) {
    && Inv(d) && d == c.(blocks := d.blocks, disk := d.disk, dirtyBlockCount := d.dirtyBlockCount)
    && FlushedAll(c.blocks, d.blocks, done, sid, driver, c.blockSize)
    && FlushedMedia(c.blocks, c.disk, d.disk, done, sid, driver, c.blockSize)
    && LooksTheSame(c, d)
  }

  /** Clients cannot tell the states apart: whatever plain store the one stands for, so does the other. */
  ghost predicate LooksTheSame(c: Cache, d: Cache) {
    forall store :: StoreInv(c, store) ==> StoreInv(d, store)
  }

  /** The driver reports success only for blocks that the medium has. */
  ghost predicate DriverHonest(c: Cache, driver: Ref -> DriverResult) {
    forall r :: r in c.blocks && StatusOf(driver(r), c.blockSize) == EOK ==> c.blocks[r].key in c.disk
  }

  /** When a sync can run without interruption. */
  ghost predicate SyncContext(c: Cache, s: SessionRef, driver: Ref -> DriverResult) {
    Inv(c) && IsOpen(c, s) && c.sessions[s].dopsInUse == [] && DriverHonest(c, driver)
  }

  /** The state after the blocks from position `i` of the LRU chain on have been dealt with. */
  ghost function SyncedFrom(c: Cache, sid: nat, i: nat, driver: Ref -> DriverResult): Cache
    decreases |c.lru| - i
  {
    if i >= |c.lru| then c
    else
      var d := SyncedFrom(c, sid, i + 1, driver);
      var r := c.lru[i];
      if r in d.blocks && Syncable(d.blocks[r], sid) then FlushOne(d, r, driver(r)) else d
  }

  lemma NothingSynced(c: Cache, sid: nat, driver: Ref -> DriverResult)
    requires Inv(c)
    ensures Synced(c, c, sid, {}, driver)
  {
  }

  lemma SyncedStepReady(c: Cache, d: Cache, s: SessionRef, done: set<Ref>, r: Ref, driver: Ref -> DriverResult)
    requires SyncContext(c, s, driver) && Synced(c, d, c.sessions[s].sessionId, done, driver) && r in c.blocks
    requires r !in done
    ensures r in d.blocks && d.blocks[r] == c.blocks[r]
    ensures Syncable(d.blocks[r], c.sessions[s].sessionId) ==> CanFlush(d, s, r, driver(r))
  {
    if Syncable(d.blocks[r], c.sessions[s].sessionId) { CanFlushNow(d, s, r, driver(r)); }
  }

  lemma SyncedStep(c: Cache, d: Cache, s: SessionRef, done: set<Ref>, r: Ref, driver: Ref -> DriverResult)
    requires SyncContext(c, s, driver) && Synced(c, d, c.sessions[s].sessionId, done, driver) && r in c.blocks
    requires r !in done
    requires r in d.blocks && d.blocks[r] == c.blocks[r] && Syncable(d.blocks[r], c.sessions[s].sessionId)
    requires CanFlush(d, s, r, driver(r))
    ensures Synced(c, FlushOne(d, r, driver(r)), c.sessions[s].sessionId, done + {r}, driver)
  {
    var sid := c.sessions[s].sessionId;
    FlushKeeps(d, s, r, driver(r));
    var e := FlushOne(d, r, driver(r));
    FlushedAllStep(c.blocks, d.blocks, e.blocks, done, r, sid, driver, c.blockSize);
    FlushedMediaStep(c.blocks, c.disk, d.disk, e.disk, done, r, sid, driver, c.blockSize);
  }

  lemma SyncedSkip(c: Cache, d: Cache, sid: nat, done: set<Ref>, r: Ref, driver: Ref -> DriverResult)
    requires UniqueKeys(c.blocks) && Synced(c, d, sid, done, driver) && r in c.blocks && r !in done
    requires !Syncable(c.blocks[r], sid)
    ensures Synced(c, d, sid, done + {r}, driver)
  {
    FlushedAllStep(c.blocks, d.blocks, d.blocks, done, r, sid, driver, c.blockSize);
    FlushedMediaStep(c.blocks, c.disk, d.disk, d.disk, done, r, sid, driver, c.blockSize);
  }

  lemma SyncedAt(c: Cache, d: Cache, s: SessionRef, done: set<Ref>, r: Ref, driver: Ref -> DriverResult)
    requires SyncContext(c, s, driver) && Synced(c, d, c.sessions[s].sessionId, done, driver) && r in c.blocks
    requires r !in done
    ensures r in d.blocks
    ensures var e := if Syncable(d.blocks[r], c.sessions[s].sessionId) then FlushOne(d, r, driver(r)) else d;
            Synced(c, e, c.sessions[s].sessionId, done + {r}, driver)
  {
    SyncedStepReady(c, d, s, done, r, driver);
    if Syncable(d.blocks[r], c.sessions[s].sessionId) {
      SyncedStep(c, d, s, done, r, driver);
    } else {
      SyncedSkip(c, d, c.sessions[s].sessionId, done, r, driver);
    }
  }

  lemma SyncedFromEnd(c: Cache, sid: nat, driver: Ref -> DriverResult)
    requires Inv(c)
    ensures Synced(c, SyncedFrom(c, sid, |c.lru|, driver), sid, TailOf(c.lru, |c.lru|), driver)
  {
    TailWhole(c.lru, c.blocks.Keys);
    NothingSynced(c, sid, driver);
  }

  lemma SyncedFromUnfold(c: Cache, sid: nat, i: nat, driver: Ref -> DriverResult)
    requires i < |c.lru| && c.lru[i] in SyncedFrom(c, sid, i + 1, driver).blocks
    ensures var d := SyncedFrom(c, sid, i + 1, driver);
            SyncedFrom(c, sid, i, driver) ==
            if Syncable(d.blocks[c.lru[i]], sid) then FlushOne(d, c.lru[i], driver(c.lru[i])) else d
  {
  }

  lemma SyncedFromStep(c: Cache, d: Cache, s: SessionRef, i: nat, driver: Ref -> DriverResult)
    requires SyncContext(c, s, driver) && i < |c.lru|
    requires Synced(c, d, c.sessions[s].sessionId, TailOf(c.lru, i + 1), driver)
    ensures c.lru[i] in d.blocks
    ensures var e := if Syncable(d.blocks[c.lru[i]], c.sessions[s].sessionId)
            then FlushOne(d, c.lru[i], driver(c.lru[i])) else d;
            Synced(c, e, c.sessions[s].sessionId, TailOf(c.lru, i), driver)
  {
    TailStep(c.lru, c.blocks.Keys, i);
    SyncedAt(c, d, s, TailOf(c.lru, i + 1), c.lru[i], driver);
  }

  lemma {:induction false} SyncedFromTail(c: Cache, s: SessionRef, i: nat, driver: Ref -> DriverResult)
    requires SyncContext(c, s, driver) && i <= |c.lru|
    ensures Synced(c, SyncedFrom(c, c.sessions[s].sessionId, i, driver), c.sessions[s].sessionId, TailOf(c.lru, i),
                   driver)
    decreases |c.lru| - i
  {
    if i == |c.lru| {
      SyncedFromEnd(c, c.sessions[s].sessionId, driver);
    } else {
      SyncedFromTail(c, s, i + 1, driver);
      SyncedFromStep(c, SyncedFrom(c, c.sessions[s].sessionId, i + 1, driver), s, i, driver);
      SyncedFromUnfold(c, c.sessions[s].sessionId, i, driver);
    }
  }

  /** What the loop needs to know before it looks at position `i`. */
  /** Once the blocks behind position `i` have been dealt with, the block at `i` can be written back if it has to. */
  ghost predicate CanFlushNext(c: Cache, s: SessionRef, i: nat, driver: Ref -> DriverResult)
    requires s in c.sessions && i < |c.lru|
  {
    var d, r := SyncedFrom(c, c.sessions[s].sessionId, i + 1, driver), c.lru[i];
    && r in d.blocks && d.sessions == c.sessions
    && (Syncable(d.blocks[r], c.sessions[s].sessionId) ==> CanFlush(d, s, r, driver(r)))
  }

  ghost predicate CanFlushAll(c: Cache, s: SessionRef, driver: Ref -> DriverResult) {
    s in c.sessions && forall i :: 0 <= i < |c.lru| ==> CanFlushNext(c, s, i, driver)
  }

  lemma SyncedFromReady(c: Cache, s: SessionRef, i: nat, driver: Ref -> DriverResult)
    requires SyncContext(c, s, driver) && i < |c.lru|
    ensures CanFlushNext(c, s, i, driver)
  {
    SyncedFromTail(c, s, i + 1, driver);
    TailStep(c.lru, c.blocks.Keys, i);
    SyncedStepReady(c, SyncedFrom(c, c.sessions[s].sessionId, i + 1, driver), s, TailOf(c.lru, i + 1), c.lru[i],
                    driver);
  }

  lemma SyncIsReady(c: Cache, s: SessionRef, driver: Ref -> DriverResult)
    requires SyncContext(c, s, driver)
    ensures CanFlushAll(c, s, driver)
  {
    forall i | 0 <= i < |c.lru| ensures CanFlushNext(c, s, i, driver) { SyncedFromReady(c, s, i, driver); }
  }

  /** A sync deals with every block. */
  lemma SyncedFromAll(c: Cache, s: SessionRef, driver: Ref -> DriverResult)
    requires SyncContext(c, s, driver)
    ensures Synced(c, SyncedFrom(c, c.sessions[s].sessionId, 0, driver), c.sessions[s].sessionId, c.blocks.Keys, driver)
  {
    SyncedFromTail(c, s, 0, driver);
    TailWhole(c.lru, c.blocks.Keys);
  }

  /** Nothing is left to do when the counter of dirty blocks says so. */
  lemma NothingToSync(c: Cache, sid: nat, driver: Ref -> DriverResult)
    requires Inv(c) && c.dirtyBlockCount <= 0
    ensures Synced(c, c, sid, c.blocks.Keys, driver)
  {
    forall r | r in c.blocks ensures !c.blocks[r].isDirty {
      assert r !in DirtySet(c.blocks);
    }
  }

  /** After a sync, an idle and unpinned dirty block of the session is one whose write failed. */
  lemma SyncedLeavesOnlyFailures(c: Cache, d: Cache, sid: nat, driver: Ref -> DriverResult, r: Ref)
    requires Synced(c, d, sid, c.blocks.Keys, driver) && r in d.blocks && Syncable(d.blocks[r], sid)
    ensures StatusOf(driver(r), c.blockSize) != EOK
  {
  }

  /** What a sync does to one block, from its flags and the driver's report alone. */
  ghost predicate SyncDoes(c: Cache, d: Cache, sid: nat, r: Ref, res: DriverResult)
    requires r in c.blocks && r in d.blocks && d.disk.Keys == c.disk.Keys
  {
    var b, b', k := c.blocks[r], d.blocks[r], c.blocks[r].key;
    if b.isDirty && !b.isPinned && b.shareCount == 0 && !b.exclusive && k.sid == sid then
      && b'.data == b.data && b'.key == k
      && (b'.isDirty <==> res.err != EOK || res.rlen < c.blockSize)
      && (k in c.disk && !b'.isDirty ==> d.disk[k] == b.data)
    else
      b' == b && (k in c.disk ==> d.disk[k] == c.disk[k])
  }

  /** A sync writes exactly the dirty blocks of its session that nobody uses and that are not pinned. */
  lemma SyncOutcome(c: Cache, d: Cache, sid: nat, driver: Ref -> DriverResult, r: Ref)
    requires Synced(c, d, sid, c.blocks.Keys, driver) && UniqueKeys(c.blocks) && r in c.blocks
    ensures r in d.blocks && d.disk.Keys == c.disk.Keys && SyncDoes(c, d, sid, r, driver(r))
  {
    SyncOutcomeHere(c, d, sid, driver, r);
  }

  lemma SyncOutcomeHere(c: Cache, d: Cache, sid: nat, driver: Ref -> DriverResult, r: Ref)
    requires FlushedAll(c.blocks, d.blocks, c.blocks.Keys, sid, driver, c.blockSize)
    requires FlushedMedia(c.blocks, c.disk, d.disk, c.blocks.Keys, sid, driver, c.blockSize)
    requires UniqueKeys(c.blocks) && r in c.blocks
    ensures r in d.blocks && d.disk.Keys == c.disk.Keys && SyncDoes(c, d, sid, r, driver(r))
  {
    var k := c.blocks[r].key;
    if Syncable(c.blocks[r], sid) {
      assert WrittenBack(c.blocks, c.blocks.Keys, sid, r);
    } else {
      forall q | WrittenBack(c.blocks, c.blocks.Keys, sid, q) ensures c.blocks[q].key != k {
        assert q != r;
      }
    }
  }

  // ---------------------------------------------------------------------------------------
  // A sync that has to start over

  lemma GetBlockGrows(c: Cache, k: Key, newRef: Ref)
    requires GetBlock(c, k, newRef).Some?
    ensures var d := GetBlock(c, k, newRef).value.0;
            d.lruGeneration > c.lruGeneration && c.blocks.Keys <= d.blocks.Keys
  {
  }

  /** The generation of the LRU chain grows with every map call and never shrinks, and no block is ever removed. */
  lemma StepGrows(c: Cache, e: Event)
    requires Enabled(c, e)
    ensures Step(c, e).lruGeneration >= c.lruGeneration && c.blocks.Keys <= Step(c, e).blocks.Keys
    ensures e.EvMap? ==> Step(c, e).lruGeneration > c.lruGeneration
  {
    if e.EvMap? {
      GetBlockGrows(c, Key(c.sessions[e.s].sessionId, e.lba), e.newRef);
    }
  }

  lemma {:induction false} RunGrows(c: Cache, es: seq<Event>)
    requires CanRun(c, es)
    ensures EndOf(c, es).lruGeneration >= c.lruGeneration && c.blocks.Keys <= EndOf(c, es).blocks.Keys
    decreases es
  {
    if es != [] {
      StepGrows(c, es[0]);
      RunGrows(Step(c, es[0]), es[1..]);
    }
  }

  /** A pass over the LRU chain is the last one of its sync. */
  predicate PassEnds(c: Cache, myLruChainGeneration: nat) {
    c.lru == [] || myLruChainGeneration == c.lruGeneration
  }

  /** Once the LRU chain has changed under a sync, it never ends: whatever happens, no pass is the last one. */
  lemma SyncNeverEnds(c: Cache, es: seq<Event>, myLruChainGeneration: nat)
    requires Inv(c) && FairRun(c, es) && c.lru != [] && myLruChainGeneration < c.lruGeneration
    ensures !PassEnds(EndOf(c, es), myLruChainGeneration)
  {
    RunGrows(c, es);
    RunKeepsInv(c, es);
    var d := EndOf(c, es);
    ListsMember(c.lru, c.blocks.Keys, c.lru[0]);
    ListsMember(d.lru, d.blocks.Keys, c.lru[0]);
  }
}
