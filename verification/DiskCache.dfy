/**
 The disk block cache as the object whose fields its functions update. Every method is one
 stretch of code between two waits. It does exactly one step of the model, keeps the invariant exactly
 if the environment keeps its side of the contract, and hands out the bytes that were last written.
 */
module DiskCacheObject {
  import opened DiskCacheModel
  import opened DiskCacheInvariant
  import opened DiskCacheSteps
  import opened DiskCacheRefinement
  import opened DiskCacheSync
  import opened Errors
  import opened Memory
  import opened Options

  ghost predicate Consistent(c: Cache, store: Plain) {
    Inv(c) && StoreInv(c, store)
  }

  /** What a step `e` from a valid state means for the state after it. */
  ghost predicate Keeps(c: Cache, store: Plain, e: Event, d: Cache, store': Plain)
    requires Enabled(c, e)
  {
    && (Inv(d) <==> Fair(c, e))
    && (Fair(c, e) ==> (StoreInv(d, store') <==> Honest(c, store, e)))
    && (Fair(c, e) ==> PlainAgrees(store, Observe(c, e)))
  }

  lemma StepKeeps(c: Cache, store: Plain, e: Event, d: Cache, store': Plain)
    requires Enabled(c, e) && d == Step(c, e) && store' == PlainAfter(store, e, c)
    ensures Consistent(c, store) ==> Keeps(c, store, e, d, store')
  {
    if Consistent(c, store) {
      StepKeepsInvExactly(c, e);
      if Fair(c, e) {
        StepRefinesExactly(c, store, e);
        StepAgrees(c, store, e);
      }
    }
  }

  /** The chains list cached blocks only, and so does the search for a block for `k`. */
  ghost predicate Indexed(c: Cache, k: Key, newRef: Ref) {
    && (forall i :: 0 <= i < |c.lru| ==> c.lru[i] in c.blocks)
    && var g := DiskCacheModel.GetBlock(c, k, newRef); g.Some? ==> g.value.1 in g.value.0.blocks
  }

  lemma WellIndexed(c: Cache, store: Plain, k: Key, newRef: Ref)
    requires Consistent(c, store)
    ensures Indexed(c, k, newRef)
  {
    forall i | 0 <= i < |c.lru| ensures c.lru[i] in c.blocks { ListsMember(c.lru, c.blocks.Keys, c.lru[i]); }
    FindCorrect(c, k);
  }

  lemma FinishReads(c: Cache, store: Plain, a: Act)
    requires Consistent(c, store) && a in c.acts && c.acts[a].phase.MapReading?
    ensures Reads(c.acts[a].phase.mode)
  {
    assert Local(c, a) by { Localize(c, a); }
  }

  lemma CallsAreOpen(c: Cache, store: Plain, a: Act)
    requires a in c.acts
    ensures Consistent(c, store) ==> IsOpen(c, c.acts[a].s)
  {
    if Consistent(c, store) { assert OfOpenSession(c, c.acts[a]); }
  }

  lemma FoundExactly(c: Cache, store: Plain, s: SessionRef, lba: nat)
    requires Consistent(c, store) && s in c.sessions
    ensures IsOpen(c, s) ==> (Found(c, s, lba) <==> Cached(c.blocks, Key(c.sessions[s].sessionId, lba)))
    ensures Find(c, Key(c.sessions[s].sessionId, lba)).Some? ==>
              Find(c, Key(c.sessions[s].sessionId, lba)).value in c.blocks
  {
    FindCorrect(c, Key(c.sessions[s].sessionId, lba));
  }

  /** The block's bytes are the ones last written under `k`. */
  ghost predicate HandsOut(store: Plain, k: Key, b: DiskBlock) {
    k in store && store[k] == b.data
  }

  /** A call that has its block mapped hands out the bytes last written for the address it was given. */
  lemma MappedHandsOut(c: Cache, store: Plain, a: Act)
    requires PlainAgrees(store, Seen(c, a)) && a in c.acts && c.acts[a].ref in c.blocks
    requires c.acts[a].phase.Mapped? && Reads(c.acts[a].phase.mode)
    ensures HandsOut(store, c.acts[a].key, c.blocks[c.acts[a].ref])
  {
    assert Seen(c, a) == [Got(c.acts[a].key, c.blocks[c.acts[a].ref].data)] && Allows(store, Seen(c, a)[0]);
  }

  lemma MapKeeps(c: Cache, store: Plain, a: Act, s: SessionRef, lba: nat, mode: MapMode, newRef: Ref, d: Cache, r: Ref)
    requires CanMap(c, a, s, lba, newRef) && d == MapNow(c, a, s, lba, mode, newRef)
    requires KnownAct(d, a) && d.acts[a].ref == r && d.acts[a].key == Key(c.sessions[s].sessionId, lba)
    ensures Consistent(c, store) ==> Keeps(c, store, EvMap(a, s, lba, mode, newRef), d, store)
    ensures Consistent(c, store) && Fair(c, EvMap(a, s, lba, mode, newRef)) ==>
              d.acts[a].phase == Mapped(mode) && Reads(mode) ==>
                HandsOut(store, Key(c.sessions[s].sessionId, lba), d.blocks[r])
  {
    StepKeeps(c, store, EvMap(a, s, lba, mode, newRef), d, store);
    if Consistent(c, store) && d.acts[a].phase == Mapped(mode) && Reads(mode)
       && Fair(c, EvMap(a, s, lba, mode, newRef)) {
      MappedHandsOut(d, store, a);
    }
  }

  class DiskCache {
    var nextAvailSessionId: nat
    var lruChainGeneration: nat
    var lruChain: seq<Ref>
    var diskAddrHash: Chains
    const blockSize: nat
    var blockCount: nat
    const blockCapacity: nat
    var dirtyBlockCount: int
    var blocks: map<Ref, DiskBlock>
    var sessions: map<SessionRef, Session>
    var disk: map<Key, Bytes>
    ghost var acts: map<Act, Activity>
    ghost var store: Plain   // the bytes last written for each block

    ghost function State(): Cache
      reads this
    {
      Cache(nextAvailSessionId, lruChainGeneration, lruChain, diskAddrHash, blockSize, blockCount, blockCapacity,
            dirtyBlockCount, blocks, sessions, acts, disk)
    }

    ghost predicate Valid()
      reads this
    {
      Consistent(State(), store)
    }

    constructor (blockSize: nat, maxBlockCount: nat)
      requires maxBlockCount > 0
      ensures State() == Init(blockSize, maxBlockCount) && store == map[] && Valid()
    {
      nextAvailSessionId, lruChainGeneration, lruChain := 1, 0, [];
      diskAddrHash := [[], [], [], [], [], [], [], []];
      this.blockSize, blockCount, blockCapacity, dirtyBlockCount := blockSize, 0, maxBlockCount, 0;
      blocks, sessions, disk, acts, store := map[], map[], map[], map[], map[];
      InitHolds(blockSize, maxBlockCount);
    }

    // -------------------------------------------------------------------------------------
    // Content locks

    /** One pass through the loop of `_DiskCache_LockBlockContent`; not ok means that the caller waits. */
    method LockBlockContent(r: Ref, mode: LockMode) returns (ok: bool)
      requires r in blocks
      modifies this`blocks
      ensures ok == CanLock(old(blocks)[r], mode)
      ensures State() == if ok then SetBlock(old(State()), r, Lock(old(blocks)[r], mode)) else old(State())
    {
      var b := blocks[r];
      ok := false;
      match mode
      case Shared =>
        if !b.exclusive {
          blocks := blocks[r := b.(shareCount := b.shareCount + 1)];
          ok := true;
        }
      case Exclusive =>
        if !b.exclusive && b.shareCount == 0 {
          blocks := blocks[r := b.(exclusive := true)];
          ok := true;
        }
    }

    method UnlockBlockContent(r: Ref)
      requires r in blocks && InUse(blocks[r])
      modifies this`blocks
      ensures State() == SetBlock(old(State()), r, Unlock(old(blocks)[r]))
    {
      var b := blocks[r];
      if b.exclusive {
        blocks := blocks[r := b.(exclusive := false)];
      } else if b.shareCount > 0 {
        blocks := blocks[r := b.(shareCount := b.shareCount - 1)];
      }
    }

    method DowngradeBlockContentLock(r: Ref)
      requires r in blocks && blocks[r].exclusive
      modifies this`blocks
      ensures State() == SetBlock(old(State()), r, Downgrade(old(blocks)[r]))
    {
      var b := blocks[r];
      blocks := blocks[r := b.(exclusive := false, shareCount := b.shareCount + 1)];
    }

    // -------------------------------------------------------------------------------------
    // Index

    method RegisterBlock(r: Ref)
      requires r in blocks
      modifies this`diskAddrHash, this`lruChain, this`lruChainGeneration
      ensures State() == Register(old(State()), r)
    {
      var idx := Bucket(blocks[r].key);
      diskAddrHash := diskAddrHash[idx := [r] + diskAddrHash[idx]];
      lruChain := [r] + lruChain;
      lruChainGeneration := lruChainGeneration + 1;
    }

    method DeregisterBlock(r: Ref)
      requires r in blocks
      modifies this`diskAddrHash, this`lruChain, this`lruChainGeneration
      ensures State() == Deregister(old(State()), r)
    {
      var idx := Bucket(blocks[r].key);
      diskAddrHash := diskAddrHash[idx := Without(diskAddrHash[idx], r)];
      lruChain := Without(lruChain, r);
      lruChainGeneration := lruChainGeneration + 1;
    }

    /** Walks the hash chain of the key. */
    method LookUp(k: Key) returns (f: Option<Ref>)
      ensures f == Find(State(), k)
    {
      var chain := diskAddrHash[Bucket(k)];
      var i := 0;
      while i < |chain|
        invariant 0 <= i <= |chain|
        invariant FindInChain(chain[i..], blocks, k) == Find(State(), k)
      {
        assert chain[i..][1..] == chain[i + 1..];
        if chain[i] in blocks && blocks[chain[i]].key == k {
          return Some(chain[i]);
        }
        i := i + 1;
      }
      f := None;
    }

    /** Walks the LRU chain from its end and retargets the first reusable block to the key. */
    method ReuseCachedBlock(k: Key) returns (f: Option<Ref>)
      requires forall i :: 0 <= i < |lruChain| ==> lruChain[i] in blocks
      modifies this`diskAddrHash, this`lruChain, this`lruChainGeneration, this`blocks
      ensures f == Victim(old(lruChain), old(blocks))
      ensures f.Some? ==> f.value in old(blocks)
      ensures State() == if f.Some? then RecycleBlock(old(State()), f.value, k) else old(State())
    {
      f := None;
      var i := |lruChain|;
      assert lruChain[..i] == lruChain;
      while i > 0
        invariant 0 <= i <= |lruChain| && f.None?
        invariant Victim(lruChain[..i], blocks) == Victim(lruChain, blocks)
        invariant State() == old(State())
      {
        i := i - 1;
        var r := lruChain[i];
        assert lruChain[..i + 1][..i] == lruChain[..i];
        if !InUse(blocks[r]) && !blocks[r].isDirty && !blocks[r].isPinned {
          f := Some(r);
          break;
        }
      }
      if f.Some? {
        var r := f.value;
        DeregisterBlock(r);
        blocks := blocks[r := blocks[r].(key := k)];
        blocks := blocks[r := blocks[r].(data := Zeros(blockSize), hasData := false)];
        RegisterBlock(r);
      }
    }

    method MarkRecentUse(r: Ref)
      modifies this`lruChain, this`lruChainGeneration
      ensures State() == RecentUse(old(State()), r)
    {
      lruChain := [r] + Without(lruChain, r);
      lruChainGeneration := lruChainGeneration + 1;
    }

    /** `_DiskCache_GetBlock` with Allocate and RecentUse, up to the point where it would wait. */
    method GetBlock(k: Key, newRef: Ref) returns (f: Option<Ref>)
      requires newRef !in blocks && forall i :: 0 <= i < |lruChain| ==> lruChain[i] in blocks
      modifies this`diskAddrHash, this`lruChain, this`lruChainGeneration, this`blocks, this`blockCount
      ensures DiskCacheModel.GetBlock(old(State()), k, newRef) == if f.Some? then Some((State(), f.value)) else None
      ensures f.None? ==> State() == old(State())
      ensures f.Some? ==> lruChain != [] && lruChain[0] == f.value
    {
      f := LookUp(k);
      if f.None? {
        if blockCount < blockCapacity {
          blocks := blocks[newRef := NewBlock(k, blockSize)];
          RegisterBlock(newRef);
          blockCount := blockCount + 1;
          f := Some(newRef);
        } else {
          f := ReuseCachedBlock(k);
        }
      }
      if f.Some? {
        MarkRecentUse(f.value);
      }
    }

    // -------------------------------------------------------------------------------------
    // Sessions

    method OpenSession(s: SessionRef, content: map<nat, Bytes>)
      modifies this`sessions, this`nextAvailSessionId, this`disk, this`store
      ensures State() == Open(old(State()), s, content)
      ensures store == old(store) + MediaKeys(old(nextAvailSessionId), content)
      ensures old(Valid()) ==> Keeps(old(State()), old(store), EvOpen(s, content), State(), store)
    {
      ghost var c := State();
      sessions := sessions[s := Session(nextAvailSessionId, true, 0, 1, [])];
      disk := disk + MediaKeys(nextAvailSessionId, content);
      store := store + MediaKeys(nextAvailSessionId, content);
      nextAvailSessionId := nextAvailSessionId + 1;
      StepKeeps(c, old(store), EvOpen(s, content), State(), store);
    }

    /** One pass through the loop of `DiskCache_CloseSession`; not done means that the caller yields and retries. */
    method CloseSession(s: SessionRef) returns (done: bool)
      requires s in sessions
      modifies this`sessions
      ensures done == (old(sessions)[s].isOpen ==> CanClose(old(State()), s))
      ensures State() == if done && old(sessions)[s].isOpen then Close(old(State()), s) else old(State())
      ensures old(Valid()) && done && old(sessions)[s].isOpen ==> Keeps(old(State()), store, EvClose(s), State(), store)
    {
      ghost var c := State();
      var x := sessions[s];
      done := true;
      if x.isOpen {
        if x.activeMappingsCount > 0 {
          done := false;
        } else {
          sessions := sessions[s := x.(sessionId := 0, isOpen := false)];
          StepKeeps(c, store, EvClose(s), State(), store);
        }
      }
    }

    method CountMapping(s: SessionRef, n: int)
      requires s in sessions
      modifies this`sessions
      ensures State() == AddMappings(old(State()), s, n)
    {
      var x := sessions[s];
      sessions := sessions[s := x.(activeMappingsCount := x.activeMappingsCount + n)];
    }

    // -------------------------------------------------------------------------------------
    // Mapping

    /** The ghost activity `a` is where the calling thread is. */
    ghost predicate At(a: Act, s: SessionRef, r: Ref)
      reads this
    {
      KnownAct(State(), a) && acts[a].s == s && acts[a].ref == r
    }

    /**
     `DiskCache_MapBlock` up to its first wait. The block is handed to the caller (`mapped`), or the call waits
     for the lock on it (`waits`), or it has the lock and has to read the block first. No block: the caller waits
     for one and starts over.
     */
    method MapBlock(ghost a: Act, s: SessionRef, lba: nat, mode: MapMode, newRef: Ref)
      returns (err: Errno, f: Option<Ref>, lock: LockMode, waits: bool, mapped: bool)
      requires Valid() && s in sessions && a !in acts && newRef !in blocks
      modifies this`diskAddrHash, this`lruChain, this`lruChainGeneration, this`blocks, this`blockCount, this`sessions,
        this`acts
      ensures err == if old(sessions)[s].isOpen then EOK else ENODEV
      ensures f.Some? <==> CanMap(old(State()), a, s, lba, newRef)
      ensures f.None? ==> State() == old(State())
      ensures f.Some? ==> && State() == MapNow(old(State()), a, s, lba, mode, newRef) && At(a, s, f.value)
                          && acts[a].phase == (if mapped then Mapped(mode)
                                               else if waits then MapWait(mode, lock) else MapNeedsRead(mode))
                          && Keeps(old(State()), store, EvMap(a, s, lba, mode, newRef), State(), store)
      ensures mapped && Reads(mode) && Fair(old(State()), EvMap(a, s, lba, mode, newRef)) ==>
                f.Some? && HandsOut(store, Key(old(sessions)[s].sessionId, lba), blocks[f.value])
      ensures mapped ==> f.Some? && f.value in blocks
      ensures mapped && mode == Cleared ==> AllZero(blocks[f.value].data, blockSize)
      ensures mapped && mode != ReadOnly ==> blocks[f.value].exclusive
    {
      ghost var c := State();
      WellIndexed(c, store, Key(sessions[s].sessionId, lba), newRef);
      err, f, lock, waits, mapped := FindAndLock(a, s, lba, mode, newRef);
      if f.Some? {
        MapKeeps(c, store, a, s, lba, mode, newRef, State(), f.value);
      }
    }

    method FindAndLock(ghost a: Act, s: SessionRef, lba: nat, mode: MapMode, newRef: Ref)
      returns (err: Errno, f: Option<Ref>, lock: LockMode, waits: bool, mapped: bool)
      requires s in sessions && a !in acts && newRef !in blocks
      requires Indexed(State(), Key(sessions[s].sessionId, lba), newRef)
      modifies this`diskAddrHash, this`lruChain, this`lruChainGeneration, this`blocks, this`blockCount, this`sessions,
        this`acts
      ensures err == if old(sessions)[s].isOpen then EOK else ENODEV
      ensures f.Some? <==> CanMap(old(State()), a, s, lba, newRef)
      ensures f.None? ==> State() == old(State()) && !mapped
      ensures mapped ==> f.Some? && f.value in blocks
      ensures mapped && mode == Cleared ==> AllZero(blocks[f.value].data, blockSize)
      ensures mapped && mode != ReadOnly ==> blocks[f.value].exclusive
      ensures f.Some? ==> && State() == MapNow(old(State()), a, s, lba, mode, newRef) && At(a, s, f.value)
                          && acts[a].key == Key(old(sessions)[s].sessionId, lba)
                          && acts[a].phase == (if mapped then Mapped(mode)
                                               else if waits then MapWait(mode, lock) else MapNeedsRead(mode))
    {
      waits, mapped := false, false;
      err, f, lock := FindForMap(a, s, lba, mode, newRef);
      if f.Some? {
        var ok;
        ok, mapped := LockForCall(a, s, f.value, mode, lock);
        waits := !ok;
      }
    }

    method FindForMap(ghost a: Act, s: SessionRef, lba: nat, mode: MapMode, newRef: Ref)
      returns (err: Errno, f: Option<Ref>, lock: LockMode)
      requires s in sessions && a !in acts && newRef !in blocks
      requires Indexed(State(), Key(sessions[s].sessionId, lba), newRef)
      modifies this`diskAddrHash, this`lruChain, this`lruChainGeneration, this`blocks, this`blockCount, this`acts
      ensures err == if old(sessions)[s].isOpen then EOK else ENODEV
      ensures f.Some? <==> CanMap(old(State()), a, s, lba, newRef)
      ensures f.None? ==> State() == old(State())
      ensures f.Some? ==> && State() == Map(old(State()), a, s, lba, mode, newRef)
                          && At(a, s, f.value) && acts[a].phase == MapWait(mode, lock)
                          && acts[a].key == Key(old(sessions)[s].sessionId, lba)
    {
      f, lock := None, Exclusive;
      if !sessions[s].isOpen {
        return ENODEV, f, lock;
      }
      err := EOK;
      var k := Key(sessions[s].sessionId, lba);
      f := GetBlock(k, newRef);
      if f.Some? {
        lock := if mode == ReadOnly && blocks[f.value].hasData then Shared else Exclusive;
        acts := acts[a := Activity(s, f.value, k, MapWait(mode, lock), NotHeld, false)];
      }
    }

    /**
     Continues `DiskCache_MapBlock` when its wait for the lock is over. A wait that was `interrupted` ends the call
     with an error, even if the lock is free by now. Otherwise the call tries the lock again.
     */
    method MapBlockLocked(ghost a: Act, s: SessionRef, r: Ref, mode: MapMode, lock: LockMode, interrupted: bool)
      returns (ok: bool, mapped: bool)
      requires At(a, s, r) && acts[a].phase == MapWait(mode, lock)
      modifies this`blocks, this`sessions, this`acts
      ensures ok == (!interrupted && CanLockForMap(old(State()), a))
      ensures State() == if interrupted then EndAct(old(State()), a)
                         else if ok then LockForMap(old(State()), a) else old(State())
      ensures mapped == (ok && acts[a].phase == Mapped(mode))
      ensures old(Valid()) && ok ==> Keeps(old(State()), store, EvLock(a), State(), store)
      ensures old(Valid()) && interrupted ==> Keeps(old(State()), store, EvGiveUp(a), State(), store)
      ensures old(Valid()) && mapped && Reads(mode) ==> HandsOut(store, old(acts)[a].key, blocks[r])
      ensures mapped ==> r in blocks && (lock == Exclusive ==> blocks[r].exclusive)
      ensures mapped && mode == Cleared ==> AllZero(blocks[r].data, blockSize)
    {
      ghost var c := State();
      if interrupted {
        ok, mapped := false, false;
        acts := acts - {a};
        StepKeeps(c, store, EvGiveUp(a), State(), store);
      } else {
        ok, mapped := LockForCall(a, s, r, mode, lock);
        if ok {
          StepKeeps(c, store, EvLock(a), State(), store);
          if mapped && Reads(mode) && Consistent(c, store) {
            MappedHandsOut(State(), store, a);
          }
        }
      }
    }

    method LockForCall(ghost a: Act, s: SessionRef, r: Ref, mode: MapMode, lock: LockMode)
      returns (ok: bool, mapped: bool)
      requires At(a, s, r) && acts[a].phase == MapWait(mode, lock)
      modifies this`blocks, this`sessions, this`acts
      ensures ok == CanLockForMap(old(State()), a)
      ensures State() == if ok then LockForMap(old(State()), a) else old(State())
      ensures mapped == (ok && acts[a].phase == Mapped(mode))
      ensures ok ==> At(a, s, r) && acts[a].key == old(acts)[a].key
      ensures mapped && mode == Cleared ==> AllZero(blocks[r].data, blockSize)
      ensures ok && lock == Exclusive ==> blocks[r].exclusive
    {
      mapped := false;
      ok := LockBlockContent(r, lock);
      if ok {
        match mode {
          case Cleared =>
            blocks := blocks[r := blocks[r].(data := Zeros(blockSize), hasData := true)];
          case Replace =>
            blocks := blocks[r := blocks[r].(hasData := true)];
          case Update =>
          case ReadOnly =>
        }
        assert blocks == old(blocks)[r := blocks[r]];
        acts := acts[a := acts[a].(held := HeldBy(lock),
                                   phase := if blocks[r].hasData then Mapped(mode) else MapNeedsRead(mode),
                                   touched := mode == Cleared || mode == Replace)];
        if blocks[r].hasData {
          mapped := true;
          CountMapping(s, 1);
        }
      }
    }

    /** The end of `DiskCache_MapBlock` after its read. */
    method MapBlockRead(ghost a: Act, s: SessionRef, r: Ref, mode: MapMode, err: Errno)
      requires At(a, s, r) && blocks[r].exclusive
      modifies this`blocks, this`sessions, this`acts
      ensures State() == FinishMap(old(State()), a, mode, err)
    {
      if mode == ReadOnly {
        DowngradeBlockContentLock(r);
      }
      if err == EOK {
        acts := acts[a := acts[a].(phase := Mapped(mode),
                                   held := if mode == ReadOnly then HeldShared else HeldExclusive)];
        CountMapping(s, 1);
      } else {
        UnlockBlockContent(r);
        acts := acts - {a};
      }
    }

    /** The client writes to the block it has mapped. */
    method ChangeData(ghost a: Act, r: Ref, data: Bytes)
      requires CanStore(State(), a) && acts[a].ref == r
      modifies this`blocks, this`acts
      ensures State() == Store(old(State()), a, data)
      ensures old(Valid()) ==> Keeps(old(State()), store, EvStore(a, data), State(), store)
    {
      ghost var c := State();
      blocks := blocks[r := blocks[r].(data := data)];
      acts := acts[a := acts[a].(touched := true)];
      StepKeeps(c, store, EvStore(a, data), State(), store);
    }

    /** `DiskCache_UnmapBlock`; `pending` means that a synchronous write comes next. */
    method UnmapBlock(ghost a: Act, s: SessionRef, r: Ref, wmode: WriteMode) returns (err: Errno, pending: bool)
      requires At(a, s, r) && CanUnmap(State(), a, wmode)
      modifies this`blocks, this`sessions, this`acts, this`dirtyBlockCount, this`store
      ensures !old(sessions)[s].isOpen ==> err == ENODEV && State() == old(State()) && store == old(store) && !pending
      ensures old(sessions)[s].isOpen ==> && State() == Unmap(old(State()), a, wmode)
                                          && (pending <==> a in acts)
                                          && (err == ENXIO <==> wmode == Sync && old(blocks)[r].isPinned)
                                          && (err == EOK || err == ENXIO)
                                          && store == PlainAfter(old(store), EvUnmap(a, wmode), old(State()))
      ensures old(Valid()) ==> old(sessions)[s].isOpen
                               && Keeps(old(State()), old(store), EvUnmap(a, wmode), State(), store)
    {
      ghost var c := State();
      CallsAreOpen(c, store, a);
      if !sessions[s].isOpen {
        return ENODEV, false;
      }
      if wmode != NoWrite {
        store := store[acts[a].key := blocks[r].data];
      }
      err, pending := UnmapOpen(a, s, r, wmode);
      StepKeeps(c, old(store), EvUnmap(a, wmode), State(), store);
    }

    method UnmapOpen(ghost a: Act, s: SessionRef, r: Ref, wmode: WriteMode) returns (err: Errno, pending: bool)
      requires At(a, s, r) && CanUnmap(State(), a, wmode)
      modifies this`blocks, this`sessions, this`acts, this`dirtyBlockCount
      ensures State() == Unmap(old(State()), a, wmode)
      ensures pending <==> a in acts
      ensures err == if wmode == Sync && old(blocks)[r].isPinned then ENXIO else EOK
    {
      err, pending := EOK, false;
      match wmode {
        case NoWrite =>
        case Sync =>
          DowngradeBlockContentLock(r);
          if blocks[r].isPinned {
            err := ENXIO;
          } else {
            pending := true;
          }
        case Deferred =>
          if !blocks[r].isDirty {
            blocks := blocks[r := blocks[r].(isDirty := true)];
            dirtyBlockCount := dirtyBlockCount + 1;
          }
      }
      assert wmode == Deferred ==> blocks == old(blocks)[r := old(blocks)[r].(isDirty := true)];
      if pending {
        acts := acts[a := acts[a].(phase := UnmapNeedsWrite, held := HeldShared, touched := false)];
      } else {
        CountMapping(s, -1);
        UnlockBlockContent(r);
        acts := acts - {a};
      }
    }

    /** `DiskCache_PinBlock` and `DiskCache_UnpinBlock`. A block that is not cached is used all the same: `fault`. */
    method SetPinned(s: SessionRef, lba: nat, pinned: bool) returns (err: Errno, fault: bool)
      requires Valid() && s in sessions
      modifies this`blocks
      ensures err == if sessions[s].isOpen then EOK else ENODEV
      ensures fault <==> sessions[s].isOpen && !Cached(old(blocks), Key(sessions[s].sessionId, lba))
      ensures fault || !sessions[s].isOpen ==> State() == old(State())
      ensures !fault && sessions[s].isOpen ==>
                && Found(old(State()), s, lba) && State() == Pin(old(State()), s, lba, pinned)
                && Keeps(old(State()), store, EvPin(s, lba, pinned), State(), store)
    {
      ghost var c := State();
      FoundExactly(c, store, s, lba);
      err, fault := SetPinFlag(s, lba, pinned);
      if Found(c, s, lba) {
        StepKeeps(c, store, EvPin(s, lba, pinned), State(), store);
      }
    }

    method SetPinFlag(s: SessionRef, lba: nat, pinned: bool) returns (err: Errno, fault: bool)
      requires s in sessions
      requires var f := Find(State(), Key(sessions[s].sessionId, lba)); f.Some? ==> f.value in blocks
      modifies this`blocks
      ensures err == if sessions[s].isOpen then EOK else ENODEV
      ensures fault <==> sessions[s].isOpen && !Found(old(State()), s, lba)
      ensures State() == if Found(old(State()), s, lba) then Pin(old(State()), s, lba, pinned) else old(State())
    {
      fault := false;
      if !sessions[s].isOpen {
        return ENODEV, false;
      }
      err := EOK;
      var f := LookUp(Key(sessions[s].sessionId, lba));
      if f.None? {
        fault := true;
      } else {
        blocks := blocks[f.value := blocks[f.value].(isPinned := pinned)];
      }
    }

    // -------------------------------------------------------------------------------------
    // Disk I/O

    /**
     `_DiskCache_DoIO` once a disk operation is available, up to its wait, on behalf of a call that is at
     `call`. If the driver refuses the request, the call ends.
     */
    method StartIo(ghost a: Act, s: SessionRef, r: Ref, call: Phase, accepted: bool)
      requires At(a, s, r) && CanStartIo(State(), a) && acts[a].phase == call
      modifies this`blocks, this`sessions, this`acts
      ensures State() == DiskCacheModel.StartIo(old(State()), a, accepted)
      ensures old(Valid()) ==> Keeps(old(State()), store, EvStartIo(a, accepted), State(), store)
    {
      ghost var c := State();
      var x := sessions[s];
      var kind := if call.MapNeedsRead? then Read else Write;
      sessions := sessions[s := x.(dopsCache := x.dopsCache - 1, dopsInUse := [DiskOp(kind, r)] + x.dopsInUse)];
      blocks := blocks[r := blocks[r].(op := kind, isAsync := false, readError := EOK)];
      if accepted {
        acts := acts[a := acts[a].(phase := Submitted(acts[a].phase))];
      } else {
        EndCall(a, s, r, call, EIO);
      }
      StepKeeps(c, store, EvStartIo(a, accepted), State(), store);
    }

    /** What a call at `call` does once its I/O is over with `err`. */
    method EndCall(ghost a: Act, s: SessionRef, r: Ref, call: Phase, err: Errno)
      requires At(a, s, r) && acts[a].phase == call && (NeedsIo(call) || DoingIo(call)) && InUse(blocks[r])
      requires IoKind(call) == Read ==> blocks[r].exclusive
      modifies this`blocks, this`sessions, this`acts
      ensures State() == Complete(old(State()), a, err)
    {
      if call.MapNeedsRead? || call.MapReading? {
        MapBlockRead(a, s, r, call.mode, err);
      } else {
        if call.UnmapNeedsWrite? || call.UnmapWriting? {
          CountMapping(s, -1);
        }
        UnlockBlockContent(r);
        acts := acts - {a};
      }
    }

    /**
     The rest of a call that waited for its I/O; `mapped` means that the block is handed to the caller. The caller
     of a map gets to see the error of its read. The caller of a write never gets to see the error of its write.
     */
    method FinishIo(ghost a: Act, s: SessionRef, r: Ref, call: Phase, cancelled: bool)
      returns (err: Errno, mapped: bool)
      requires At(a, s, r) && CanFinish(State(), a, cancelled) && acts[a].phase == call
      modifies this`blocks, this`sessions, this`acts
      ensures State() == Finish(old(State()), a, cancelled)
      ensures err == if cancelled then ECANCELED else if call.MapReading? then old(blocks)[r].readError else EOK
      ensures r in blocks && (mapped <==> a in acts) && (mapped <==> call.MapReading? && err == EOK)
      ensures mapped ==> (blocks[r].exclusive <==> call.mode != ReadOnly)
      ensures old(Valid()) ==> Keeps(old(State()), store, EvFinish(a, cancelled), State(), store)
      ensures old(Valid()) && mapped && Fair(old(State()), EvFinish(a, cancelled)) ==>
                HandsOut(store, old(acts)[a].key, blocks[r])
    {
      ghost var c := State();
      err := if cancelled then ECANCELED else if call.MapReading? then blocks[r].readError else EOK;
      EndCall(a, s, r, call, err);
      mapped := call.MapReading? && err == EOK;
      StepKeeps(c, store, EvFinish(a, cancelled), State(), store);
      if mapped && Consistent(c, store) && Fair(c, EvFinish(a, cancelled)) {
        FinishReads(c, store, a);
        MappedHandsOut(State(), store, a);
      }
    }

    /** `_DiskCache_OnBlockRequestDone`; `incoming` is what a read transferred into the block's buffer. */
    method OnBlockRequestDone(r: Ref, kind: IoOp, status: Errno, incoming: Bytes)
      requires r in blocks && kind != Idle
      modifies this`blocks, this`dirtyBlockCount
      ensures blocks == old(blocks)[r := BlockDone(old(blocks)[r], kind, status, incoming)]
      ensures dirtyBlockCount ==
              if kind == Write && status == EOK && old(blocks)[r].isDirty then old(dirtyBlockCount) - 1
                else old(dirtyBlockCount)
    {
      var b := blocks[r];
      if kind == Read {
        b := b.(data := incoming, readError := status);
        if status == EOK {
          b := b.(hasData := true);
        }
      } else if status == EOK && b.isDirty {
        b := b.(isDirty := false);
        dirtyBlockCount := dirtyBlockCount - 1;
      }
      var wasAsync := b.isAsync;
      blocks := blocks[r := b.(isAsync := false, op := Idle)];
      if wasAsync && InUse(blocks[r]) {
        UnlockBlockContent(r);
      }
    }

    /** `_on_disk_op_done` for a request of one block, together with the driver's transfer. */
    method OnDiskOpDone(s: SessionRef, res: DriverResult)
      requires CanIoDone(State(), s, res.err, res.rlen)
      modifies this`blocks, this`sessions, this`dirtyBlockCount, this`disk
      ensures State() == IoDone(old(State()), s, res.err, res.rlen, res.junk)
      ensures old(Valid()) ==> Keeps(old(State()), store, EvIoDone(s, res.err, res.rlen, res.junk), State(), store)
    {
      ghost var c := State();
      var x := sessions[s];
      var dop := x.dopsInUse[0];
      var b := blocks[dop.blk];
      var status := res.err;
      if res.rlen < blockSize && status == EOK {
        status := EIO;
      }
      var incoming := if status == EOK && dop.kind == Read then disk[b.key] else res.junk;
      if dop.kind == Write && b.key in disk {
        disk := disk[b.key := if status == EOK then b.data else res.junk];
      }
      OnBlockRequestDone(dop.blk, dop.kind, status, incoming);
      sessions := sessions[s := x.(dopsInUse := x.dopsInUse[1..], dopsCache := x.dopsCache + 1)];
      StepKeeps(c, store, EvIoDone(s, res.err, res.rlen, res.junk), State(), store);
    }

    // -------------------------------------------------------------------------------------
    // Write back

    /** `_DiskCache_SyncBlock` on an idle dirty block, when nothing happens while it waits for its write. */
    method SyncBlock(s: SessionRef, r: Ref, res: DriverResult)
      requires CanFlush(State(), s, r, res)
      modifies this`blocks, this`sessions, this`dirtyBlockCount, this`disk, this`acts
      ensures State() == FlushOne(old(State()), r, res)
    {
      ghost var c := State();
      ghost var a := FreshAct(acts.Keys);
      var ok := LockBlockContent(r, Shared);
      acts := acts[a := Activity(s, r, blocks[r].key, SyncNeedsWrite, HeldShared, false)];
      assert State() == Locked(c, a, s, r);
      FlushStarts(c, a, s, r, res);
      StartIo(a, s, r, SyncNeedsWrite, true);
      FlushArrives(c, a, s, r, res);
      OnDiskOpDone(s, res);
      FlushEnds(c, a, s, r, res);
      var err, mapped := FinishIo(a, s, r, SyncWriting, false);
    }

    /** One iteration of the loop over the LRU chain. */
    method SyncIfDirty(s: SessionRef, i: nat, driver: Ref -> DriverResult, ghost c: Cache)
      requires CanFlushAll(c, s, driver) && c.lru == lruChain && i < |lruChain|
      requires State() == SyncedFrom(c, c.sessions[s].sessionId, i + 1, driver)
      modifies this`blocks, this`sessions, this`dirtyBlockCount, this`disk, this`acts
      ensures State() == SyncedFrom(c, c.sessions[s].sessionId, i, driver)
    {
      var r := lruChain[i];
      assert CanFlushNext(c, s, i, driver);
      if !InUse(blocks[r]) && blocks[r].isDirty && !blocks[r].isPinned && blocks[r].key.sid == sessions[s].sessionId {
        SyncBlock(s, r, driver(r));
      }
    }

    /**
     The loop over the LRU chain, from the least recently used block on. Not done means that it has to start
     over: it stops behind its first block if the chain has changed since `myLruChainGeneration`.
     */
    method SyncPass(s: SessionRef, driver: Ref -> DriverResult, myLruChainGeneration: nat) returns (done: bool)
      requires CanFlushAll(State(), s, driver)
      modifies this`blocks, this`sessions, this`dirtyBlockCount, this`disk, this`acts
      ensures done <==> PassEnds(old(State()), myLruChainGeneration)
      ensures done ==> State() == SyncedFrom(old(State()), old(sessions)[s].sessionId, 0, driver)
      ensures !done ==> State() == SyncedFrom(old(State()), old(sessions)[s].sessionId, |lruChain| - 1, driver)
    {
      ghost var c := State();
      done := true;
      var i := |lruChain|;
      while i > 0 && done
        invariant 0 <= i <= |lruChain|
        invariant done <==> i == |lruChain| || myLruChainGeneration == lruChainGeneration
        invariant done || i == |lruChain| - 1
        invariant State() == SyncedFrom(c, c.sessions[s].sessionId, i, driver)
      {
        i := i - 1;
        SyncIfDirty(s, i, driver, c);
        done := myLruChainGeneration == lruChainGeneration;
      }
    }

    /**
     `DiskCache_Sync` when nothing else runs while it waits: it ends, and writes back exactly the idle,
     unpinned dirty blocks of the session. Blocks of other sessions, and what clients see, do not change.
     */
    method SyncSession(s: SessionRef, driver: Ref -> DriverResult) returns (err: Errno)
      requires s in sessions && (sessions[s].isOpen ==> SyncContext(State(), s, driver))
      modifies this`blocks, this`sessions, this`dirtyBlockCount, this`disk, this`acts
      ensures err == if old(sessions)[s].isOpen then EOK else ENODEV
      ensures !old(sessions)[s].isOpen ==> State() == old(State())
      ensures old(sessions)[s].isOpen ==>
                Synced(old(State()), State(), old(sessions)[s].sessionId, old(blocks).Keys, driver)
    {
      if !sessions[s].isOpen {
        return ENODEV;
      }
      err := EOK;
      ghost var c := State();
      SyncIsReady(c, s, driver);
      if dirtyBlockCount > 0 {
        var myLruChainGeneration := lruChainGeneration;
        var done := false;
        while !done
          invariant lruChainGeneration == myLruChainGeneration
          invariant State() == if done then SyncedFrom(c, c.sessions[s].sessionId, 0, driver) else c
          decreases !done
        {
          done := SyncPass(s, driver, myLruChainGeneration);
        }
        SyncedFromAll(c, s, driver);
      } else {
        NothingToSync(c, c.sessions[s].sessionId, driver);
      }
    }
  }
}
