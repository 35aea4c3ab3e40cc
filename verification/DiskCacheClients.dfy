/** Exactly which steps can make a client read wrong bytes later on. */
module DiskCacheClients {
  import opened DiskCacheModel
  import opened DiskCacheInvariant
  import opened DiskCacheSteps
  import opened DiskCacheRefinement
  import opened DiskCacheRuns
  import opened DiskCacheLoss
  import opened Errors
  import opened Memory
  import opened Options

  // ---------------------------------------------------------------------------------------
  // The three steps that can go wrong

  /** `es` is a good run from `c` that ends with a read of something else than the store holds. */
  ghost predicate ReadsWrong(c: Cache, store: Plain, es: seq<Event>) {
    exists k, data :: Delivers(c, store, es, [Got(k, data)]) && !(k in store && store[k] == data)
  }

  lemma PinnedSyncEffect(c: Cache, a: Act)
    requires CanUnmap(c, a, Sync) && c.blocks[c.acts[a].ref].isPinned && IsOpen(c, c.acts[a].s)
    ensures var x, b, d := c.acts[a], c.blocks[c.acts[a].ref], Unmap(c, a, Sync);
            && d.disk == c.disk && d.acts == c.acts - {a} && x.ref in d.blocks
            && d.blocks[x.ref] == b.(exclusive := false)
            && IsOpen(d, x.s) && d.sessions[x.s].sessionId == c.sessions[x.s].sessionId
  {
  }

  lemma PinnedSyncDooms(c: Cache, store: Plain, a: Act)
    requires Inv(c) && CanUnmap(c, a, Sync) && !Honest(c, store, EvUnmap(a, Sync))
    ensures var b := c.blocks[c.acts[a].ref];
            b.key in c.disk && Doomed(Unmap(c, a, Sync), c.acts[a].s, c.acts[a].ref, b.key, c.disk[b.key])
  {
    Localize(c, a);
    SoleHolder(c.blocks[c.acts[a].ref], c.acts[a].ref, c.acts, a);
    PinnedSyncEffect(c, a);
    UnmapStep(c, a, Sync);
  }

  /** A sync write of a pinned block is refused, and the disk keeps the old bytes. */
  lemma PinnedSyncLoses(c: Cache, store: Plain, a: Act) returns (es: seq<Event>)
    requires Inv(c) && CanUnmap(c, a, Sync) && !Honest(c, store, EvUnmap(a, Sync))
    ensures ReadsWrong(Unmap(c, a, Sync), PlainAfter(store, EvUnmap(a, Sync), c), es)
  {
    var b := c.blocks[c.acts[a].ref];
    PinnedSyncDooms(c, store, a);
    assert c.acts[a].key == b.key by { Localize(c, a); }
    es := Surfaces(Unmap(c, a, Sync), store[b.key := b.data], c.acts[a].s, c.acts[a].ref, b.key, c.disk[b.key]);
  }

  lemma NoWriteEffect(c: Cache, a: Act)
    requires Local(c, a) && CanUnmap(c, a, NoWrite) && c.acts[a].touched
    ensures var x, b, d := c.acts[a], c.blocks[c.acts[a].ref], Unmap(c, a, NoWrite);
            && x.ref in d.blocks && !d.blocks[x.ref].exclusive && d.blocks[x.ref].key == x.key
            && d.blocks[x.ref].hasData && d.blocks[x.ref].data == b.data
            && IsOpen(d, x.s) && d.sessions[x.s].sessionId == x.key.sid
  {
  }

  lemma NoWriteFinds(c: Cache, a: Act)
    requires Inv(c) && CanUnmap(c, a, NoWrite) && c.acts[a].touched
    ensures Local(c, a) && c.acts[a].ref in Unmap(c, a, NoWrite).blocks
    ensures Find(Unmap(c, a, NoWrite), c.acts[a].key) == Some(c.acts[a].ref)
  {
    Localize(c, a);
    NoWriteEffect(c, a);
    UnmapStep(c, a, NoWrite);
    FindsBlock(Unmap(c, a, NoWrite), c.acts[a].ref);
  }

  /** A change that is not written back stays in the cache. */
  lemma NoWriteShows(c: Cache, store: Plain, a: Act) returns (es: seq<Event>)
    requires Inv(c) && CanUnmap(c, a, NoWrite) && !Honest(c, store, EvUnmap(a, NoWrite))
    ensures ReadsWrong(Unmap(c, a, NoWrite), store, es)
  {
    var d, x := Unmap(c, a, NoWrite), c.acts[a];
    NoWriteFinds(c, a);
    NoWriteEffect(c, a);
    var a' := FreshAct(d.acts.Keys);
    var newRef := FreshAct(d.blocks.Keys);
    assert Key(d.sessions[x.s].sessionId, x.key.lba) == x.key;
    HitDelivers(d, store, a', x.s, x.key.lba, newRef, x.ref);
    es := [EvMap(a', x.s, x.key.lba, ReadOnly, newRef)] + [];
  }

  lemma FailedWriteEffect(c: Cache, s: SessionRef, r: Ref, err: Errno, rlen: nat, junk: Bytes)
    requires CanIoDone(c, s, err, rlen) && c.sessions[s].dopsInUse[0] == DiskOp(Write, r) && IsOpen(c, s)
    requires Status(err, rlen, c.blockSize) != EOK && !c.blocks[r].isAsync && c.blocks[r].key in c.disk
    ensures var d := IoDone(c, s, err, rlen, junk);
            && d.disk == c.disk[c.blocks[r].key := junk] && d.acts == c.acts
            && r in d.blocks && d.blocks[r] == c.blocks[r].(op := Idle)
            && IsOpen(d, s) && d.sessions[s].sessionId == c.sessions[s].sessionId && d.sessions.Keys == c.sessions.Keys
  {
  }

  /** The call whose write is over ends. */
  lemma FinishEffect(c: Cache, store: Plain, w: Act, s: SessionRef)
    requires KnownAct(c, w) && (c.acts[w].phase.UnmapWriting? || c.acts[w].phase.SyncWriting?) && IsOpen(c, s)
    requires var b := c.blocks[c.acts[w].ref]; b.op == Idle && b.shareCount > 0 && !b.exclusive
    ensures Shows(c, store, EvFinish(w, false), [])
    ensures var d, r := Step(c, EvFinish(w, false)), c.acts[w].ref;
            && d.disk == c.disk && d.acts == c.acts - {w} && r in d.blocks
            && d.blocks[r] == c.blocks[r].(shareCount := c.blocks[r].shareCount - 1)
            && IsOpen(d, s) && d.sessions[s].sessionId == c.sessions[s].sessionId
  {
  }

  /** While a block is written, all others that refer to it read it or wait for it. */
  lemma OthersRead(b: DiskBlock, r: Ref, acts: map<Act, Activity>, w: Act)
    requires BlockInv(b, r, acts) && b.op == Write && IsWriterOf(acts, w, r)
    ensures forall a :: a in acts && acts[a].ref == r && a != w ==> acts[a].phase.MapWait? || acts[a].phase.Mapped?
  {
    forall a | a in acts && acts[a].ref == r && a != w ensures acts[a].phase.MapWait? || acts[a].phase.Mapped? {
      assert ActOk(b, acts[a]) && !IsWriterOf(acts, a, r);
    }
  }

  lemma WriterOf(c: Cache, s: SessionRef) returns (w: Act)
    requires Inv(c) && s in c.sessions && c.sessions[s].dopsInUse != [] && c.sessions[s].dopsInUse[0].kind == Write
    ensures var r := c.sessions[s].dopsInUse[0].blk;
            && IsOpen(c, s) && IsWriterOf(c.acts, w, r) && DoingIo(c.acts[w].phase) && KnownAct(c, w)
            && c.blocks[r].key.sid == c.sessions[s].sessionId && BlockInv(c.blocks[r], r, c.acts)
            && c.blocks[r].op == Write
  {
    assert SessionOk(c, s);
    var o := c.sessions[s].dopsInUse[0];
    assert DiskOpOk(c.blocks, o, c.sessions[s].sessionId);
    w :| IsWriterOf(c.acts, w, o.blk) && DoingIo(c.acts[w].phase);
    Localize(c, w);
  }

  /** The call whose write failed ends, and leaves the block to its readers. */
  lemma FailedWriteDooms(c: Cache, store: Plain, s: SessionRef, r: Ref, err: Errno, rlen: nat, junk: Bytes)
    returns (w: Act)
    requires Inv(c) && CanIoDone(c, s, err, rlen) && !Honest(c, store, EvIoDone(s, err, rlen, junk))
    requires r == c.sessions[s].dopsInUse[0].blk
    ensures var d := IoDone(c, s, err, rlen, junk);
            && Shows(d, store, EvFinish(w, false), [])
            && Doomed(Step(d, EvFinish(w, false)), s, r, c.blocks[r].key, junk)
  {
    var d := IoDone(c, s, err, rlen, junk);
    w := WriterOf(c, s);
    OthersRead(c.blocks[r], r, c.acts, w);
    FailedWriteEffect(c, s, r, err, rlen, junk);
    FinishEffect(d, store, w, s);
    StepKeepsInv(c, EvIoDone(s, err, rlen, junk));
    StepKeepsInv(d, EvFinish(w, false));
  }

  /** A write that failed leaves what the drive made of the block, and nobody writes it again. */
  lemma FailedWriteLoses(c: Cache, store: Plain, s: SessionRef, err: Errno, rlen: nat, junk: Bytes)
    returns (es: seq<Event>)
    requires Inv(c) && StoreInv(c, store) && CanIoDone(c, s, err, rlen)
    requires !Honest(c, store, EvIoDone(s, err, rlen, junk))
    ensures ReadsWrong(IoDone(c, s, err, rlen, junk), store, es)
  {
    var r := c.sessions[s].dopsInUse[0].blk;
    var d, k := IoDone(c, s, err, rlen, junk), c.blocks[r].key;
    var w := FailedWriteDooms(c, store, s, r, err, rlen, junk);
    var rest := Surfaces(Step(d, EvFinish(w, false)), store, s, r, k, junk);
    FirstStep(d, store, EvFinish(w, false), rest, [], [Got(k, junk)]);
    es := [EvFinish(w, false)] + rest;
    WrittenIsStored(c, store, s);
    assert Delivers(d, store, es, [Got(k, junk)]);
  }

  /** A block that is being written holds the bytes of the plain store. */
  lemma WrittenIsStored(c: Cache, store: Plain, s: SessionRef)
    requires Inv(c) && StoreInv(c, store) && s in c.sessions
    requires c.sessions[s].dopsInUse != [] && c.sessions[s].dopsInUse[0].kind == Write
    ensures var b := c.blocks[c.sessions[s].dopsInUse[0].blk]; b.key in store && store[b.key] == b.data
  {
    IoDoneHere(c, store, s);
    var r := c.sessions[s].dopsInUse[0].blk;
    var w := WriterOf(c, s);
    assert ActOk(c.blocks[r], c.acts[w]);
    UntouchedUnlessExclusive(c.blocks[r], r, c.acts);
  }

  // ---------------------------------------------------------------------------------------
  // Exactly when clients can tell

  /** Whatever happens after the step, as long as everybody plays by the rules: all reads are right. */
  ghost predicate HarmlessAfter(c: Cache, store: Plain, obs: seq<Obs>, e: Event)
    requires Enabled(c, e)
  {
    forall es :: GoodRun(Step(c, e), PlainAfter(store, e, c), es) ==>
                   ReadsLastWritten(obs + Observe(c, e) + Trace(Step(c, e), es))
  }

  lemma ObsKept(obs: seq<Obs>, store: Plain, o: seq<Obs>, store': Plain)
    requires HoldsLast(obs, store) && ReadsLastWritten(obs) && PlainAgrees(store, o)
    requires if o == [] then store' == store else |o| == 1 && store' == PlainStep(store, o[0])
    ensures HoldsLast(obs + o, store') && ReadsLastWritten(obs + o)
  {
    if o == [] {
      assert obs + o == obs;
    } else {
      var next := obs + o;
      assert next[..|obs|] == obs;
      assert forall i :: 0 <= i <= |obs| ==> next[..i] == obs[..i];
    }
  }

  lemma StepObsKept(c: Cache, store: Plain, obs: seq<Obs>, e: Event)
    requires Inv(c) && StoreInv(c, store) && HoldsLast(obs, store) && ReadsLastWritten(obs) && Enabled(c, e)
    requires Fair(c, e)
    ensures HoldsLast(obs + Observe(c, e), PlainAfter(store, e, c)) && ReadsLastWritten(obs + Observe(c, e))
  {
    StepAgrees(c, store, e);
    StepObserved(c, store, e);
    ObsKept(obs, store, Observe(c, e), PlainAfter(store, e, c));
  }

  lemma ContinuesWell(d: Cache, store: Plain, obs: seq<Obs>, es: seq<Event>)
    requires Inv(d) && StoreInv(d, store) && HoldsLast(obs, store) && ReadsLastWritten(obs) && GoodRun(d, store, es)
    ensures ReadsLastWritten(obs + Trace(d, es))
  {
    RunRefines(d, store, es);
    AcceptedReadsLastWritten(obs, store, Trace(d, es));
  }

  lemma HonestIsHarmless(c: Cache, store: Plain, obs: seq<Obs>, e: Event)
    requires Inv(c) && StoreInv(c, store) && HoldsLast(obs, store) && ReadsLastWritten(obs)
    requires Enabled(c, e) && Fair(c, e) && Honest(c, store, e)
    ensures HarmlessAfter(c, store, obs, e)
  {
    StepKeepsInv(c, e);
    StepRefines(c, store, e);
    StepObsKept(c, store, obs, e);
    forall es | GoodRun(Step(c, e), PlainAfter(store, e, c), es)
      ensures ReadsLastWritten(obs + Observe(c, e) + Trace(Step(c, e), es)) {
      ContinuesWell(Step(c, e), PlainAfter(store, e, c), obs + Observe(c, e), es);
    }
  }

  lemma DishonestReadsWrong(c: Cache, store: Plain, e: Event) returns (es: seq<Event>)
    requires Inv(c) && StoreInv(c, store) && Enabled(c, e) && !Honest(c, store, e)
    ensures ReadsWrong(Step(c, e), PlainAfter(store, e, c), es)
  {
    if e.EvIoDone? {
      es := FailedWriteLoses(c, store, e.s, e.err, e.rlen, e.junk);
    } else if e.wmode == Sync {
      es := PinnedSyncLoses(c, store, e.a);
    } else {
      es := NoWriteShows(c, store, e.a);
    }
  }

  lemma WrongReadSeen(c: Cache, store: Plain, obs: seq<Obs>, es: seq<Event>)
    requires HoldsLast(obs, store) && ReadsWrong(c, store, es)
    ensures GoodRun(c, store, es) && !ReadsLastWritten(obs + Trace(c, es))
  {
    var k, data :| Delivers(c, store, es, [Got(k, data)]) && !(k in store && store[k] == data);
    var all := obs + [Got(k, data)];
    assert all[|obs|] == Got(k, data) && all[..|obs|] == obs;
    assert LastWritten(obs, k) != Some(data);
  }

  lemma DishonestHarms(c: Cache, store: Plain, obs: seq<Obs>, e: Event)
    requires Inv(c) && StoreInv(c, store) && HoldsLast(obs, store) && ReadsLastWritten(obs)
    requires Enabled(c, e) && Fair(c, e) && !Honest(c, store, e)
    ensures !HarmlessAfter(c, store, obs, e)
  {
    StepObsKept(c, store, obs, e);
    var es := DishonestReadsWrong(c, store, e);
    WrongReadSeen(Step(c, e), PlainAfter(store, e, c), obs + Observe(c, e), es);
  }

  /**
   After any good run from an empty cache, and for any step: a client can come to read something else
   than was last written, with everybody playing by the rules from then on, exactly if the step is a
   sync write of a pinned clean block, a failed write of a clean block, or an unmap without a write,
   and leaves other bytes behind than were last written.
   */
  lemma LossExactly(blockSize: nat, maxBlockCount: nat, es: seq<Event>, e: Event)
    requires GoodRun(Init(blockSize, maxBlockCount), map[], es)
    requires var c := EndOf(Init(blockSize, maxBlockCount), es); Enabled(c, e) && Fair(c, e)
    ensures var c := EndOf(Init(blockSize, maxBlockCount), es);
            var obs := Trace(Init(blockSize, maxBlockCount), es);
            var store := PlainRun(map[], obs);
            && HoldsLast(obs, store) && ReadsLastWritten(obs)
            && (HarmlessAfter(c, store, obs, e) <==> Honest(c, store, e))
  {
    var c0 := Init(blockSize, maxBlockCount);
    var c, obs := EndOf(c0, es), Trace(c0, es);
    var store := PlainRun(map[], obs);
    InitHolds(blockSize, maxBlockCount);
    RunRefines(c0, map[], es);
    RunKeepsStore(c0, map[], es);
    AcceptedReadsLastWritten([], map[], obs);
    assert [] + obs == obs;
    if Honest(c, store, e) {
      HonestIsHarmless(c, store, obs, e);
    } else {
      DishonestHarms(c, store, obs, e);
    }
  }

  // ---------------------------------------------------------------------------------------
  // The steps that lose bytes do happen

  /** A good run from `c` to `d`. */
  ghost predicate Reaches(c: Cache, store: Plain, es: seq<Event>, d: Cache) {
    GoodRun(c, store, es) && EndOf(c, es) == d
  }

  lemma FirstReaches(c: Cache, store: Plain, e: Event, obs: seq<Obs>, es: seq<Event>, d: Cache)
    requires Shows(c, store, e, obs) && Reaches(Step(c, e), PlainAfter(store, e, c), es, d)
    ensures Reaches(c, store, [e] + es, d)
  {
    FirstRuns(c, e, es);
    FirstFair(c, e, es);
    FirstHonest(c, store, e, es);
  }

  /** The call `a` has the block mapped for writing, with other bytes than the disk holds. */
  ghost predicate Changed(c: Cache, s: SessionRef, lba: nat, a: Act) {
    && a in c.acts && c.acts[a].phase.Mapped? && c.acts[a].held == HeldExclusive && c.acts[a].s == s && IsOpen(c, s)
    && c.acts[a].key == Key(c.sessions[s].sessionId, lba) && c.sessions[s].dopsInUse == []
    && c.acts[a].ref in c.blocks
    && var b := c.blocks[c.acts[a].ref];
       b.exclusive && !b.isDirty && !b.isPinned && b.key == c.acts[a].key && b.key in c.disk && c.disk[b.key] != b.data
  }

  lemma ReplaceLocks(c: Cache, a: Act, s: SessionRef, r: Ref, k: Key, b: DiskBlock, was: Bytes)
    requires Spot(c, a, Call(s, r, k, MapWait(Replace, Exclusive), NotHeld), b, 1, [], was) && Vacant(b, k)
    ensures CanLockForMap(c, a) && Seen(LockForMap(c, a), a) == []
    ensures Spot(LockForMap(c, a), a, Activity(s, r, k, Mapped(Replace), HeldExclusive, true),
                 b.(exclusive := true, hasData := true), 1, [], was)
    ensures c.sessions[s].sessionId == LockForMap(c, a).sessions[s].sessionId
    ensures LockForMap(c, a).acts.Keys == c.acts.Keys
    ensures LockForMap(c, a).blockCapacity == c.blockCapacity
  {
  }

  lemma ReplaceMaps(c: Cache, store: Plain, a: Act, s: SessionRef, lba: nat, newRef: Ref) returns (r: Ref, b: DiskBlock)
    requires Misses(c, a, s, lba, newRef)
    ensures var k, e := Key(c.sessions[s].sessionId, lba), EvMap(a, s, lba, Replace, newRef);
            && Vacant(b, k) && Shows(c, store, e, [])
            && Spot(Step(c, e), a, Activity(s, r, k, Mapped(Replace), HeldExclusive, true),
                    b.(exclusive := true, hasData := true), 1, [], c.disk[k])
            && Step(c, e).sessions[s].sessionId == c.sessions[s].sessionId && Step(c, e).acts.Keys == c.acts.Keys + {a}
            && Step(c, e).blockCapacity == c.blockCapacity
  {
    FreeOperation(c, s);
    r, b := Finds(c, a, s, lba, Replace, newRef);
    ReplaceMapsNow(c, store, a, s, lba, newRef, r, b);
  }

  lemma ReplaceMapsNow(c: Cache, store: Plain, a: Act, s: SessionRef, lba: nat, newRef: Ref, r: Ref, b: DiskBlock)
    requires CanMap(c, a, s, lba, newRef) && Fair(c, EvMap(a, s, lba, ReadOnly, newRef))
    requires c.sessions[s].dopsInUse == [] && c.sessions[s].dopsCache == 1
    requires Key(c.sessions[s].sessionId, lba) in c.disk
    requires Vacant(b, Key(c.sessions[s].sessionId, lba)) && Waiting(c, a, s, lba, Replace, newRef, r, b)
    ensures var k, e := Key(c.sessions[s].sessionId, lba), EvMap(a, s, lba, Replace, newRef);
            && Shows(c, store, e, [])
            && Spot(Step(c, e), a, Activity(s, r, k, Mapped(Replace), HeldExclusive, true),
                    b.(exclusive := true, hasData := true), 1, [], c.disk[k])
            && Step(c, e).sessions[s].sessionId == c.sessions[s].sessionId && Step(c, e).acts.Keys == c.acts.Keys + {a}
            && Step(c, e).blockCapacity == c.blockCapacity
  {
    var d, k := Map(c, a, s, lba, Replace, newRef), Key(c.sessions[s].sessionId, lba);
    ReplaceLocks(d, a, s, r, k, b, c.disk[k]);
  }

  lemma Stores(c: Cache, store: Plain, a: Act, s: SessionRef, r: Ref, k: Key, b: DiskBlock, was: Bytes, data: Bytes)
    requires Spot(c, a, Activity(s, r, k, Mapped(Replace), HeldExclusive, true), b, 1, [], was)
    ensures Shows(c, store, EvStore(a, data), [])
    ensures Spot(Step(c, EvStore(a, data)), a, Activity(s, r, k, Mapped(Replace), HeldExclusive, true),
                 b.(data := data),
                 1, [], was)
    ensures c.sessions == Step(c, EvStore(a, data)).sessions && Step(c, EvStore(a, data)).acts.Keys == c.acts.Keys
    ensures Step(c, EvStore(a, data)).blockCapacity == c.blockCapacity
  {
  }

  function ChangeRun(a: Act, s: SessionRef, lba: nat, newRef: Ref, data: Bytes, es: seq<Event>): seq<Event> {
    [EvMap(a, s, lba, Replace, newRef)] + ([EvStore(a, data)] + es)
  }

  /** Two steps by the rules that show nothing. */
  ghost predicate TwoSteps(c: Cache, store: Plain, e1: Event, e2: Event, d: Cache) {
    Shows(c, store, e1, []) && Shows(Step(c, e1), store, e2, []) && d == Step(Step(c, e1), e2)
  }

  lemma TwoReach(c: Cache, store: Plain, e1: Event, e2: Event, d: Cache, es: seq<Event>, d': Cache)
    requires TwoSteps(c, store, e1, e2, d) && Reaches(d, store, es, d')
    ensures Reaches(c, store, [e1] + ([e2] + es), d')
  {
    Quiet(c, store, e1);
    Quiet(Step(c, e1), store, e2);
    FirstReaches(Step(c, e1), store, e2, [], es, d');
    FirstReaches(c, store, e1, [], [e2] + es, d');
  }

  lemma TwoKeepInv(c: Cache, store: Plain, e1: Event, e2: Event, d: Cache)
    requires Inv(c) && TwoSteps(c, store, e1, e2, d)
    ensures Inv(d)
  {
    StepKeepsInv(c, e1);
    StepKeepsInv(Step(c, e1), e2);
  }

  /** A client maps a missing block to replace its bytes, and does. */
  lemma ChangesBlock(c: Cache, store: Plain, a: Act, s: SessionRef, lba: nat, newRef: Ref, data: Bytes)
    returns (d: Cache)
    requires Misses(c, a, s, lba, newRef) && c.disk[Key(c.sessions[s].sessionId, lba)] != data
    ensures TwoSteps(c, store, EvMap(a, s, lba, Replace, newRef), EvStore(a, data), d)
    ensures Changed(d, s, lba, a) && d.acts.Keys == c.acts.Keys + {a} && d.blockCapacity == c.blockCapacity
    ensures d.blocks[d.acts[a].ref].data == data
  {
    var k := Key(c.sessions[s].sessionId, lba);
    var r, b := ReplaceMaps(c, store, a, s, lba, newRef);
    var c1 := Step(c, EvMap(a, s, lba, Replace, newRef));
    Stores(c1, store, a, s, r, k, b.(exclusive := true, hasData := true), c.disk[k], data);
    d := Step(c1, EvStore(a, data));
  }

  /** A sync write that is refused although the block is not dirty and the disk holds other bytes. */
  ghost predicate LosesBySync(c: Cache, a: Act) {
    CanUnmap(c, a, Sync) && !Honest(c, map[], EvUnmap(a, Sync))
  }

  /** A write of a block that is not dirty, under way. */
  ghost predicate LosesByFailure(c: Cache, s: SessionRef, junk: Bytes) {
    CanIoDone(c, s, EIO, 0) && !Honest(c, map[], EvIoDone(s, EIO, 0, junk))
  }

  lemma PinsChanged(c: Cache, store: Plain, s: SessionRef, lba: nat, a: Act)
    requires Changed(c, s, lba, a) && Find(c, c.acts[a].key) == Some(c.acts[a].ref)
    ensures Shows(c, store, EvPin(s, lba, true), []) && LosesBySync(Step(c, EvPin(s, lba, true)), a)
  {
  }

  lemma UnmapsChanged(c: Cache, store: Plain, s: SessionRef, lba: nat, a: Act)
    requires Changed(c, s, lba, a)
    ensures Shows(c, store, EvUnmap(a, Sync), [Put(c.acts[a].key, c.blocks[c.acts[a].ref].data)])
    ensures var d, x := Step(c, EvUnmap(a, Sync)), c.acts[a];
            && d.acts == c.acts[a := x.(phase := UnmapNeedsWrite, held := HeldShared, touched := false)]
            && x.ref in d.blocks && d.blocks[x.ref] == Downgrade(c.blocks[x.ref]) && d.disk == c.disk
            && d.sessions == c.sessions
  {
  }

  lemma SubmitsChanged(c: Cache, store: Plain, s: SessionRef, r: Ref, a: Act, junk: Bytes)
    requires a in c.acts && c.acts[a].phase.UnmapNeedsWrite? && c.acts[a].s == s && c.acts[a].ref == r
    requires s in c.sessions
    requires c.sessions[s].dopsInUse == [] && c.sessions[s].dopsCache > 0 && r in c.blocks && c.blocks[r].shareCount > 0
    requires !c.blocks[r].isDirty && c.blocks[r].key in c.disk && junk != c.blocks[r].data
    ensures Shows(c, store, EvStartIo(a, true), []) && LosesByFailure(Step(c, EvStartIo(a, true)), s, junk)
  {
  }

  lemma Ends(c: Cache, store: Plain, e: Event, obs: seq<Obs>)
    requires Shows(c, store, e, obs)
    ensures Reaches(c, store, [e] + [], Step(c, e))
  {
    FirstReaches(c, store, e, obs, [], Step(c, e));
  }

  /** The client changes the block, and somebody pins it. */
  lemma PinRun(c: Cache, store: Plain, a: Act, s: SessionRef, lba: nat, newRef: Ref, data: Bytes)
    returns (es: seq<Event>, d: Cache)
    requires Misses(c, a, s, lba, newRef) && c.disk[Key(c.sessions[s].sessionId, lba)] != data
    ensures Reaches(c, store, es, d) && LosesBySync(d, a)
  {
    var e1, e2, e3 := EvMap(a, s, lba, Replace, newRef), EvStore(a, data), EvPin(s, lba, true);
    var c2 := ChangesBlock(c, store, a, s, lba, newRef, data);
    TwoKeepInv(c, store, e1, e2, c2);
    FindsBlock(c2, c2.acts[a].ref);
    PinsChanged(c2, store, s, lba, a);
    d := Step(c2, e3);
    Ends(c2, store, e3, []);
    TwoReach(c, store, e1, e2, c2, [e3] + [], d);
    es := ChangeRun(a, s, lba, newRef, data, [e3] + []);
  }

  /** The client changes the block and unmaps it with a sync write, which is submitted. */
  lemma WriteRun(c: Cache, store: Plain, a: Act, s: SessionRef, lba: nat, newRef: Ref, data: Bytes, junk: Bytes)
    returns (es: seq<Event>, d: Cache)
    requires Misses(c, a, s, lba, newRef) && c.disk[Key(c.sessions[s].sessionId, lba)] != data && junk != data
    ensures Reaches(c, store, es, d) && LosesByFailure(d, s, junk)
  {
    var e1, e2 := EvMap(a, s, lba, Replace, newRef), EvStore(a, data);
    var c2 := ChangesBlock(c, store, a, s, lba, newRef, data);
    TwoKeepInv(c, store, e1, e2, c2);
    var rest;
    rest, d := WriteEnd(c2, store, a, s, lba, junk);
    TwoReach(c, store, e1, e2, c2, rest, d);
    es := ChangeRun(a, s, lba, newRef, data, rest);
  }

  lemma WriteEnd(c: Cache, store: Plain, a: Act, s: SessionRef, lba: nat, junk: Bytes)
    returns (es: seq<Event>, d: Cache)
    requires Inv(c) && Changed(c, s, lba, a) && c.blocks[c.acts[a].ref].data != junk
    ensures Reaches(c, store, es, d) && LosesByFailure(d, s, junk)
  {
    var e1, e2, r := EvUnmap(a, Sync), EvStartIo(a, true), c.acts[a].ref;
    FreeOperation(c, s);
    UnmapsChanged(c, store, s, lba, a);
    var c1, store' := Step(c, e1), PlainAfter(store, e1, c);
    SubmitsChanged(c1, store', s, r, a, junk);
    d := Step(c1, e2);
    Ends(c1, store', e2, []);
    FirstReaches(c, store, e1, [Put(c.acts[a].key, c.blocks[r].data)], [e2] + [], d);
    es := [e1] + ([e2] + []);
  }

  /** A good run after which a sync write loses bytes. */
  lemma PinnedSyncHappens(blockSize: nat, maxBlockCount: nat, content: map<nat, Bytes>, lba: nat, data: Bytes)
    returns (es: seq<Event>, c: Cache)
    requires maxBlockCount > 0 && lba in content && data != content[lba]
    ensures Reaches(Init(blockSize, maxBlockCount), map[], es, c) && LosesBySync(c, 0)
  {
    var c0, e := Init(blockSize, maxBlockCount), EvOpen(0, content);
    Opens(blockSize, maxBlockCount, content, 0, 0, lba, 0);
    var rest;
    rest, c := PinRun(Step(c0, e), PlainAfter(map[], e, c0), 0, 0, lba, 0, data);
    FirstReaches(c0, map[], e, [Media(1, content)], rest, c);
    es := [e] + rest;
  }

  /** A good run after which a write that fails, with anything else left on the disk, loses bytes. */
  lemma FailedWriteHappens(blockSize: nat, maxBlockCount: nat, content: map<nat, Bytes>, lba: nat, data: Bytes,
                           junk: Bytes)
    returns (es: seq<Event>, c: Cache)
    requires maxBlockCount > 0 && lba in content && data != content[lba] && junk != data
    ensures Reaches(Init(blockSize, maxBlockCount), map[], es, c) && LosesByFailure(c, 0, junk)
  {
    var c0, e := Init(blockSize, maxBlockCount), EvOpen(0, content);
    Opens(blockSize, maxBlockCount, content, 0, 0, lba, 0);
    var rest;
    rest, c := WriteRun(Step(c0, e), PlainAfter(map[], e, c0), 0, 0, lba, 0, data, junk);
    FirstReaches(c0, map[], e, [Media(1, content)], rest, c);
    es := [e] + rest;
  }

  /** Clients get to see the loss: on every medium, for every change of every block. */
  lemma PinnedSyncSeen(blockSize: nat, maxBlockCount: nat, content: map<nat, Bytes>, lba: nat, data: Bytes)
    returns (es: seq<Event>, c: Cache)
    requires maxBlockCount > 0 && lba in content && data != content[lba]
    ensures Reaches(Init(blockSize, maxBlockCount), map[], es, c) && Enabled(c, EvUnmap(0, Sync))
    ensures var obs := Trace(Init(blockSize, maxBlockCount), es);
            !HarmlessAfter(c, PlainRun(map[], obs), obs, EvUnmap(0, Sync))
  {
    es, c := PinnedSyncHappens(blockSize, maxBlockCount, content, lba, data);
    LossExactly(blockSize, maxBlockCount, es, EvUnmap(0, Sync));
  }

  lemma FailedWriteSeen(blockSize: nat, maxBlockCount: nat, content: map<nat, Bytes>, lba: nat, data: Bytes,
                        junk: Bytes)
    returns (es: seq<Event>, c: Cache)
    requires maxBlockCount > 0 && lba in content && data != content[lba] && junk != data
    ensures Reaches(Init(blockSize, maxBlockCount), map[], es, c) && Enabled(c, EvIoDone(0, EIO, 0, junk))
    ensures var obs := Trace(Init(blockSize, maxBlockCount), es);
            !HarmlessAfter(c, PlainRun(map[], obs), obs, EvIoDone(0, EIO, 0, junk))
  {
    es, c := FailedWriteHappens(blockSize, maxBlockCount, content, lba, data, junk);
    LossExactly(blockSize, maxBlockCount, es, EvIoDone(0, EIO, 0, junk));
  }
}
