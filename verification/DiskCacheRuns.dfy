/** Runs, and calls that run to their end. */
module DiskCacheRuns {
  import opened DiskCacheModel
  import opened DiskCacheInvariant
  import opened DiskCacheSteps
  import opened DiskCacheRefinement
  import opened Errors
  import opened Memory
  import opened Options

  /** A good run that shows `obs`. */
  ghost predicate Delivers(c: Cache, store: Plain, es: seq<Event>, obs: seq<Obs>) {
    GoodRun(c, store, es) && Trace(c, es) == obs
  }

  /** A step by the rules that shows `obs`. */
  ghost predicate Shows(c: Cache, store: Plain, e: Event, obs: seq<Obs>) {
    Enabled(c, e) && Fair(c, e) && Honest(c, store, e) && Observe(c, e) == obs
  }

  lemma FirstRuns(c: Cache, e: Event, es: seq<Event>)
    requires Enabled(c, e) && CanRun(Step(c, e), es)
    ensures CanRun(c, [e] + es) && EndOf(c, [e] + es) == EndOf(Step(c, e), es)
    ensures Trace(c, [e] + es) == Observe(c, e) + Trace(Step(c, e), es)
  {
    assert ([e] + es)[1..] == es;
  }

  lemma FirstFair(c: Cache, e: Event, es: seq<Event>)
    requires Enabled(c, e) && Fair(c, e) && FairRun(Step(c, e), es)
    ensures FairRun(c, [e] + es)
  {
    FirstRuns(c, e, es);
    assert ([e] + es)[1..] == es;
  }

  lemma FirstHonest(c: Cache, store: Plain, e: Event, es: seq<Event>)
    requires Enabled(c, e) && Honest(c, store, e) && CanRun(Step(c, e), es)
    requires HonestRun(Step(c, e), PlainAfter(store, e, c), es)
    ensures CanRun(c, [e] + es) && HonestRun(c, store, [e] + es)
  {
    FirstRuns(c, e, es);
    assert ([e] + es)[1..] == es;
  }

  lemma FirstStep(c: Cache, store: Plain, e: Event, es: seq<Event>, obs: seq<Obs>, obs': seq<Obs>)
    requires Shows(c, store, e, obs) && Delivers(Step(c, e), PlainAfter(store, e, c), es, obs')
    ensures Delivers(c, store, [e] + es, obs + obs')
  {
    FirstRuns(c, e, es);
    FirstFair(c, e, es);
    FirstHonest(c, store, e, es);
  }

  lemma NoSteps(c: Cache, store: Plain)
    ensures Delivers(c, store, [], [])
  {
  }

  // ---------------------------------------------------------------------------------------
  // A map call that reads its block in

  /** The call `a`, its block and its session. */
  ghost predicate Spot(c: Cache, a: Act, x: Activity, b: DiskBlock, free: nat, ops: seq<DiskOp>, data: Bytes) {
    && a in c.acts && c.acts[a] == x && x.ref in c.blocks && c.blocks[x.ref] == b && b.key == x.key
    && IsOpen(c, x.s) && c.sessions[x.s].dopsCache == free && c.sessions[x.s].dopsInUse == ops
    && x.key in c.disk && c.disk[x.key] == data
  }

  function Call(s: SessionRef, r: Ref, k: Key, phase: Phase, held: Held): Activity {
    Activity(s, r, k, phase, held, false)
  }

  /** The block is not cached, a block can be had for it, and the session has a free disk operation. */
  ghost predicate Misses(c: Cache, a: Act, s: SessionRef, lba: nat, newRef: Ref) {
    && Inv(c) && IsOpen(c, s) && CanMap(c, a, s, lba, newRef) && Fair(c, EvMap(a, s, lba, ReadOnly, newRef))
    && c.sessions[s].dopsInUse == [] && Find(c, Key(c.sessions[s].sessionId, lba)).None?
    && Key(c.sessions[s].sessionId, lba) in c.disk
  }

  /** A block that was created or recycled for `k`. */
  predicate Vacant(b: DiskBlock, k: Key) {
    b.key == k && !InUse(b) && !b.hasData && !b.isDirty && !b.isPinned
  }

  /** A missing block is created or recycled. */
  lemma VacantBlock(c: Cache, k: Key, newRef: Ref)
    requires IndexInv(c) && newRef !in c.blocks && GetBlock(c, k, newRef).Some? && Find(c, k).None?
    ensures var (d, r) := GetBlock(c, k, newRef).value;
            && r in d.blocks && Vacant(d.blocks[r], k) && d.disk == c.disk && d.sessions == c.sessions
            && d.acts == c.acts
            && d.blockSize == c.blockSize && d.blockCapacity == c.blockCapacity
  {
    VictimReusable(c);
  }

  /** The call finds its block. */
  lemma Finds(c: Cache, a: Act, s: SessionRef, lba: nat, mode: MapMode, newRef: Ref) returns (r: Ref, b: DiskBlock)
    requires Misses(c, a, s, lba, newRef)
    ensures Vacant(b, Key(c.sessions[s].sessionId, lba)) && Waiting(c, a, s, lba, mode, newRef, r, b)
  {
    var k := Key(c.sessions[s].sessionId, lba);
    VacantBlock(c, k, newRef);
    r := GetBlock(c, k, newRef).value.1;
    var d := GetBlock(c, k, newRef).value.0;
    b := d.blocks[r];
    MapIs(c, a, s, lba, mode, newRef, d, r);
  }

  /** The call `a` was added, and nothing else that the rest of the call looks at has changed. */
  ghost predicate Waiting(c: Cache, a: Act, s: SessionRef, lba: nat, mode: MapMode, newRef: Ref, r: Ref, b: DiskBlock)
    requires CanMap(c, a, s, lba, newRef)
  {
    var d, k := Map(c, a, s, lba, mode, newRef), Key(c.sessions[s].sessionId, lba);
    && d.blockSize == c.blockSize && d.acts.Keys == c.acts.Keys + {a} && d.sessions == c.sessions
    && d.blockCapacity == c.blockCapacity && d.disk == c.disk
    && d.acts[a] == Call(s, r, k, MapWait(mode, Exclusive), NotHeld) && r in d.blocks && d.blocks[r] == b
  }

  lemma MapIs(c: Cache, a: Act, s: SessionRef, lba: nat, mode: MapMode, newRef: Ref, d: Cache, r: Ref)
    requires CanMap(c, a, s, lba, newRef) && GetBlock(c, Key(c.sessions[s].sessionId, lba), newRef) == Some((d, r))
    requires r in d.blocks && !d.blocks[r].hasData && d.acts == c.acts && d.sessions == c.sessions && d.disk == c.disk
    requires d.blockSize == c.blockSize && d.blockCapacity == c.blockCapacity
    ensures Waiting(c, a, s, lba, mode, newRef, r, d.blocks[r])
  {
  }

  /** Nobody has locked it, so the call takes the lock at once. */
  lemma Locks(c: Cache, a: Act, s: SessionRef, r: Ref, k: Key, mode: MapMode, b: DiskBlock, free: nat, data: Bytes)
    requires Spot(c, a, Call(s, r, k, MapWait(mode, Exclusive), NotHeld), b, free, [], data) && Vacant(b, k)
    requires Reads(mode)
    ensures CanLockForMap(c, a)
    ensures Spot(LockForMap(c, a), a, Call(s, r, k, MapNeedsRead(mode), HeldExclusive), b.(exclusive := true), free, [],
                 data)
    ensures LockForMap(c, a).blockSize == c.blockSize && LockForMap(c, a).acts.Keys == c.acts.Keys
    ensures LockForMap(c, a).sessions == c.sessions && LockForMap(c, a).blockCapacity == c.blockCapacity
    ensures LockForMap(c, a).disk == c.disk
  {
  }

  lemma Maps(c: Cache, store: Plain, a: Act, s: SessionRef, lba: nat, mode: MapMode, newRef: Ref)
    returns (r: Ref, b: DiskBlock)
    requires Misses(c, a, s, lba, newRef) && Reads(mode)
    ensures var k, e := Key(c.sessions[s].sessionId, lba), EvMap(a, s, lba, mode, newRef);
            && Vacant(b, k) && Shows(c, store, e, [])
            && Spot(Step(c, e), a, Call(s, r, k, MapNeedsRead(mode), HeldExclusive), b.(exclusive := true),
                    c.sessions[s].dopsCache, [], c.disk[k])
            && Step(c, e).blockSize == c.blockSize && Step(c, e).acts.Keys == c.acts.Keys + {a}
            && Step(c, e).sessions == c.sessions && Step(c, e).blockCapacity == c.blockCapacity
              && Step(c, e).disk == c.disk
  {
    r, b := Finds(c, a, s, lba, mode, newRef);
    MapsNow(c, store, a, s, lba, mode, newRef, r, b);
  }

  lemma MapsNow(c: Cache, store: Plain, a: Act, s: SessionRef, lba: nat, mode: MapMode, newRef: Ref, r: Ref,
                b: DiskBlock)
    requires CanMap(c, a, s, lba, newRef) && Fair(c, EvMap(a, s, lba, mode, newRef)) && Reads(mode)
    requires c.sessions[s].dopsInUse == [] && Key(c.sessions[s].sessionId, lba) in c.disk
    requires Vacant(b, Key(c.sessions[s].sessionId, lba)) && Waiting(c, a, s, lba, mode, newRef, r, b)
    ensures var k, e := Key(c.sessions[s].sessionId, lba), EvMap(a, s, lba, mode, newRef);
            && Shows(c, store, e, [])
            && Spot(Step(c, e), a, Call(s, r, k, MapNeedsRead(mode), HeldExclusive), b.(exclusive := true),
                    c.sessions[s].dopsCache, [], c.disk[k])
            && Step(c, e).blockSize == c.blockSize && Step(c, e).acts.Keys == c.acts.Keys + {a}
            && Step(c, e).sessions == c.sessions && Step(c, e).blockCapacity == c.blockCapacity
              && Step(c, e).disk == c.disk
  {
    var d, k := Map(c, a, s, lba, mode, newRef), Key(c.sessions[s].sessionId, lba);
    Locks(d, a, s, r, k, mode, b, c.sessions[s].dopsCache, c.disk[k]);
  }

  lemma Starts(c: Cache, store: Plain, a: Act, s: SessionRef, r: Ref, k: Key, mode: MapMode, b: DiskBlock, free: nat,
               data: Bytes)
    requires free > 0 && b.exclusive
    requires Spot(c, a, Call(s, r, k, MapNeedsRead(mode), HeldExclusive), b, free, [], data)
    ensures Shows(c, store, EvStartIo(a, true), [])
    ensures Spot(Step(c, EvStartIo(a, true)), a, Call(s, r, k, MapReading(mode), HeldExclusive),
                 b.(op := Read, isAsync := false, readError := EOK), free - 1, [DiskOp(Read, r)], data)
    ensures var d := Step(c, EvStartIo(a, true));
            && d.blockSize == c.blockSize && d.disk == c.disk && d.acts.Keys == c.acts.Keys
            && d.blockCapacity == c.blockCapacity && d.sessions[s].sessionId == c.sessions[s].sessionId
  {
  }

  lemma Arrives(c: Cache, store: Plain, a: Act, s: SessionRef, r: Ref, k: Key, mode: MapMode, b: DiskBlock, free: nat,
                data: Bytes)
    requires b.exclusive && b.op == Read && !b.isAsync
    requires Spot(c, a, Call(s, r, k, MapReading(mode), HeldExclusive), b, free, [DiskOp(Read, r)], data)
    ensures var e := EvIoDone(s, EOK, c.blockSize, []);
            && Shows(c, store, e, [])
            && Spot(Step(c, e), a, Call(s, r, k, MapReading(mode), HeldExclusive),
                    b.(hasData := true, readError := EOK, data := data, op := Idle), free + 1, [], data)
            && Step(c, e).disk == c.disk && Step(c, e).acts == c.acts && Step(c, e).blockCapacity == c.blockCapacity
            && Step(c, e).sessions[s].sessionId == c.sessions[s].sessionId
  {
  }

  lemma Returns(c: Cache, store: Plain, a: Act, s: SessionRef, r: Ref, k: Key, mode: MapMode, b: DiskBlock, free: nat,
                data: Bytes)
    requires Spot(c, a, Call(s, r, k, MapReading(mode), HeldExclusive), b, free, [], data) && Reads(mode)
    requires b.exclusive && b.op == Idle && b.readError == EOK && b.data == data
    ensures Shows(c, store, EvFinish(a, false), [Got(k, data)])
    ensures var d := Step(c, EvFinish(a, false));
            && (mode == Update ==> Spot(d, a, Call(s, r, k, Mapped(Update), HeldExclusive), b, free, [], data))
            && d.disk == c.disk && d.acts.Keys == c.acts.Keys && d.blockCapacity == c.blockCapacity
            && d.sessions[s].sessionId == c.sessions[s].sessionId
  {
  }

  lemma FreeOperation(c: Cache, s: SessionRef)
    requires Inv(c) && IsOpen(c, s) && c.sessions[s].dopsInUse == []
    ensures c.sessions[s].dopsCache == 1
  {
    assert SessionOk(c, s);
  }

  /** The steps of a map call that finds the block missing and reads it in. */
  function ReadIn(a: Act, s: SessionRef, lba: nat, newRef: Ref, blockSize: nat): seq<Event> {
    [EvMap(a, s, lba, ReadOnly, newRef)] + ([EvStartIo(a, true)] +
      ([EvIoDone(s, EOK, blockSize, [])] + ([EvFinish(a, false)] + [])))
  }

  /** The end of the call, once its read is submitted. */
  lemma ReadDelivers(c: Cache, store: Plain, a: Act, s: SessionRef, r: Ref, k: Key, b: DiskBlock, data: Bytes)
    requires b.exclusive && b.op == Read && !b.isAsync
    requires Spot(c, a, Call(s, r, k, MapReading(ReadOnly), HeldExclusive), b, 0, [DiskOp(Read, r)], data)
    ensures Delivers(c, store, [EvIoDone(s, EOK, c.blockSize, [])] + ([EvFinish(a, false)] + []), [Got(k, data)])
  {
    var e3, e4 := EvIoDone(s, EOK, c.blockSize, []), EvFinish(a, false);
    Arrives(c, store, a, s, r, k, ReadOnly, b, 0, data);
    var d := Step(c, e3);
    Returns(d, store, a, s, r, k, ReadOnly, b.(hasData := true, readError := EOK, data := data, op := Idle), 1, data);
    NoSteps(Step(d, e4), store);
    FirstStep(d, store, e4, [], [Got(k, data)], []);
    FirstStep(c, store, e3, [e4] + [], [], [Got(k, data)]);
  }

  /**
   In every state in which a block is missing and a block can be had for it, the map call runs to its
   end, and the one thing it shows to its caller is what the disk holds.
   */
  lemma MissDelivers(c: Cache, store: Plain, a: Act, s: SessionRef, lba: nat, newRef: Ref)
    requires Misses(c, a, s, lba, newRef)
    ensures var k := Key(c.sessions[s].sessionId, lba);
            Delivers(c, store, ReadIn(a, s, lba, newRef, c.blockSize), [Got(k, c.disk[k])])
  {
    var k := Key(c.sessions[s].sessionId, lba);
    var data := c.disk[k];
    var e1, e2 := EvMap(a, s, lba, ReadOnly, newRef), EvStartIo(a, true);
    var e3, e4 := EvIoDone(s, EOK, c.blockSize, []), EvFinish(a, false);
    FreeOperation(c, s);
    var r, b := Maps(c, store, a, s, lba, ReadOnly, newRef);
    var c1 := Step(c, e1);
    var b1 := b.(exclusive := true);
    Starts(c1, store, a, s, r, k, ReadOnly, b1, 1, data);
    var c2 := Step(c1, e2);
    ReadDelivers(c2, store, a, s, r, k, b1.(op := Read, isAsync := false, readError := EOK), data);
    FirstStep(c1, store, e2, [e3] + ([e4] + []), [], [Got(k, data)]);
    FirstStep(c, store, e1, [e2] + ([e3] + ([e4] + [])), [], [Got(k, data)]);
  }

  // ---------------------------------------------------------------------------------------
  // A map call that finds its block

  lemma HitLocks(c: Cache, a: Act, s: SessionRef, r: Ref, k: Key)
    requires a in c.acts && c.acts[a] == Call(s, r, k, MapWait(ReadOnly, Shared), NotHeld)
    requires s in c.sessions && r in c.blocks && c.blocks[r].hasData && !c.blocks[r].exclusive
    ensures CanLockForMap(c, a) && Seen(LockForMap(c, a), a) == [Got(k, c.blocks[r].data)]
  {
  }

  lemma HitFinds(c: Cache, a: Act, s: SessionRef, lba: nat, newRef: Ref, r: Ref)
    requires a !in c.acts && newRef !in c.blocks && IsOpen(c, s)
    requires Find(c, Key(c.sessions[s].sessionId, lba)) == Some(r) && r in c.blocks && c.blocks[r].hasData
    ensures CanMap(c, a, s, lba, newRef)
    ensures var d := Map(c, a, s, lba, ReadOnly, newRef);
            && d.acts == c.acts[a := Call(s, r, Key(c.sessions[s].sessionId, lba), MapWait(ReadOnly, Shared), NotHeld)]
            && d.blocks == c.blocks && d.sessions == c.sessions && d.disk == c.disk
              && d.blockCapacity == c.blockCapacity
  {
  }

  /** A cached block that nobody holds exclusively is handed out as it is. */
  lemma HitDelivers(c: Cache, store: Plain, a: Act, s: SessionRef, lba: nat, newRef: Ref, r: Ref)
    requires a !in c.acts && newRef !in c.blocks && IsOpen(c, s)
    requires Find(c, Key(c.sessions[s].sessionId, lba)) == Some(r)
    requires r in c.blocks && c.blocks[r].hasData && !c.blocks[r].exclusive
    ensures Delivers(c, store, [EvMap(a, s, lba, ReadOnly, newRef)] + [],
                     [Got(Key(c.sessions[s].sessionId, lba), c.blocks[r].data)])
  {
    var k, e := Key(c.sessions[s].sessionId, lba), EvMap(a, s, lba, ReadOnly, newRef);
    HitFinds(c, a, s, lba, newRef, r);
    HitLocks(Map(c, a, s, lba, ReadOnly, newRef), a, s, r, k);
    NoSteps(Step(c, e), store);
    FirstStep(c, store, e, [], [Got(k, c.blocks[r].data)], []);
  }

  // ---------------------------------------------------------------------------------------
  // From a new cache

  lemma Opens(blockSize: nat, maxBlockCount: nat, content: map<nat, Bytes>, a: Act, s: SessionRef, lba: nat,
              newRef: Ref)
    requires maxBlockCount > 0 && lba in content
    ensures var c, e := Init(blockSize, maxBlockCount), EvOpen(s, content);
            && Shows(c, map[], e, [Media(1, content)]) && Misses(Step(c, e), a, s, lba, newRef)
            && Step(c, e).sessions[s].sessionId == 1 && Step(c, e).disk[Key(1, lba)] == content[lba]
            && Step(c, e).blockSize == blockSize
  {
    InitHolds(blockSize, maxBlockCount);
    OpenStep(Init(blockSize, maxBlockCount), s, content);
    MediaKeysAt(1, content, Key(1, lba));
    EmptyMisses(Open(Init(blockSize, maxBlockCount), s, content), a, s, lba, newRef);
  }

  lemma EmptyMisses(c: Cache, a: Act, s: SessionRef, lba: nat, newRef: Ref)
    requires Inv(c) && IsOpen(c, s) && c.sessions[s].dopsInUse == [] && c.acts == map[] && c.blocks == map[]
    requires c.blockCount == 0 < c.blockCapacity && Key(c.sessions[s].sessionId, lba) in c.disk
    ensures Misses(c, a, s, lba, newRef)
  {
    FindCorrect(c, Key(c.sessions[s].sessionId, lba));
  }

  /** A new cache, a medium, and the first read of any of its blocks. */
  lemma FirstRead(blockSize: nat, maxBlockCount: nat, content: map<nat, Bytes>, a: Act, s: SessionRef, lba: nat,
                  newRef: Ref)
    requires maxBlockCount > 0 && lba in content
    ensures Delivers(Init(blockSize, maxBlockCount), map[], [EvOpen(s, content)] + ReadIn(a, s, lba, newRef, blockSize),
                     [Media(1, content), Got(Key(1, lba), content[lba])])
  {
    var c, e := Init(blockSize, maxBlockCount), EvOpen(s, content);
    Opens(blockSize, maxBlockCount, content, a, s, lba, newRef);
    MissDelivers(Step(c, e), PlainAfter(map[], e, c), a, s, lba, newRef);
    FirstStep(c, map[], e, ReadIn(a, s, lba, newRef, blockSize), [Media(1, content)], [Got(Key(1, lba), content[lba])]);
  }
}
