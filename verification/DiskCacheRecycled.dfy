/** What a call gets to see whose block is recycled while it waits for the lock. */
module DiskCacheRecycled {
  import opened DiskCacheModel
  import opened DiskCacheInvariant
  import opened DiskCacheSteps
  import opened DiskCacheRefinement
  import opened DiskCacheRuns
  import opened DiskCacheLoss
  import opened DiskCacheClients
  import opened Errors
  import opened Memory
  import opened Options

  /**
   Call `w` waits to read block `v`, which everybody has left by now, and the cache has no other place for block
   `lba` of session `s`, whose disk operation is free.
   */
  ghost predicate AboutToRecycle(c: Cache, w: Act, v: Ref, s: SessionRef, lba: nat) {
    && Inv(c) && w in c.acts && c.acts[w].phase == MapWait(ReadOnly, Shared) && c.acts[w].ref == v && v in c.blocks
    && IsOpen(c, s) && Find(c, Key(c.sessions[s].sessionId, lba)).None? && c.blockCount >= c.blockCapacity
    && Victim(c.lru, c.blocks) == Some(v) && c.sessions[s].dopsInUse == []
    && Key(c.sessions[s].sessionId, lba) in c.disk
  }

  lemma Waiter(c: Cache, w: Act, v: Ref, s: SessionRef, lba: nat)
    requires AboutToRecycle(c, w, v, s, lba)
    ensures c.acts[w] == Call(c.acts[w].s, v, c.blocks[v].key, MapWait(ReadOnly, Shared), NotHeld)
    ensures c.acts[w].s in c.sessions && c.blocks[v].hasData && !InUse(c.blocks[v])
  {
    Localize(c, w);
    VictimReusable(c);
  }

  /** The read of the other block ends well. */
  lemma OtherArrives(g: Cache, store: Plain, a: Act, s: SessionRef, r: Ref, k: Key, b: DiskBlock)
    requires s in g.sessions && g.sessions[s].dopsCache == 1 && g.sessions[s].dopsInUse == [] && !b.isAsync
    requires b.key == k && k in g.disk
    ensures var x := Call(s, r, k, MapReading(ReadOnly), HeldExclusive);
            var c, e := With(g, a, x, r, b).(sessions := Busy(g, s, r)), EvIoDone(s, EOK, g.blockSize, []);
            && Shows(c, store, e, [])
            && Step(c, e) == With(g, a, x, r, b.(op := Idle, readError := EOK, hasData := true, data := g.disk[k]))
  {
    var x := Call(s, r, k, MapReading(ReadOnly), HeldExclusive);
    var c, e := With(g, a, x, r, b).(sessions := Busy(g, s, r)), EvIoDone(s, EOK, g.blockSize, []);
    var b1 := b.(op := Idle, readError := EOK, hasData := true, data := g.disk[k]);
    assert c.blocks[r := b1] == g.blocks[r := b1];
    assert [DiskOp(Read, r)][1..] == g.sessions[s].dopsInUse;
    assert Step(c, e).sessions == g.sessions;
  }

  /** The call on the other block gets it, and leaves it open to readers. */
  lemma OtherReturns(g: Cache, store: Plain, a: Act, s: SessionRef, r: Ref, k: Key, b: DiskBlock, w: Act)
    requires s in g.sessions && b.exclusive && b.op == Idle && b.readError == EOK && b.hasData && w in g.acts && w != a
    ensures var c, e := With(g, a, Call(s, r, k, MapReading(ReadOnly), HeldExclusive), r, b), EvFinish(a, false);
            && Shows(c, store, e, [Got(k, b.data)])
            && var d := Step(c, e);
               && w in d.acts && d.acts[w] == g.acts[w] && d.sessions.Keys == g.sessions.Keys
               && r in d.blocks && d.blocks[r].hasData && !d.blocks[r].exclusive && d.blocks[r].data == b.data
  {
  }

  /** The steps of the call on the other block, and the waiter that wakes up. */
  function RecycleRun(a: Act, s: SessionRef, lba: nat, newRef: Ref, blockSize: nat, w: Act): seq<Event> {
    [EvMap(a, s, lba, ReadOnly, newRef)] + ([EvStartIo(a, true)] +
      ([EvIoDone(s, EOK, blockSize, [])] + ([EvFinish(a, false)] + ([EvLock(w)] + []))))
  }

  /** Four steps that can happen, of which the last one shows `obs`. */
  ghost predicate FourCan(c: Cache, e1: Event, e2: Event, e3: Event, e4: Event, obs: seq<Obs>, d: Cache) {
    && Enabled(c, e1) && Observe(c, e1) == [] && Enabled(Step(c, e1), e2) && Observe(Step(c, e1), e2) == []
    && var c2 := Step(Step(c, e1), e2);
       && Enabled(c2, e3) && Observe(c2, e3) == [] && Enabled(Step(c2, e3), e4)
       && Observe(Step(c2, e3), e4) == obs && d == Step(Step(c2, e3), e4)
  }

  lemma FourRun(c: Cache, e1: Event, e2: Event, e3: Event, e4: Event, obs: seq<Obs>, d: Cache, e5: Event,
                obs': seq<Obs>)
    requires FourCan(c, e1, e2, e3, e4, obs, d) && Enabled(d, e5) && Observe(d, e5) == obs'
    ensures CanRun(c, [e1] + ([e2] + ([e3] + ([e4] + ([e5] + [])))))
    ensures Trace(c, [e1] + ([e2] + ([e3] + ([e4] + ([e5] + []))))) == obs + obs'
  {
    var c1 := Step(c, e1);
    var c2 := Step(c1, e2);
    var c3 := Step(c2, e3);
    FirstRuns(d, e5, []);
    FirstRuns(c3, e4, [e5] + []);
    FirstRuns(c2, e3, [e4] + ([e5] + []));
    FirstRuns(c1, e2, [e3] + ([e4] + ([e5] + [])));
    FirstRuns(c, e1, [e2] + ([e3] + ([e4] + ([e5] + []))));
  }

  /** Recycling the block and reading the other one into it. */
  lemma RecycleReads(c: Cache, w: Act, v: Ref, s: SessionRef, lba: nat, a: Act, newRef: Ref) returns (d: Cache)
    requires AboutToRecycle(c, w, v, s, lba) && a !in c.acts && newRef !in c.blocks
    ensures var k := Key(c.sessions[s].sessionId, lba);
            && FourCan(c, EvMap(a, s, lba, ReadOnly, newRef), EvStartIo(a, true), EvIoDone(s, EOK, c.blockSize, []),
                       EvFinish(a, false), [Got(k, c.disk[k])], d)
            && w in d.acts && d.acts[w] == c.acts[w] && d.sessions.Keys == c.sessions.Keys
            && v in d.blocks && d.blocks[v].hasData && !d.blocks[v].exclusive && d.blocks[v].data == c.disk[k]
  {
    var k := Key(c.sessions[s].sessionId, lba);
    FreeOperation(c, s);
    VictimReusable(c);
    VacantBlock(c, k, newRef);
    var g := GetBlock(c, k, newRef).value.0;
    assert GetBlock(c, k, newRef) == Some((g, v));
    var b := g.blocks[v];
    var b1 := b.(exclusive := true);
    var b2 := b1.(op := Read, isAsync := false, readError := EOK);
    var b3 := b2.(op := Idle, readError := EOK, hasData := true, data := g.disk[k]);
    OtherMaps(c, map[], a, s, lba, newRef, g, v, b);
    OtherStarts(g, map[], a, s, v, k, b1);
    OtherArrives(g, map[], a, s, v, k, b2);
    OtherReturns(g, map[], a, s, v, k, b3, w);
    d := Step(With(g, a, Call(s, v, k, MapReading(ReadOnly), HeldExclusive), v, b3), EvFinish(a, false));
  }

  lemma WaiterWakes(c: Cache, e1: Event, e2: Event, e3: Event, e4: Event, o: Obs, d: Cache, w: Act, s: SessionRef,
                    v: Ref, k: Key)
    requires FourCan(c, e1, e2, e3, e4, [o], d) && w in d.acts && s in d.sessions && v in d.blocks
    requires d.acts[w] == Call(s, v, k, MapWait(ReadOnly, Shared), NotHeld)
    requires d.blocks[v].hasData && !d.blocks[v].exclusive
    ensures CanRun(c, [e1] + ([e2] + ([e3] + ([e4] + ([EvLock(w)] + [])))))
    ensures Trace(c, [e1] + ([e2] + ([e3] + ([e4] + ([EvLock(w)] + []))))) == [o, Got(k, d.blocks[v].data)]
  {
    HitLocks(d, w, s, v, k);
    FourRun(c, e1, e2, e3, e4, [o], d, EvLock(w), [Got(k, d.blocks[v].data)]);
  }

  /** The waiter asked for one block and is handed the bytes of another one. */
  lemma WaiterGetsOther(c: Cache, w: Act, v: Ref, s: SessionRef, lba: nat, a: Act, newRef: Ref)
    requires AboutToRecycle(c, w, v, s, lba) && a !in c.acts && newRef !in c.blocks
    ensures var k, es := Key(c.sessions[s].sessionId, lba), RecycleRun(a, s, lba, newRef, c.blockSize, w);
            CanRun(c, es) && Trace(c, es) == [Got(k, c.disk[k]), Got(c.blocks[v].key, c.disk[k])]
  {
    var k := Key(c.sessions[s].sessionId, lba);
    Waiter(c, w, v, s, lba);
    var d := RecycleReads(c, w, v, s, lba, a, newRef);
    WaiterWakes(c, EvMap(a, s, lba, ReadOnly, newRef), EvStartIo(a, true), EvIoDone(s, EOK, c.blockSize, []),
                EvFinish(a, false), Got(k, c.disk[k]), d, w, c.acts[w].s, v, c.blocks[v].key);
  }

  // ---------------------------------------------------------------------------------------
  // It happens: a cache of one block, and a client that leaves while another one waits

  /** A run by the rules from `c` to `d` that shows `obs`. */
  ghost predicate Leads(c: Cache, store: Plain, es: seq<Event>, obs: seq<Obs>, d: Cache) {
    Delivers(c, store, es, obs) && EndOf(c, es) == d
  }

  lemma FirstLeads(c: Cache, store: Plain, e: Event, o: seq<Obs>, es: seq<Event>, obs: seq<Obs>, d: Cache)
    requires Shows(c, store, e, o) && Leads(Step(c, e), PlainAfter(store, e, c), es, obs, d)
    ensures Leads(c, store, [e] + es, o + obs, d)
  {
    FirstStep(c, store, e, es, o, obs);
    FirstRuns(c, e, es);
  }

  lemma TwoLead(c: Cache, store: Plain, e1: Event, e2: Event, c2: Cache, es: seq<Event>, obs: seq<Obs>, d: Cache)
    requires TwoSteps(c, store, e1, e2, c2) && Leads(c2, store, es, obs, d)
    ensures Leads(c, store, [e1] + ([e2] + es), obs, d)
  {
    Quiet(c, store, e1);
    Quiet(Step(c, e1), store, e2);
    FirstLeads(Step(c, e1), store, e2, [], es, obs, d);
    FirstLeads(c, store, e1, [], [e2] + es, obs, d);
  }

  /** What the steps of one call leave alone. */
  ghost predicate SameMedium(c: Cache, d: Cache, s: SessionRef) {
    && d.disk == c.disk && d.blockCapacity == c.blockCapacity
    && s in c.sessions && s in d.sessions && d.sessions[s].sessionId == c.sessions[s].sessionId
  }

  /** A client maps a missing block for an update, and its read is submitted. */
  lemma HolderReads(c: Cache, store: Plain, a: Act, s: SessionRef, lba: nat, newRef: Ref)
    returns (d: Cache, r: Ref, b: DiskBlock)
    requires Misses(c, a, s, lba, newRef) && c.acts == map[]
    ensures TwoSteps(c, store, EvMap(a, s, lba, Update, newRef), EvStartIo(a, true), d)
    ensures var k := Key(c.sessions[s].sessionId, lba);
            && Spot(d, a, Call(s, r, k, MapReading(Update), HeldExclusive), b, 0, [DiskOp(Read, r)], c.disk[k])
            && b.exclusive && b.op == Read && !b.isAsync && !b.isDirty && !b.isPinned && b.shareCount == 0
    ensures SameMedium(c, d, s) && d.acts.Keys == {a} && d.blockSize == c.blockSize
  {
    var k := Key(c.sessions[s].sessionId, lba);
    FreeOperation(c, s);
    var b0;
    r, b0 := Maps(c, store, a, s, lba, Update, newRef);
    var c1 := Step(c, EvMap(a, s, lba, Update, newRef));
    Starts(c1, store, a, s, r, k, Update, b0.(exclusive := true), 1, c.disk[k]);
    b := b0.(exclusive := true, op := Read, isAsync := false, readError := EOK);
    d := Step(c1, EvStartIo(a, true));
  }

  /** The client has the block mapped, and has not changed it. */
  ghost predicate Holds(c: Cache, a: Act, s: SessionRef, r: Ref, k: Key, b: DiskBlock, data: Bytes) {
    && Spot(c, a, Call(s, r, k, Mapped(Update), HeldExclusive), b, 1, [], data) && c.acts.Keys == {a}
    && b.exclusive && b.hasData && !b.isDirty && !b.isPinned && b.shareCount == 0
  }

  lemma HolderGets(c: Cache, store: Plain, a: Act, s: SessionRef, r: Ref, k: Key, b: DiskBlock, data: Bytes)
    returns (c1: Cache, d: Cache, b': DiskBlock)
    requires Spot(c, a, Call(s, r, k, MapReading(Update), HeldExclusive), b, 0, [DiskOp(Read, r)], data)
    requires b.exclusive && b.op == Read && !b.isAsync && !b.isDirty && !b.isPinned && b.shareCount == 0
    requires c.acts.Keys == {a}
    ensures var e := EvIoDone(s, EOK, c.blockSize, []); Shows(c, store, e, []) && c1 == Step(c, e)
    ensures var e := EvFinish(a, false); Shows(c1, store, e, [Got(k, data)]) && d == Step(c1, e)
    ensures Holds(d, a, s, r, k, b', data) && SameMedium(c, d, s)
  {
    Arrives(c, store, a, s, r, k, Update, b, 0, data);
    c1 := Step(c, EvIoDone(s, EOK, c.blockSize, []));
    b' := b.(hasData := true, readError := EOK, data := data, op := Idle);
    Returns(c1, store, a, s, r, k, Update, b', 1, data);
    d := Step(c1, EvFinish(a, false));
  }

  /** Call `w` waits to read block `r`, and nobody uses the block. */
  ghost predicate Left(c: Cache, w: Act, s: SessionRef, r: Ref, k: Key) {
    && c.acts.Keys == {w} && c.acts[w] == Call(s, r, k, MapWait(ReadOnly, Shared), NotHeld)
    && r in c.blocks && c.blocks[r].key == k && Reusable(c.blocks[r]) && IsOpen(c, s) && c.sessions[s].dopsInUse == []
  }

  lemma WaiterWaits(c: Cache, store: Plain, a: Act, s: SessionRef, r: Ref, lba: nat, b: DiskBlock, data: Bytes, w: Act,
                    newRef: Ref)
    requires s in c.sessions && Holds(c, a, s, r, Key(c.sessions[s].sessionId, lba), b, data)
    requires Find(c, Key(c.sessions[s].sessionId, lba)) == Some(r) && w != a && newRef !in c.blocks
    ensures var e := EvMap(w, s, lba, ReadOnly, newRef);
            && Shows(c, store, e, [])
            && var d, k := Step(c, e), Key(c.sessions[s].sessionId, lba);
               && d.acts == c.acts[w := Call(s, r, k, MapWait(ReadOnly, Shared), NotHeld)]
               && d.blocks == c.blocks && d.sessions == c.sessions && SameMedium(c, d, s)
  {
    HitFinds(c, w, s, lba, newRef, r);
    assert !CanLockForMap(Map(c, w, s, lba, ReadOnly, newRef), w);
  }

  lemma HolderLeaves(c: Cache, store: Plain, a: Act, s: SessionRef, r: Ref, k: Key, w: Act)
    requires a != w && c.acts.Keys == {a, w} && c.acts[w] == Call(s, r, k, MapWait(ReadOnly, Shared), NotHeld)
    requires c.acts[a] == Call(s, r, k, Mapped(Update), HeldExclusive) && r in c.blocks && c.blocks[r].key == k
    requires c.blocks[r].exclusive && !c.blocks[r].isDirty && !c.blocks[r].isPinned && c.blocks[r].shareCount == 0
    requires IsOpen(c, s) && c.sessions[s].dopsInUse == []
    ensures var e := EvUnmap(a, NoWrite);
            Shows(c, store, e, []) && Left(Step(c, e), w, s, r, k) && SameMedium(c, Step(c, e), s)
  {
    assert c.acts.Keys - {a} == {w};
  }

  lemma WaiterIsLeft(c: Cache, store: Plain, a: Act, s: SessionRef, r: Ref, lba: nat, b: DiskBlock, data: Bytes,
                     w: Act, newRef: Ref)
    returns (d: Cache)
    requires Inv(c) && s in c.sessions && Holds(c, a, s, r, Key(c.sessions[s].sessionId, lba), b, data)
    requires w != a && newRef !in c.blocks
    ensures TwoSteps(c, store, EvMap(w, s, lba, ReadOnly, newRef), EvUnmap(a, NoWrite), d)
    ensures Left(d, w, s, r, Key(c.sessions[s].sessionId, lba)) && SameMedium(c, d, s)
  {
    var k := Key(c.sessions[s].sessionId, lba);
    FindCorrect(c, k);
    WaiterWaits(c, store, a, s, r, lba, b, data, w, newRef);
    var c1 := Step(c, EvMap(w, s, lba, ReadOnly, newRef));
    HolderLeaves(c1, store, a, s, r, k, w);
    d := Step(c1, EvUnmap(a, NoWrite));
  }

  lemma OneMember(S: set<Ref>, r: Ref)
    requires r in S && |S| <= 1
    ensures S == {r}
  {
    assert |S - {r}| == 0;
  }

  /** In a cache of one block every other address recycles that block. */
  lemma OnlyBlock(c: Cache, w: Act, s: SessionRef, r: Ref, k: Key, lba: nat)
    requires Inv(c) && Left(c, w, s, r, k) && c.blockCapacity == 1 && k != Key(c.sessions[s].sessionId, lba)
    requires Key(c.sessions[s].sessionId, lba) in c.disk
    ensures AboutToRecycle(c, w, r, s, lba)
  {
    OneMember(c.blocks.Keys, r);
    FindCorrect(c, Key(c.sessions[s].sessionId, lba));
    ReusableIsFound(c, r);
    VictimReusable(c);
  }

  lemma SixLead(c: Cache, store: Plain, e1: Event, e2: Event, c2: Cache, e3: Event, c3: Cache, e4: Event, c4: Cache,
                e5: Event, e6: Event, d: Cache, o: Obs)
    requires TwoSteps(c, store, e1, e2, c2) && Shows(c2, store, e3, []) && c3 == Step(c2, e3)
    requires Shows(c3, store, e4, [o]) && o.Got? && c4 == Step(c3, e4) && TwoSteps(c4, store, e5, e6, d)
    ensures Leads(c, store, [e1] + ([e2] + ([e3] + ([e4] + ([e5] + ([e6] + []))))), [o], d)
  {
    NoSteps(d, store);
    TwoLead(c4, store, e5, e6, d, [], [], d);
    StepObserved(c3, store, e4);
    FirstLeads(c3, store, e4, [o], [e5] + ([e6] + []), [], d);
    Quiet(c2, store, e3);
    FirstLeads(c2, store, e3, [], [e4] + ([e5] + ([e6] + [])), [o], d);
    TwoLead(c, store, e1, e2, c2, [e3] + ([e4] + ([e5] + ([e6] + []))), [o], d);
  }

  lemma FourKeep(c: Cache, store: Plain, e1: Event, e2: Event, c2: Cache, e3: Event, c3: Cache, e4: Event, c4: Cache)
    requires Inv(c) && TwoSteps(c, store, e1, e2, c2) && Enabled(c2, e3) && Fair(c2, e3) && c3 == Step(c2, e3)
    requires Enabled(c3, e4) && Fair(c3, e4) && c4 == Step(c3, e4)
    ensures Inv(c4)
  {
    TwoKeepInv(c, store, e1, e2, c2);
    StepKeepsInv(c2, e3);
    StepKeepsInv(c3, e4);
  }

  lemma HolderRun(c: Cache, store: Plain, lba: nat) returns (c2: Cache, c3: Cache, c4: Cache, r: Ref, b: DiskBlock)
    requires Misses(c, 0, 0, lba, 0) && c.acts == map[]
    ensures TwoSteps(c, store, EvMap(0, 0, lba, Update, 0), EvStartIo(0, true), c2)
    ensures var e := EvIoDone(0, EOK, c.blockSize, []); Shows(c2, store, e, []) && c3 == Step(c2, e)
    ensures var k, e := Key(c.sessions[0].sessionId, lba), EvFinish(0, false);
            && Shows(c3, store, e, [Got(k, c.disk[k])]) && c4 == Step(c3, e)
            && Holds(c4, 0, 0, r, k, b, c.disk[k])
    ensures SameMedium(c, c4, 0)
  {
    var k := Key(c.sessions[0].sessionId, lba);
    var b2;
    c2, r, b2 := HolderReads(c, store, 0, 0, lba, 0);
    c3, c4, b := HolderGets(c2, store, 0, 0, r, k, b2, c.disk[k]);
  }

  /** A client maps a block, another one waits for it, and the first one leaves. */
  lemma WaiterRun(c: Cache, store: Plain, lba: nat) returns (es: seq<Event>, d: Cache, r: Ref)
    requires Misses(c, 0, 0, lba, 0) && c.acts == map[]
    ensures var k := Key(c.sessions[0].sessionId, lba);
            Leads(c, store, es, [Got(k, c.disk[k])], d) && Left(d, 1, 0, r, k)
    ensures Inv(d) && SameMedium(c, d, 0)
  {
    var k := Key(c.sessions[0].sessionId, lba);
    var e1, e2 := EvMap(0, 0, lba, Update, 0), EvStartIo(0, true);
    var e3, e4 := EvIoDone(0, EOK, c.blockSize, []), EvFinish(0, false);
    var c2, c3, c4, b, e5, e6;
    c2, c3, c4, r, b := HolderRun(c, store, lba);
    FourKeep(c, store, e1, e2, c2, e3, c3, e4, c4);
    e5, e6, d := WaiterEnd(c4, store, r, lba, b, c.disk[k]);
    es := [e1] + ([e2] + ([e3] + ([e4] + ([e5] + ([e6] + [])))));
    SixLead(c, store, e1, e2, c2, e3, c3, e4, c4, e5, e6, d, Got(k, c.disk[k]));
  }

  lemma WaiterEnd(c: Cache, store: Plain, r: Ref, lba: nat, b: DiskBlock, data: Bytes)
    returns (e1: Event, e2: Event, d: Cache)
    requires Inv(c) && 0 in c.sessions && Holds(c, 0, 0, r, Key(c.sessions[0].sessionId, lba), b, data)
    ensures TwoSteps(c, store, e1, e2, d) && Inv(d)
    ensures Left(d, 1, 0, r, Key(c.sessions[0].sessionId, lba)) && SameMedium(c, d, 0)
  {
    var newRef := FreshAct(c.blocks.Keys);
    e1, e2 := EvMap(1, 0, lba, ReadOnly, newRef), EvUnmap(0, NoWrite);
    d := WaiterIsLeft(c, store, 0, 0, r, lba, b, data, 1, newRef);
    TwoKeepInv(c, store, e1, e2, d);
  }

  lemma WrongRead(obs: seq<Obs>, k: Key, data: Bytes)
    requires LastWritten(obs, k) != Some(data)
    ensures !ReadsLastWritten(obs + [Got(k, data)])
  {
    var all := obs + [Got(k, data)];
    assert all[..|obs|] == obs && all[|obs|] == Got(k, data);
  }

  lemma ReadingWritesNothing(obs: seq<Obs>, k: Key, data: Bytes, k': Key)
    ensures LastWritten(obs + [Got(k, data)], k') == LastWritten(obs, k')
  {
    assert (obs + [Got(k, data)])[..|obs|] == obs;
  }

  lemma MixedReads(content: map<nat, Bytes>, lba: nat, lba': nat)
    requires lba in content && lba' in content && content[lba] != content[lba']
    ensures var k, k' := Key(1, lba), Key(1, lba');
            !ReadsLastWritten([Media(1, content), Got(k, content[lba])] + [Got(k', content[lba']),
                                                                           Got(k, content[lba'])])
  {
    var k, k', start := Key(1, lba), Key(1, lba'), [Media(1, content)];
    var obs := start + [Got(k, content[lba])] + [Got(k', content[lba'])];
    ReadingWritesNothing(start, k, content[lba], k);
    ReadingWritesNothing(start + [Got(k, content[lba])], k', content[lba'], k);
    WrongRead(obs, k, content[lba']);
    assert obs + [Got(k, content[lba'])]
        == [Media(1, content), Got(k, content[lba])] + [Got(k', content[lba']), Got(k, content[lba'])];
  }

  /** A new cache of one block, and a medium. */
  ghost predicate JustOpened(c: Cache, content: map<nat, Bytes>, lba: nat, lba': nat) {
    && Misses(c, 0, 0, lba, 0) && c.acts == map[] && c.blockCapacity == 1 && c.sessions[0].sessionId == 1
    && lba in content && c.disk[Key(1, lba)] == content[lba]
    && lba' in content && Key(1, lba') in c.disk && c.disk[Key(1, lba')] == content[lba']
  }

  lemma MixOpens(blockSize: nat, content: map<nat, Bytes>, lba: nat, lba': nat) returns (c: Cache)
    requires lba in content && lba' in content
    ensures var c0, e := Init(blockSize, 1), EvOpen(0, content);
            Shows(c0, map[], e, [Media(1, content)]) && c == Step(c0, e) && JustOpened(c, content, lba, lba')
  {
    Opens(blockSize, 1, content, 0, 0, lba, 0);
    MediaKeysAt(1, content, Key(1, lba'));
    c := Open(Init(blockSize, 1), 0, content);
  }

  /** The only block of the cache is left with a waiter. */
  ghost predicate Stuck(c: Cache, r: Ref, lba: nat, lba': nat, data: Bytes) {
    && Inv(c) && Left(c, 1, 0, r, Key(1, lba)) && c.blockCapacity == 1 && c.sessions[0].sessionId == 1
    && Key(1, lba') in c.disk && c.disk[Key(1, lba')] == data
  }

  lemma MixWaits(c: Cache, store: Plain, content: map<nat, Bytes>, lba: nat, lba': nat)
    returns (es: seq<Event>, d: Cache, r: Ref)
    requires JustOpened(c, content, lba, lba')
    ensures Leads(c, store, es, [Got(Key(1, lba), content[lba])], d) && Stuck(d, r, lba, lba', content[lba'])
  {
    es, d, r := WaiterRun(c, store, lba);
  }

  /** The other block is mapped, and the waiter wakes up. */
  lemma MixEnds(c: Cache, r: Ref, lba: nat, lba': nat, data: Bytes) returns (es: seq<Event>)
    requires Stuck(c, r, lba, lba', data) && lba != lba'
    ensures CanRun(c, es) && Trace(c, es) == [Got(Key(1, lba'), data), Got(Key(1, lba), data)]
  {
    OnlyBlock(c, 1, 0, r, Key(1, lba), lba');
    var newRef := FreshAct(c.blocks.Keys);
    WaiterGetsOther(c, 1, r, 0, lba', 0, newRef);
    es := RecycleRun(0, 0, lba', newRef, c.blockSize, 1);
  }

  lemma MixShows(c: Cache, e: Event, es: seq<Event>, o: Obs, o': Obs, d: Cache, fs: seq<Event>, obs: seq<Obs>)
    requires Shows(c, map[], e, [o]) && Leads(Step(c, e), PlainAfter(map[], e, c), es, [o'], d)
    requires CanRun(d, fs) && Trace(d, fs) == obs
    ensures Reaches(c, map[], [e] + es, d) && Trace(c, [e] + es) + Trace(d, fs) == [o, o'] + obs
  {
    FirstLeads(c, map[], e, [o], es, [o'], d);
  }

  /**
   On every medium with two blocks that differ there is a run by the rules from a new cache after which, once a
   block is recycled under the call that waits for it, a client that maps one block is handed the other one's bytes.
   */
  lemma RecyclingMixesBlocks(blockSize: nat, content: map<nat, Bytes>, lba: nat, lba': nat)
    returns (es: seq<Event>, c: Cache, fs: seq<Event>)
    requires lba in content && lba' in content && content[lba] != content[lba']
    ensures Reaches(Init(blockSize, 1), map[], es, c)
    ensures CanRun(c, fs) && Trace(c, fs) == [Got(Key(1, lba'), content[lba']), Got(Key(1, lba), content[lba'])]
    ensures !ReadsLastWritten(Trace(Init(blockSize, 1), es) + Trace(c, fs))
  {
    var c0, e := Init(blockSize, 1), EvOpen(0, content);
    var c1 := MixOpens(blockSize, content, lba, lba');
    var rest, r;
    rest, c, r := MixWaits(c1, PlainAfter(map[], e, c0), content, lba, lba');
    es := [e] + rest;
    fs := MixEnds(c, r, lba, lba', content[lba']);
    MixShows(c0, e, rest, Media(1, content), Got(Key(1, lba), content[lba]), c, fs, Trace(c, fs));
    MixedReads(content, lba, lba');
  }
}
