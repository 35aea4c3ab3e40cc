/** What clients get to see of a write that did not reach the disk. */
module DiskCacheLoss {
  import opened DiskCacheModel
  import opened DiskCacheInvariant
  import opened DiskCacheSteps
  import opened DiskCacheRefinement
  import opened DiskCacheRuns
  import opened DiskCacheTokens
  import opened Errors
  import opened Memory
  import opened Options

  // ---------------------------------------------------------------------------------------
  // A block that goes out of the cache is read from the disk again

  ghost predicate NoWaiters(c: Cache) {
    forall a :: a in c.acts ==> !c.acts[a].phase.MapWait?
  }

  /** Session `s` addresses block `k` of a medium that holds `data` there. */
  ghost predicate OnMedium(c: Cache, s: SessionRef, k: Key, data: Bytes) {
    Inv(c) && IsOpen(c, s) && c.sessions[s].sessionId == k.sid && k in c.disk && c.disk[k] == data
  }

  lemma ReusableIsFound(c: Cache, q: Ref)
    requires IndexInv(c) && q in c.blocks && Reusable(c.blocks[q])
    ensures Victim(c.lru, c.blocks).Some?
  {
    forall i | 0 <= i < |c.lru| ensures c.lru[i] in c.blocks { ListsMember(c.lru, c.blocks.Keys, c.lru[i]); }
    VictimIsLeastRecentlyUsed(c.lru, c.blocks);
    CachedIsListed(c, q);
  }

  /** A call on a block that is not cached can start as long as some block is reusable. */
  lemma CanMapMissing(c: Cache, a: Act, s: SessionRef, lba: nat, newRef: Ref, q: Ref)
    requires Inv(c) && NoWaiters(c) && IsOpen(c, s) && a !in c.acts && newRef !in c.blocks
    requires q in c.blocks && Reusable(c.blocks[q]) && Find(c, Key(c.sessions[s].sessionId, lba)).None?
    ensures CanMap(c, a, s, lba, newRef) && Fair(c, EvMap(a, s, lba, ReadOnly, newRef))
  {
    ReusableIsFound(c, q);
    VictimReusable(c);
    VacantBlock(c, Key(c.sessions[s].sessionId, lba), newRef);
  }

  lemma ReadAgain(c: Cache, store: Plain, s: SessionRef, k: Key, data: Bytes, q: Ref) returns (es: seq<Event>)
    requires OnMedium(c, s, k, data) && NoWaiters(c) && c.sessions[s].dopsInUse == []
    requires q in c.blocks && Reusable(c.blocks[q]) && Find(c, k).None?
    ensures Delivers(c, store, es, [Got(k, data)])
  {
    var a := FreshAct(c.acts.Keys);
    var newRef := FreshAct(c.blocks.Keys);
    assert Key(c.sessions[s].sessionId, k.lba) == k;
    CanMapMissing(c, a, s, k.lba, newRef, q);
    MissDelivers(c, store, a, s, k.lba, newRef);
    es := ReadIn(a, s, k.lba, newRef, c.blockSize);
  }

  // ---------------------------------------------------------------------------------------
  // Using other blocks pushes a block out

  /** How many blocks were used less recently than `r`. */
  function Behind(lru: seq<Ref>, r: Ref): nat {
    if lru == [] || lru[|lru| - 1] == r then 0 else 1 + Behind(lru[..|lru| - 1], r)
  }

  lemma {:induction false} WithoutLast(s: seq<Ref>, x: Ref, v: Ref)
    ensures v in s ==> Without(s + [x], v) == Without(s, v) + [x]
    ensures v !in s && x == v ==> Without(s + [x], v) == s
  {
    if s == [] {
      assert s + [x] == [x] && [x][1..] == s;
    } else {
      assert (s + [x])[1..] == s[1..] + [x];
      if s[0] != v { WithoutLast(s[1..], x, v); }
      assert s == [s[0]] + s[1..];
    }
  }

  lemma {:induction false} BehindFront(v: Ref, s: seq<Ref>, r: Ref)
    requires r in s
    ensures Behind([v] + s, r) == Behind(s, r)
  {
    var n := |s| - 1;
    assert ([v] + s)[|s|] == s[n];
    if s[n] != r {
      assert s == s[..n] + [s[n]];
      assert ([v] + s)[..|s|] == [v] + s[..n];
      BehindFront(v, s[..n], r);
    }
  }

  /** The block that is recycled instead of a reusable `r` was used less recently. */
  lemma {:induction false} VictimBehind(lru: seq<Ref>, blocks: map<Ref, DiskBlock>, r: Ref, v: Ref)
    requires NoDup(lru) && r in lru && r in blocks && Reusable(blocks[r]) && Victim(lru, blocks) == Some(v) && v != r
    ensures v in lru && r in Without(lru, v) && Behind(Without(lru, v), r) + 1 == Behind(lru, r)
  {
    var n := |lru| - 1;
    var x, front := lru[n], lru[..n];
    assert lru == front + [x];
    if x == v {
      assert v !in front;
      WithoutLast(front, x, v);
    } else {
      VictimBehind(front, blocks, r, v);
      WithoutLast(front, x, v);
      assert (Without(front, v) + [x])[..|Without(front, v)|] == Without(front, v);
    }
  }

  /** The block `r` with the bytes of `k` can be recycled at any time. */
  ghost predicate Evictable(c: Cache, s: SessionRef, r: Ref, k: Key, data: Bytes) {
    && OnMedium(c, s, k, data) && NoWaiters(c) && c.sessions[s].dopsInUse == []
    && r in c.blocks && c.blocks[r].key == k && Reusable(c.blocks[r])
  }

  ghost function Distance(c: Cache, r: Ref): int {
    c.blockCapacity - c.blockCount + Behind(c.lru, r)
  }

  /** A call that waits for a lock is given up. */
  lemma GivesUp(c: Cache, store: Plain, a: Act)
    requires CanGiveUp(c, a)
    ensures Shows(c, store, EvGiveUp(a), []) && Step(c, EvGiveUp(a)) == EndAct(c, a)
  {
  }

  // A call on another block, which is read in vain.

  /** The cache `g` with a call `a` on block `r`. */
  function With(g: Cache, a: Act, x: Activity, r: Ref, b: DiskBlock): Cache {
    SetAct(SetBlock(g, r, b), a, x)
  }

  lemma OtherMaps(c: Cache, store: Plain, a: Act, s: SessionRef, lba: nat, newRef: Ref, g: Cache, r: Ref, b: DiskBlock)
    requires CanMap(c, a, s, lba, newRef)
    requires GetBlock(c, Key(c.sessions[s].sessionId, lba), newRef) == Some((g, r)) && g.sessions == c.sessions
    requires r in g.blocks && g.blocks[r] == b && !InUse(b) && !b.hasData
    ensures var e, x := EvMap(a, s, lba, ReadOnly, newRef),
                        Call(s, r, Key(c.sessions[s].sessionId, lba), MapNeedsRead(ReadOnly), HeldExclusive);
            && Observe(c, e) == [] && Honest(c, store, e)
            && Step(c, e) == With(g, a, x, r, b.(exclusive := true))
  {
    var k := Key(c.sessions[s].sessionId, lba);
    var d := Map(c, a, s, lba, ReadOnly, newRef);
    assert d == SetAct(g, a, Call(s, r, k, MapWait(ReadOnly, Exclusive), NotHeld));
    OtherLocks(g, a, s, r, k, b);
  }

  lemma OtherLocks(g: Cache, a: Act, s: SessionRef, r: Ref, k: Key, b: DiskBlock)
    requires r in g.blocks && g.blocks[r] == b && !InUse(b) && !b.hasData && s in g.sessions
    ensures var d := SetAct(g, a, Call(s, r, k, MapWait(ReadOnly, Exclusive), NotHeld));
            && CanLockForMap(d, a)
            && LockForMap(d, a) == With(g, a, Call(s, r, k, MapNeedsRead(ReadOnly), HeldExclusive), r,
                                        b.(exclusive := true))
  {
  }

  /** The session's disk operation is under way. */
  function Busy(g: Cache, s: SessionRef, r: Ref): map<SessionRef, Session>
    requires s in g.sessions
  {
    g.sessions[s := g.sessions[s].(dopsCache := 0, dopsInUse := [DiskOp(Read, r)])]
  }

  lemma OtherStarts(g: Cache, store: Plain, a: Act, s: SessionRef, r: Ref, k: Key, b: DiskBlock)
    requires s in g.sessions && g.sessions[s].dopsCache == 1 && g.sessions[s].dopsInUse == [] && b.exclusive
    ensures var c := With(g, a, Call(s, r, k, MapNeedsRead(ReadOnly), HeldExclusive), r, b);
            var b1 := b.(op := Read, isAsync := false, readError := EOK);
            && Shows(c, store, EvStartIo(a, true), [])
            && Step(c, EvStartIo(a, true)) ==
               With(g, a, Call(s, r, k, MapReading(ReadOnly), HeldExclusive), r, b1).(sessions := Busy(g, s, r))
  {
    var c := With(g, a, Call(s, r, k, MapNeedsRead(ReadOnly), HeldExclusive), r, b);
    var b1 := b.(op := Read, isAsync := false, readError := EOK);
    assert [DiskOp(Read, r)] + g.sessions[s].dopsInUse == [DiskOp(Read, r)];
    assert c.blocks[r := b1] == g.blocks[r := b1];
  }

  lemma OtherFails(g: Cache, store: Plain, a: Act, s: SessionRef, r: Ref, k: Key, b: DiskBlock, junk: Bytes)
    requires s in g.sessions && g.sessions[s].dopsCache == 1 && g.sessions[s].dopsInUse == [] && !b.isAsync
    ensures var x := Call(s, r, k, MapReading(ReadOnly), HeldExclusive);
            var c, e := With(g, a, x, r, b).(sessions := Busy(g, s, r)), EvIoDone(s, EIO, 0, junk);
            Shows(c, store, e, []) && Step(c, e) == With(g, a, x, r, b.(op := Idle, readError := EIO, data := junk))
  {
    var x := Call(s, r, k, MapReading(ReadOnly), HeldExclusive);
    var c, e := With(g, a, x, r, b).(sessions := Busy(g, s, r)), EvIoDone(s, EIO, 0, junk);
    var b1 := b.(op := Idle, readError := EIO, data := junk);
    assert c.blocks[r := b1] == g.blocks[r := b1];
    assert [DiskOp(Read, r)][1..] == g.sessions[s].dopsInUse;
    assert Step(c, e).sessions == g.sessions;
  }

  lemma OtherEnds(g: Cache, store: Plain, a: Act, s: SessionRef, r: Ref, k: Key, b: DiskBlock)
    requires s in g.sessions && a !in g.acts && b.exclusive && b.shareCount == 0 && b.op == Idle && b.readError == EIO
    ensures var c := With(g, a, Call(s, r, k, MapReading(ReadOnly), HeldExclusive), r, b);
            && Shows(c, store, EvFinish(a, false), [])
            && Step(c, EvFinish(a, false)) == SetBlock(g, r, b.(exclusive := false))
  {
    var c := With(g, a, Call(s, r, k, MapReading(ReadOnly), HeldExclusive), r, b);
    var d := Step(c, EvFinish(a, false));
    assert d.acts == g.acts;
    assert d.blocks == g.blocks[r := b.(exclusive := false)];
  }

  /** The block after the read that failed. */
  function InVain(b: DiskBlock, junk: Bytes): DiskBlock {
    b.(op := Idle, isAsync := false, readError := EIO, data := junk)
  }

  function UseRun(a: Act, s: SessionRef, lba: nat, newRef: Ref, junk: Bytes, es: seq<Event>): seq<Event> {
    [EvMap(a, s, lba, ReadOnly, newRef)] + ([EvStartIo(a, true)] +
      ([EvIoDone(s, EIO, 0, junk)] + ([EvFinish(a, false)] + es)))
  }

  ghost predicate FourSteps(c: Cache, store: Plain, e1: Event, e2: Event, e3: Event, e4: Event, d: Cache) {
    && Shows(c, store, e1, []) && Shows(Step(c, e1), store, e2, []) && Shows(Step(Step(c, e1), e2), store, e3, [])
    && Shows(Step(Step(Step(c, e1), e2), e3), store, e4, []) && d == Step(Step(Step(Step(c, e1), e2), e3), e4)
  }

  /** A call on another block that is not cached: it finds room, reads, fails, and leaves the block idle. */
  lemma UseOther(c: Cache, store: Plain, a: Act, s: SessionRef, lba: nat, newRef: Ref, g: Cache, r: Ref, junk: Bytes)
    requires CanMap(c, a, s, lba, newRef) && Fair(c, EvMap(a, s, lba, ReadOnly, newRef))
    requires c.sessions[s].dopsInUse == [] && c.sessions[s].dopsCache == 1
    requires GetBlock(c, Key(c.sessions[s].sessionId, lba), newRef) == Some((g, r))
    requires g.sessions == c.sessions && g.acts == c.acts && r in g.blocks && !InUse(g.blocks[r])
    requires !g.blocks[r].hasData
    ensures FourSteps(c, store, EvMap(a, s, lba, ReadOnly, newRef), EvStartIo(a, true), EvIoDone(s, EIO, 0, junk),
                      EvFinish(a, false), SetBlock(g, r, InVain(g.blocks[r], junk)))
  {
    var k, b := Key(c.sessions[s].sessionId, lba), g.blocks[r];
    var b1 := b.(exclusive := true);
    var b2 := b1.(op := Read, isAsync := false, readError := EOK);
    OtherMaps(c, store, a, s, lba, newRef, g, r, b);
    OtherStarts(g, store, a, s, r, k, b1);
    OtherFails(g, store, a, s, r, k, b2, junk);
    OtherEnds(g, store, a, s, r, k, b2.(op := Idle, readError := EIO, data := junk));
  }

  lemma FourKeepInv(c: Cache, store: Plain, e1: Event, e2: Event, e3: Event, e4: Event, d: Cache)
    requires Inv(c) && FourSteps(c, store, e1, e2, e3, e4, d)
    ensures Inv(d)
  {
    StepKeepsInv(c, e1);
    StepKeepsInv(Step(c, e1), e2);
    StepKeepsInv(Step(Step(c, e1), e2), e3);
    StepKeepsInv(Step(Step(Step(c, e1), e2), e3), e4);
  }

  lemma FourDeliver(c: Cache, store: Plain, e1: Event, e2: Event, e3: Event, e4: Event, d: Cache, es: seq<Event>,
                    obs: seq<Obs>)
    requires FourSteps(c, store, e1, e2, e3, e4, d) && Delivers(d, store, es, obs)
    ensures Delivers(c, store, [e1] + ([e2] + ([e3] + ([e4] + es))), obs)
  {
    var c1 := Step(c, e1);
    var c2 := Step(c1, e2);
    var c3 := Step(c2, e3);
    Quiet(c, store, e1);
    Quiet(c1, store, e2);
    Quiet(c2, store, e3);
    Quiet(c3, store, e4);
    assert [] + obs == obs;
    FirstStep(c3, store, e4, es, [], obs);
    FirstStep(c2, store, e3, [e4] + es, [], obs);
    FirstStep(c1, store, e2, [e3] + ([e4] + es), [], obs);
    FirstStep(c, store, e1, [e2] + ([e3] + ([e4] + es)), [], obs);
  }

  lemma Quiet(c: Cache, store: Plain, e: Event)
    requires Shows(c, store, e, [])
    ensures PlainAfter(store, e, c) == store
  {
    StepObserved(c, store, e);
  }

  lemma Created(c: Cache, k: Key, newRef: Ref, r: Ref)
    requires IndexInv(c) && newRef !in c.blocks && Find(c, k).None? && c.blockCount < c.blockCapacity && r in c.blocks
    ensures var d := GetBlock(c, k, newRef).value.0; Distance(d, r) < Distance(c, r) && d.blocks[r] == c.blocks[r]
    ensures var d := GetBlock(c, k, newRef).value.0; d.blockCount <= d.blockCapacity
  {
    CachedIsListed(c, r);
    BehindFront(newRef, c.lru, r);
    assert ([newRef] + c.lru)[1..] == c.lru;
  }

  lemma Recycled(c: Cache, k: Key, newRef: Ref, r: Ref, v: Ref)
    requires IndexInv(c) && Find(c, k).None? && c.blockCount >= c.blockCapacity && r in c.blocks && v in c.blocks
    requires Victim(c.lru, c.blocks) == Some(v) && Reusable(c.blocks[v]) && Reusable(c.blocks[r])
    ensures var d := GetBlock(c, k, newRef).value.0;
            if v == r then r in d.blocks && d.blocks[r].key == k && Reusable(d.blocks[r])
            else Distance(d, r) < Distance(c, r) && r in d.blocks && d.blocks[r] == c.blocks[r]
  {
    if v != r {
      CachedIsListed(c, r);
      ListsNoDup(c.lru, c.blocks.Keys);
      VictimBehind(c.lru, c.blocks, r, v);
      BehindFront(v, Without(c.lru, v), r);
      assert ([v] + Without(c.lru, v))[1..] == Without(c.lru, v);
    }
  }

  /** Either `r` was recycled, or it is closer to that. */
  lemma UseOtherPushes(c: Cache, k: Key, newRef: Ref, r: Ref)
    requires Inv(c) && newRef !in c.blocks && Find(c, k).None? && GetBlock(c, k, newRef).Some?
    requires r in c.blocks && Reusable(c.blocks[r])
    ensures var d := GetBlock(c, k, newRef).value.0;
            && r in d.blocks && Reusable(d.blocks[r])
            && (d.blocks[r].key == k || (d.blocks[r] == c.blocks[r] && Distance(d, r) < Distance(c, r)))
  {
    VictimReusable(c);
    if c.blockCount < c.blockCapacity {
      Created(c, k, newRef, r);
    } else {
      Recycled(c, k, newRef, r, Victim(c.lru, c.blocks).value);
    }
  }

  /** A block address that is not cached. */
  lemma FreshLba(c: Cache, sid: nat) returns (lba: nat)
    requires IndexInv(c)
    ensures Find(c, Key(sid, lba)).None?
  {
    lba := FreshAct(set r | r in c.blocks :: c.blocks[r].key.lba);
    FindCorrect(c, Key(sid, lba));
  }

  lemma OtherKey(c: Cache, r: Ref, k: Key, k': Key)
    requires IndexInv(c) && r in c.blocks && c.blocks[r].key == k && Find(c, k').None?
    ensures k != k'
  {
    FindCorrect(c, k');
  }

  lemma OneBlockChanges(c: Cache, k: Key, newRef: Ref)
    requires Inv(c) && newRef !in c.blocks && Find(c, k).None? && GetBlock(c, k, newRef).Some?
    ensures var (d, v) := GetBlock(c, k, newRef).value;
            v in d.blocks && d.blocks[v].key == k && d.blocks == c.blocks[v := d.blocks[v]]
  {
    VacantBlock(c, k, newRef);
  }

  /** Once recycled, the address is not cached any more. */
  lemma GoneAfter(c: Cache, d: Cache, v: Ref, r: Ref, k: Key)
    requires IndexInv(c) && IndexInv(d) && r in c.blocks && c.blocks[r].key == k && r in d.blocks && v in d.blocks
    requires d.blocks == c.blocks[v := d.blocks[v]] && d.blocks[r].key == d.blocks[v].key != k
    ensures Find(d, k).None?
  {
    assert r == v;
    FindCorrect(d, k);
  }

  /** The call on another block, from the point where block `v` was found for it. */
  lemma PushRun(c: Cache, store: Plain, s: SessionRef, q: Ref, a: Act, lba: nat, newRef: Ref, junk: Bytes)
    returns (g: Cache, v: Ref)
    requires Inv(c) && IsOpen(c, s) && NoWaiters(c) && c.sessions[s].dopsInUse == [] && a !in c.acts
    requires newRef !in c.blocks
    requires q in c.blocks && Reusable(c.blocks[q]) && Find(c, Key(c.sessions[s].sessionId, lba)).None?
    ensures GetBlock(c, Key(c.sessions[s].sessionId, lba), newRef) == Some((g, v)) && v in g.blocks
    ensures g.sessions == c.sessions && g.acts == c.acts && g.disk == c.disk
    ensures FourSteps(c, store, EvMap(a, s, lba, ReadOnly, newRef), EvStartIo(a, true), EvIoDone(s, EIO, 0, junk),
                      EvFinish(a, false), SetBlock(g, v, InVain(g.blocks[v], junk)))
  {
    var k := Key(c.sessions[s].sessionId, lba);
    CanMapMissing(c, a, s, lba, newRef, q);
    FreeOperation(c, s);
    VacantBlock(c, k, newRef);
    g := GetBlock(c, k, newRef).value.0;
    v := GetBlock(c, k, newRef).value.1;
    UseOther(c, store, a, s, lba, newRef, g, v, junk);
  }

  /** Nothing that matters for finding and recycling differs. */
  lemma Pushed(c: Cache, g: Cache, d: Cache, v: Ref, r: Ref, k: Key, junk: Bytes)
    requires IndexInv(c) && IndexInv(g) && IndexInv(d) && v in g.blocks
    requires d == SetBlock(g, v, InVain(g.blocks[v], junk))
    requires g.blocks == c.blocks[v := g.blocks[v]] && g.blocks[v].key != k
    requires r in c.blocks && c.blocks[r].key == k && r in g.blocks && Reusable(g.blocks[r])
    requires g.blocks[r].key == g.blocks[v].key || (g.blocks[r] == c.blocks[r] && Distance(g, r) < Distance(c, r))
    ensures r in d.blocks && Reusable(d.blocks[r])
    ensures if d.blocks[r].key == k then Distance(d, r) < Distance(c, r) else Find(d, k).None?
  {
    if d.blocks[r].key != k {
      GoneAfter(c, g, v, r, k);
      SameKeys(g, d, k);
    }
  }

  /** What a call on another block does to `r`: it is recycled, or closer to that. */
  lemma Pushes(c: Cache, store: Plain, s: SessionRef, r: Ref, k: Key, data: Bytes, a: Act, lba: nat, newRef: Ref,
               junk: Bytes)
    returns (d: Cache)
    requires Evictable(c, s, r, k, data) && a !in c.acts && newRef !in c.blocks && Find(c, Key(k.sid, lba)).None?
    ensures FourSteps(c, store, EvMap(a, s, lba, ReadOnly, newRef), EvStartIo(a, true), EvIoDone(s, EIO, 0, junk),
                      EvFinish(a, false), d)
    ensures OnMedium(d, s, k, data) && NoWaiters(d) && d.sessions[s].dopsInUse == []
    ensures r in d.blocks && Reusable(d.blocks[r])
    ensures if d.blocks[r].key == k then Distance(d, r) < Distance(c, r) else Find(d, k).None?
  {
    var k' := Key(k.sid, lba);
    var g, v := PushRun(c, store, s, r, a, lba, newRef, junk);
    d := SetBlock(g, v, InVain(g.blocks[v], junk));
    FourKeepInv(c, store, EvMap(a, s, lba, ReadOnly, newRef), EvStartIo(a, true), EvIoDone(s, EIO, 0, junk),
                EvFinish(a, false), d);
    PushedIndex(c, s, r, k, lba, newRef, g, v);
    Pushed(c, g, d, v, r, k, junk);
  }

  lemma PushedIndex(c: Cache, s: SessionRef, r: Ref, k: Key, lba: nat, newRef: Ref, g: Cache, v: Ref)
    requires Inv(c) && NoWaiters(c) && IsOpen(c, s) && c.sessions[s].sessionId == k.sid && r in c.blocks
    requires c.blocks[r].key == k && Reusable(c.blocks[r]) && newRef !in c.blocks && Find(c, Key(k.sid, lba)).None?
    requires GetBlock(c, Key(k.sid, lba), newRef) == Some((g, v))
    ensures IndexInv(g) && v in g.blocks && g.blocks == c.blocks[v := g.blocks[v]] && g.blocks[v].key != k
    ensures r in g.blocks && Reusable(g.blocks[r])
    ensures g.blocks[r].key == g.blocks[v].key || (g.blocks[r] == c.blocks[r] && Distance(g, r) < Distance(c, r))
  {
    var k' := Key(k.sid, lba);
    assert SessionOk(c, s);
    GetBlockStep(c, k', newRef);
    UseOtherPushes(c, k', newRef, r);
    OtherKey(c, r, k, k');
    OneBlockChanges(c, k', newRef);
  }

  lemma SameKeys(c: Cache, d: Cache, k: Key)
    requires IndexInv(c) && IndexInv(d) && d.blocks.Keys == c.blocks.Keys
    requires forall r :: r in c.blocks ==> d.blocks[r].key == c.blocks[r].key
    ensures Find(c, k).None? ==> Find(d, k).None?
  {
    FindCorrect(c, k);
    FindCorrect(d, k);
  }

  lemma {:induction false} Evicts(c: Cache, store: Plain, s: SessionRef, r: Ref, k: Key, data: Bytes)
    returns (es: seq<Event>)
    requires Evictable(c, s, r, k, data)
    ensures Delivers(c, store, es, [Got(k, data)])
    decreases Distance(c, r)
  {
    var lba := FreshLba(c, k.sid);
    var a := FreshAct(c.acts.Keys);
    var newRef := FreshAct(c.blocks.Keys);
    var junk := Zeros(c.blockSize);
    var d := Pushes(c, store, s, r, k, data, a, lba, newRef, junk);
    var rest;
    if d.blocks[r].key == k {
      rest := Evicts(d, store, s, r, k, data);
    } else {
      rest := ReadAgain(d, store, s, k, data, r);
    }
    FourDeliver(c, store, EvMap(a, s, lba, ReadOnly, newRef), EvStartIo(a, true), EvIoDone(s, EIO, 0, junk),
                EvFinish(a, false), d, rest, [Got(k, data)]);
    es := UseRun(a, s, lba, newRef, junk, rest);
  }

  // ---------------------------------------------------------------------------------------
  // A clean block whose bytes are not those on the disk

  /** The block `r` is the cache's copy of `k`, no write of it is due, and the disk holds `data`. */
  ghost predicate Doomed(c: Cache, s: SessionRef, r: Ref, k: Key, data: Bytes) {
    && OnMedium(c, s, k, data) && r in c.blocks && c.blocks[r].key == k
    && !c.blocks[r].isDirty && c.blocks[r].op == Idle && !c.blocks[r].exclusive
    && (forall a :: a in c.acts && c.acts[a].ref == r ==> c.acts[a].phase.MapWait? || c.acts[a].phase.Mapped?)
  }

  /** What a step must leave alone for the block to stay doomed. */
  ghost predicate LeavesDoomed(c: Cache, d: Cache, s: SessionRef, r: Ref, k: Key) {
    && IsOpen(c, s) && IsOpen(d, s) && d.sessions[s].sessionId == c.sessions[s].sessionId
    && k in c.disk && k in d.disk && d.disk[k] == c.disk[k] && r in c.blocks && r in d.blocks
    && d.blocks[r].key == c.blocks[r].key && !d.blocks[r].isDirty && d.blocks[r].op == Idle && !d.blocks[r].exclusive
    && (forall a :: a in d.acts ==> a in c.acts && d.acts[a] == c.acts[a])
  }

  lemma StaysDoomed(c: Cache, d: Cache, s: SessionRef, r: Ref, k: Key, data: Bytes)
    requires Doomed(c, s, r, k, data) && Inv(d) && LeavesDoomed(c, d, s, r, k)
    ensures Doomed(d, s, r, k, data)
  {
  }

  ghost predicate Unheld(c: Cache, r: Ref) {
    NoWaiters(c) && forall a :: a in c.acts ==> c.acts[a].ref != r
  }

  lemma UnheldIsIdle(c: Cache, r: Ref)
    requires Inv(c) && r in c.blocks && Unheld(c, r)
    ensures !InUse(c.blocks[r])
  {
    assert BlockInv(c.blocks[r], r, c.acts);
    assert Holders(c.acts, r) == {};
  }

  lemma Unpins(c: Cache, store: Plain, s: SessionRef, r: Ref, k: Key, data: Bytes) returns (es: seq<Event>)
    requires Doomed(c, s, r, k, data) && Unheld(c, r) && c.sessions[s].dopsInUse == []
    ensures Delivers(c, store, es, [Got(k, data)])
  {
    var e := EvPin(s, k.lba, false);
    UnpinStep(c, store, s, r, k, data, e);
    var rest := Evicts(Step(c, e), store, s, r, k, data);
    FirstStep(c, store, e, rest, [], [Got(k, data)]);
    es := [e] + rest;
  }

  lemma UnpinStep(c: Cache, store: Plain, s: SessionRef, r: Ref, k: Key, data: Bytes, e: Event)
    requires Doomed(c, s, r, k, data) && Unheld(c, r) && c.sessions[s].dopsInUse == [] && e == EvPin(s, k.lba, false)
    ensures Shows(c, store, e, []) && Evictable(Step(c, e), s, r, k, data)
  {
    UnheldIsIdle(c, r);
    FindsBlock(c, r);
    assert Key(c.sessions[s].sessionId, k.lba) == k;
    PinStep(c, s, k.lba, false);
  }

  /** A disk operation ends with an error and leaves the data on both sides alone. */
  lemma IoDoneShows(c: Cache, store: Plain, s: SessionRef, o: DiskOp, r: Ref, e: Event)
    requires s in c.sessions && c.sessions[s].dopsInUse == [o] && o.blk in c.blocks && o.kind != Idle
    requires r in c.blocks && o.blk != r && c.blocks[o.blk].key != c.blocks[r].key
    requires e == EvIoDone(s, EIO, 0, c.blocks[o.blk].data)
    ensures Shows(c, store, e, [])
    ensures var d := Step(c, e);
            && d.acts == c.acts && d.sessions == c.sessions[s := d.sessions[s]] && d.sessions[s].dopsInUse == []
            && d.sessions[s].isOpen == c.sessions[s].isOpen && d.sessions[s].sessionId == c.sessions[s].sessionId
            && r in d.blocks && d.blocks[r] == c.blocks[r]
            && (c.blocks[r].key in c.disk ==>
                  c.blocks[r].key in d.disk && d.disk[c.blocks[r].key] == c.disk[c.blocks[r].key])
  {
  }

  /** A disk operation that is under way is not one on `r`. */
  lemma BusyElsewhere(c: Cache, s: SessionRef, r: Ref)
    requires s in c.sessions && SessionOk(c, s) && UniqueKeys(c.blocks) && c.sessions[s].isOpen
    requires c.sessions[s].dopsInUse != [] && r in c.blocks && c.blocks[r].op == Idle
    ensures var o := c.sessions[s].dopsInUse[0];
            && c.sessions[s].dopsInUse == [o] && o.blk in c.blocks && o.kind != Idle && o.blk != r
            && c.blocks[o.blk].key != c.blocks[r].key
  {
    assert DiskOpOk(c.blocks, c.sessions[s].dopsInUse[0], c.sessions[s].sessionId);
  }

  lemma OtherOperation(c: Cache, s: SessionRef, r: Ref)
    requires Inv(c) && IsOpen(c, s) && c.sessions[s].dopsInUse != [] && r in c.blocks && c.blocks[r].op == Idle
    ensures var o := c.sessions[s].dopsInUse[0];
            && c.sessions[s].dopsInUse == [o] && o.blk in c.blocks && o.kind != Idle && o.blk != r
            && c.blocks[o.blk].key != c.blocks[r].key
  {
    assert SessionOk(c, s);
    BusyElsewhere(c, s, r);
  }

  lemma DrainStep(c: Cache, store: Plain, s: SessionRef, r: Ref, k: Key, data: Bytes, o: DiskOp, e: Event)
    requires Doomed(c, s, r, k, data) && c.sessions[s].dopsInUse == [o]
    requires o.blk in c.blocks && o.kind != Idle && o.blk != r && c.blocks[o.blk].key != k
    requires e == EvIoDone(s, EIO, 0, c.blocks[o.blk].data)
    ensures Shows(c, store, e, []) && Doomed(Step(c, e), s, r, k, data)
    ensures Step(c, e).acts == c.acts && Step(c, e).sessions[s].dopsInUse == []
  {
    IoDoneShows(c, store, s, o, r, e);
    StepKeepsInv(c, e);
    StaysDoomed(c, Step(c, e), s, r, k, data);
  }

  lemma Drains(c: Cache, store: Plain, s: SessionRef, r: Ref, k: Key, data: Bytes) returns (es: seq<Event>)
    requires Doomed(c, s, r, k, data) && Unheld(c, r)
    ensures Delivers(c, store, es, [Got(k, data)])
  {
    if c.sessions[s].dopsInUse == [] {
      es := Unpins(c, store, s, r, k, data);
    } else {
      var o := c.sessions[s].dopsInUse[0];
      OtherOperation(c, s, r);
      var e := EvIoDone(s, EIO, 0, c.blocks[o.blk].data);
      DrainStep(c, store, s, r, k, data, o, e);
      var rest := Unpins(Step(c, e), store, s, r, k, data);
      FirstStep(c, store, e, rest, [], [Got(k, data)]);
      es := [e] + rest;
    }
  }

  lemma UnmapShows(c: Cache, store: Plain, a: Act, s: SessionRef)
    requires CanUnmap(c, a, NoWrite) && !c.acts[a].touched && IsOpen(c, s) && !c.blocks[c.acts[a].ref].exclusive
    ensures Shows(c, store, EvUnmap(a, NoWrite), [])
    ensures var d := Step(c, EvUnmap(a, NoWrite));
            var r := c.acts[a].ref;
            && d.acts == c.acts - {a} && d.disk == c.disk && IsOpen(d, s)
            && d.sessions[s].sessionId == c.sessions[s].sessionId
            && r in d.blocks && d.blocks[r] == c.blocks[r].(shareCount := d.blocks[r].shareCount)
  {
  }

  /** Somebody who refers to a block that is not locked exclusively and does not wait for it reads it. */
  lemma ReaderHere(c: Cache, r: Ref, a: Act)
    requires Local(c, a) && c.acts[a].ref == r && c.acts[a].phase.Mapped? && !c.blocks[r].exclusive
    ensures CanUnmap(c, a, NoWrite) && !c.acts[a].touched
  {
    assert a in Holders(c.acts, r);
  }

  lemma Reader(c: Cache, r: Ref, a: Act)
    requires Inv(c) && a in c.acts && c.acts[a].ref == r && c.acts[a].phase.Mapped? && r in c.blocks
    requires !c.blocks[r].exclusive
    ensures CanUnmap(c, a, NoWrite) && !c.acts[a].touched
  {
    Localize(c, a);
    ReaderHere(c, r, a);
  }

  lemma ReleaseStep(c: Cache, store: Plain, s: SessionRef, r: Ref, k: Key, data: Bytes, a: Act)
    requires Doomed(c, s, r, k, data) && NoWaiters(c) && a in c.acts && c.acts[a].ref == r
    ensures Shows(c, store, EvUnmap(a, NoWrite), []) && Doomed(Step(c, EvUnmap(a, NoWrite)), s, r, k, data)
    ensures Step(c, EvUnmap(a, NoWrite)).acts == c.acts - {a}
  {
    Reader(c, r, a);
    UnmapShows(c, store, a, s);
    StepKeepsInv(c, EvUnmap(a, NoWrite));
    StaysDoomed(c, Step(c, EvUnmap(a, NoWrite)), s, r, k, data);
  }

  lemma {:induction false} Releases(c: Cache, store: Plain, s: SessionRef, r: Ref, k: Key, data: Bytes)
    returns (es: seq<Event>)
    requires Doomed(c, s, r, k, data) && NoWaiters(c)
    ensures Delivers(c, store, es, [Got(k, data)])
    decreases c.acts.Keys
  {
    if a :| a in c.acts && c.acts[a].ref == r {
      var e := EvUnmap(a, NoWrite);
      ReleaseStep(c, store, s, r, k, data, a);
      assert Step(c, e).acts.Keys == c.acts.Keys - {a};
      var rest := Releases(Step(c, e), store, s, r, k, data);
      FirstStep(c, store, e, rest, [], [Got(k, data)]);
      es := [e] + rest;
    } else {
      es := Drains(c, store, s, r, k, data);
    }
  }

  lemma GiveUpDoomed(c: Cache, store: Plain, s: SessionRef, r: Ref, k: Key, data: Bytes, a: Act)
    requires Doomed(c, s, r, k, data) && a in c.acts && c.acts[a].phase.MapWait?
    ensures Shows(c, store, EvGiveUp(a), []) && Doomed(Step(c, EvGiveUp(a)), s, r, k, data)
    ensures Step(c, EvGiveUp(a)).acts == c.acts - {a}
  {
    Localize(c, a);
    GiveUpStep(c, a);
    GivesUp(c, store, a);
    StaysDoomed(c, EndAct(c, a), s, r, k, data);
  }

  /** The next read of the block that finds it gone from the cache gets what the disk holds. */
  lemma {:induction false} Surfaces(c: Cache, store: Plain, s: SessionRef, r: Ref, k: Key, data: Bytes)
    returns (es: seq<Event>)
    requires Doomed(c, s, r, k, data)
    ensures Delivers(c, store, es, [Got(k, data)])
    decreases c.acts.Keys
  {
    if a :| a in c.acts && c.acts[a].phase.MapWait? {
      var e := EvGiveUp(a);
      GiveUpDoomed(c, store, s, r, k, data, a);
      assert Step(c, e).acts.Keys == c.acts.Keys - {a};
      var rest := Surfaces(Step(c, e), store, s, r, k, data);
      FirstStep(c, store, e, rest, [], [Got(k, data)]);
      es := [e] + rest;
    } else {
      es := Releases(c, store, s, r, k, data);
    }
  }
}
