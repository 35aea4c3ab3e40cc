/** Blocks that are still dirty when their session is closed. */
module DiskCacheStranded {
  import opened DiskCacheModel
  import opened DiskCacheInvariant
  import opened DiskCacheSteps
  import opened DiskCacheRefinement
  import opened DiskCacheRuns
  import opened DiskCacheLoss
  import opened DiskCacheClients
  import opened Errors
  import opened Memory
  import opened Options

  ghost predicate OfClosedSession(c: Cache, k: Key) {
    forall s :: IsOpen(c, s) ==> c.sessions[s].sessionId != k.sid
  }

  /** A dirty block that no open session addresses. */
  ghost predicate Stranded(c: Cache, r: Ref) {
    r in c.blocks && c.blocks[r].isDirty && OfClosedSession(c, c.blocks[r].key)
  }

  ghost predicate SameOnDisk(c: Cache, d: Cache, k: Key) {
    (k in c.disk <==> k in d.disk) && (k in c.disk ==> d.disk[k] == c.disk[k])
  }

  /** The step leaves block and disk alone at `r`. */
  ghost predicate Untouched(c: Cache, d: Cache, r: Ref)
    requires r in c.blocks
  {
    r in d.blocks && d.blocks[r] == c.blocks[r] && SameOnDisk(c, d, c.blocks[r].key)
  }

  /** A session changes, and keeps its id or gets one that was never used. */
  lemma SessionsStayAway(c: Cache, d: Cache, s: SessionRef, k: Key)
    requires OfClosedSession(c, k) && s in d.sessions && d.sessions == c.sessions[s := d.sessions[s]]
    requires d.sessions[s].isOpen ==> || (IsOpen(c, s) && d.sessions[s].sessionId == c.sessions[s].sessionId)
                                      || d.sessions[s].sessionId > k.sid
    ensures OfClosedSession(d, k)
  {
    forall q | IsOpen(d, q) ensures d.sessions[q].sessionId != k.sid {
      if q != s { assert IsOpen(c, q); }
    }
  }

  /** A change on behalf of an open session concerns another block. */
  lemma ChangeElsewhere(c: Cache, ch: Change, r: Ref)
    requires Stranded(c, r) && OnOneBlock(c, ch) && UniqueKeys(c.blocks) && OnlyAt(c.disk, ch.disk, ch.b.key)
    ensures Untouched(c, Apply(c, ch), r) && Stranded(Apply(c, ch), r)
  {
    assert ch.r != r;
    SessionsStayAway(c, Apply(c, ch), ch.s, c.blocks[r].key);
  }

  lemma ActElsewhere(c: Cache, d: Cache, a: Act, r: Ref)
    requires Inv(c) && Stranded(c, r) && KnownAct(c, a) && c.acts[a].ref in d.blocks && c.acts[a].s in d.sessions
    requires Sound(c, ChangeOf(c, d, a)) && d == Apply(c, ChangeOf(c, d, a)) && d.disk == c.disk
    ensures Untouched(c, d, r) && Stranded(d, r)
  {
    ChangeElsewhere(c, ChangeOf(c, d, a), r);
  }

  lemma LockElsewhere(c: Cache, a: Act, r: Ref)
    requires Inv(c) && Stranded(c, r) && CanLockForMap(c, a)
    ensures var d := LockForMap(c, a); Untouched(c, d, r) && Stranded(d, r)
  {
    Localize(c, a);
    LockSound(c, a);
    LockChange(c, a);
    ActElsewhere(c, LockForMap(c, a), a, r);
  }

  lemma StoreElsewhere(c: Cache, a: Act, data: Bytes, r: Ref)
    requires Inv(c) && Stranded(c, r) && CanStore(c, a)
    ensures var d := Store(c, a, data); Untouched(c, d, r) && Stranded(d, r)
  {
    Localize(c, a);
    StoreSound(c, a, data);
    StoreChange(c, a, data);
    ActElsewhere(c, Store(c, a, data), a, r);
  }

  lemma StartIoElsewhere(c: Cache, a: Act, r: Ref)
    requires Inv(c) && Stranded(c, r) && CanStartIo(c, a)
    ensures var d := StartIo(c, a, true); Untouched(c, d, r) && Stranded(d, r)
  {
    Localize(c, a);
    StartIoSound(c, a);
    StartIoChange(c, a);
    ActElsewhere(c, StartIo(c, a, true), a, r);
  }

  lemma FinishElsewhere(c: Cache, a: Act, cancelled: bool, r: Ref)
    requires Inv(c) && Stranded(c, r) && CanFinish(c, a, cancelled) && !InFlight(c, a)
    ensures var d := Finish(c, a, cancelled); Untouched(c, d, r) && Stranded(d, r)
  {
    Localize(c, a);
    FinishOnly(c, a, cancelled);
    ActElsewhere(c, Finish(c, a, cancelled), a, r);
  }

  lemma FinishOnly(c: Cache, a: Act, cancelled: bool)
    requires Local(c, a) && CanFinish(c, a, cancelled) && !InFlight(c, a)
    ensures var d := Finish(c, a, cancelled);
            && c.acts[a].ref in d.blocks && c.acts[a].s in d.sessions && d.disk == c.disk
            && Sound(c, ChangeOf(c, d, a)) && d == Apply(c, ChangeOf(c, d, a))
  {
    FinishSound(c, a, cancelled);
    FinishChange(c, a, cancelled);
  }

  lemma UnmapElsewhere(c: Cache, a: Act, wmode: WriteMode, r: Ref)
    requires Inv(c) && Stranded(c, r) && CanUnmap(c, a, wmode)
    ensures var d := Unmap(c, a, wmode); Untouched(c, d, r) && Stranded(d, r)
  {
    Localize(c, a);
    UnmapSound(c, a, wmode);
    UnmapChange(c, a, wmode);
    ActElsewhere(c, Unmap(c, a, wmode), a, r);
  }

  lemma IoDoneElsewhere(c: Cache, s: SessionRef, err: Errno, rlen: nat, junk: Bytes, r: Ref)
    requires Inv(c) && Stranded(c, r) && CanIoDone(c, s, err, rlen)
    ensures var d := IoDone(c, s, err, rlen, junk); Untouched(c, d, r) && Stranded(d, r)
  {
    assert SessionOk(c, s);
    var o := c.sessions[s].dopsInUse[0];
    assert DiskOpOk(c.blocks, o, c.sessions[s].sessionId);
    assert LocalBlock(c, s, o.blk);
    var a := FreshAct(c.acts.Keys);
    IoDoneSound(c, s, err, rlen, junk, a);
    IoDoneChange(c, s, err, rlen, junk, a);
    ChangeElsewhere(c, BlockChange(c, IoDone(c, s, err, rlen, junk), s, a, o.blk), r);
  }

  /** A block that a session finds is its own. */
  lemma FoundElsewhere(c: Cache, s: SessionRef, lba: nat, r: Ref)
    requires Inv(c) && Stranded(c, r) && Found(c, s, lba)
    ensures Find(c, Key(c.sessions[s].sessionId, lba)).value != r
  {
    FoundBlock(c, s, lba);
  }

  lemma RecycleElsewhere(c: Cache, k: Key, v: Ref, r: Ref)
    requires r in c.blocks && v in c.blocks && v != r
    ensures var d := RecentUse(RecycleBlock(c, v, k), v); Untouched(c, d, r) && d.sessions == c.sessions
  {
  }

  lemma GetBlockElsewhere(c: Cache, k: Key, newRef: Ref, r: Ref)
    requires IndexInv(c) && r in c.blocks && c.blocks[r].isDirty && newRef !in c.blocks && GetBlock(c, k, newRef).Some?
    ensures var d := GetBlock(c, k, newRef).value.0; Untouched(c, d, r) && d.sessions == c.sessions
  {
    VictimReusable(c);
    var v := Victim(c.lru, c.blocks);
    if Find(c, k).None? && c.blockCount >= c.blockCapacity && v.Some? {
      RecycleElsewhere(c, k, v.value, r);
    }
  }

  lemma MapElsewhere(c: Cache, a: Act, s: SessionRef, lba: nat, mode: MapMode, newRef: Ref, r: Ref)
    requires Inv(c) && Stranded(c, r) && CanMap(c, a, s, lba, newRef)
    ensures var d := Map(c, a, s, lba, mode, newRef); Untouched(c, d, r) && Stranded(d, r)
  {
    GetBlockElsewhere(c, Key(c.sessions[s].sessionId, lba), newRef, r);
  }

  lemma MapNowElsewhere(c: Cache, a: Act, s: SessionRef, lba: nat, mode: MapMode, newRef: Ref, r: Ref)
    requires Inv(c) && Stranded(c, r) && CanMap(c, a, s, lba, newRef) && Fair(c, EvMap(a, s, lba, mode, newRef))
    ensures var d := MapNow(c, a, s, lba, mode, newRef); Untouched(c, d, r) && Stranded(d, r)
  {
    var d := Map(c, a, s, lba, mode, newRef);
    MapStep(c, a, s, lba, mode, newRef);
    MapElsewhere(c, a, s, lba, mode, newRef, r);
    if CanLockForMap(d, a) { LockElsewhere(d, a, r); }
  }

  lemma OpenElsewhere(c: Cache, s: SessionRef, content: map<nat, Bytes>, r: Ref)
    requires Inv(c) && Stranded(c, r)
    ensures var d := Open(c, s, content); Untouched(c, d, r) && Stranded(d, r)
  {
    MediaKeysAt(c.nextAvailSessionId, content, c.blocks[r].key);
    SessionsStayAway(c, Open(c, s, content), s, c.blocks[r].key);
  }

  lemma CloseElsewhere(c: Cache, s: SessionRef, r: Ref)
    requires Stranded(c, r) && CanClose(c, s)
    ensures var d := Close(c, s); Untouched(c, d, r) && Stranded(d, r)
  {
    SessionsStayAway(c, Close(c, s), s, c.blocks[r].key);
  }

  lemma SyncElsewhere(c: Cache, a: Act, s: SessionRef, lba: nat, r: Ref)
    requires Stranded(c, r) && CanSync(c, a, s, lba) && Find(c, Key(c.sessions[s].sessionId, lba)).value != r
    ensures var d := SyncBlock(c, a, s, lba); Untouched(c, d, r) && Stranded(d, r)
  {
  }

  lemma PinElsewhere(c: Cache, s: SessionRef, lba: nat, pinned: bool, r: Ref)
    requires Stranded(c, r) && Found(c, s, lba) && Find(c, Key(c.sessions[s].sessionId, lba)).value != r
    ensures var d := Pin(c, s, lba, pinned); Untouched(c, d, r) && Stranded(d, r)
  {
  }

  lemma CallElsewhere(c: Cache, e: Event, r: Ref)
    requires Inv(c) && Stranded(c, r) && Enabled(c, e) && Fair(c, e)
    requires e.EvLock? || e.EvGiveUp? || e.EvStartIo? || e.EvIoDone? || e.EvFinish? || e.EvStore? || e.EvUnmap?
    ensures Untouched(c, Step(c, e), r) && Stranded(Step(c, e), r)
  {
    match e
    case EvLock(a) => LockElsewhere(c, a, r);
    case EvGiveUp(a) =>
    case EvStartIo(a, accepted) => StartIoElsewhere(c, a, r);
    case EvIoDone(s, err, rlen, junk) => IoDoneElsewhere(c, s, err, rlen, junk, r);
    case EvFinish(a, cancelled) => FinishElsewhere(c, a, cancelled, r);
    case EvStore(a, data) => StoreElsewhere(c, a, data, r);
    case EvUnmap(a, wmode) => UnmapElsewhere(c, a, wmode, r);
  }

  /** No step of anybody reaches a stranded block. */
  lemma StepKeepsStranded(c: Cache, e: Event, r: Ref)
    requires Inv(c) && Stranded(c, r) && Enabled(c, e) && Fair(c, e)
    ensures Untouched(c, Step(c, e), r) && Stranded(Step(c, e), r)
  {
    match e
    case EvOpen(s, content) => OpenElsewhere(c, s, content, r);
    case EvClose(s) => CloseElsewhere(c, s, r);
    case EvMap(a, s, lba, mode, newRef) => MapNowElsewhere(c, a, s, lba, mode, newRef, r);
    case EvSync(a, s, lba) => FoundElsewhere(c, s, lba, r); SyncElsewhere(c, a, s, lba, r);
    case EvPin(s, lba, pinned) => FoundElsewhere(c, s, lba, r); PinElsewhere(c, s, lba, pinned, r);
    case _ => CallElsewhere(c, e, r);
  }

  lemma {:induction false} RunKeepsStranded(c: Cache, es: seq<Event>, r: Ref)
    requires Inv(c) && Stranded(c, r) && FairRun(c, es)
    ensures Untouched(c, EndOf(c, es), r) && Stranded(EndOf(c, es), r)
    decreases es
  {
    if es != [] {
      StepKeepsInv(c, es[0]);
      StepKeepsStranded(c, es[0], r);
      RunKeepsStranded(Step(c, es[0]), es[1..], r);
    }
  }

  lemma CloseStrands(c: Cache, s: SessionRef, r: Ref)
    requires Inv(c) && CanClose(c, s) && NoCallsOn(c, s)
    requires r in c.blocks && c.blocks[r].isDirty && c.blocks[r].key.sid == c.sessions[s].sessionId
    ensures Stranded(Close(c, s), r)
  {
    var d := Close(c, s);
    forall q | IsOpen(d, q) ensures d.sessions[q].sessionId != c.blocks[r].key.sid {
      assert q != s && !SameId(c, q, s);
    }
  }

  /**
   A block that is dirty when its session is closed stays in the cache in every later fair run. Its bytes
   never reach the disk, and its memory is never used for another block.
   */
  lemma DirtyAtCloseStays(c: Cache, s: SessionRef, r: Ref, es: seq<Event>)
    requires Inv(c) && CanClose(c, s) && NoCallsOn(c, s) && FairRun(Close(c, s), es)
    requires r in c.blocks && c.blocks[r].isDirty && c.blocks[r].key.sid == c.sessions[s].sessionId
    ensures var d := EndOf(Close(c, s), es);
            r in d.blocks && d.blocks[r] == c.blocks[r] && !Reusable(d.blocks[r]) && SameOnDisk(c, d, c.blocks[r].key)
  {
    CloseStrands(c, s, r);
    CloseStep(c, s);
    RunKeepsStranded(Close(c, s), es, r);
  }

  // ---------------------------------------------------------------------------------------
  // A cache that is full of them

  /** Every block that the cache may have is stranded. */
  ghost predicate Dead(c: Cache) {
    Inv(c) && c.blockCount >= c.blockCapacity && forall r :: r in c.blocks ==> Stranded(c, r)
  }

  lemma NoneReusable(c: Cache)
    requires Dead(c)
    ensures Victim(c.lru, c.blocks).None?
  {
    VictimReusable(c);
  }

  lemma NothingFound(c: Cache, s: SessionRef, lba: nat)
    requires Dead(c) && IsOpen(c, s)
    ensures Find(c, Key(c.sessions[s].sessionId, lba)).None?
  {
    FindCorrect(c, Key(c.sessions[s].sessionId, lba));
  }

  lemma NothingMaps(c: Cache, a: Act, s: SessionRef, lba: nat, newRef: Ref)
    requires Dead(c)
    ensures !CanMap(c, a, s, lba, newRef)
  {
    if IsOpen(c, s) {
      NoneReusable(c);
      NothingFound(c, s, lba);
    }
  }

  lemma NoCalls(c: Cache)
    requires Dead(c)
    ensures c.acts == map[]
  {
    forall a: Act ensures a !in c.acts {
      if a in c.acts { Localize(c, a); }
    }
  }

  lemma NothingInFlight(c: Cache, s: SessionRef)
    requires Dead(c) && s in c.sessions
    ensures c.sessions[s].dopsInUse == []
  {
    assert SessionOk(c, s);
    if c.sessions[s].isOpen {
      NoCalls(c);
      UnusedSession(c, s);
    }
  }

  /** Sessions come and go; that is all that can still happen. */
  lemma OnlySessions(c: Cache, e: Event)
    requires Dead(c) && Enabled(c, e)
    ensures e.EvOpen? || e.EvClose?
  {
    NoCalls(c);
    match e
    case EvMap(a, s, lba, mode, newRef) => NothingMaps(c, a, s, lba, newRef);
    case EvIoDone(s, err, rlen, junk) => NothingInFlight(c, s);
    case EvSync(a, s, lba) => NothingFound(c, s, lba);
    case EvPin(s, lba, pinned) => NothingFound(c, s, lba);
    case _ =>
  }

  lemma StepKeepsDead(c: Cache, e: Event)
    requires Dead(c) && Enabled(c, e) && Fair(c, e)
    ensures Dead(Step(c, e))
  {
    OnlySessions(c, e);
    StepKeepsInv(c, e);
    forall r | r in Step(c, e).blocks ensures Stranded(Step(c, e), r) {
      assert Step(c, e).blocks == c.blocks;
      StepKeepsStranded(c, e, r);
    }
  }

  /** A cache whose blocks are all stranded never maps a block again, for no session and in no fair run. */
  lemma {:induction false} NeverMapsAgain(c: Cache, es: seq<Event>, a: Act, s: SessionRef, lba: nat, newRef: Ref)
    requires Dead(c) && FairRun(c, es)
    ensures !CanMap(EndOf(c, es), a, s, lba, newRef)
    decreases es
  {
    if es == [] {
      NothingMaps(c, a, s, lba, newRef);
    } else {
      StepKeepsDead(c, es[0]);
      NeverMapsAgain(Step(c, es[0]), es[1..], a, s, lba, newRef);
    }
  }

  // ---------------------------------------------------------------------------------------
  // It happens

  lemma DefersChanged(c: Cache, store: Plain, s: SessionRef, lba: nat, a: Act)
    requires Changed(c, s, lba, a) && c.sessions[s].activeMappingsCount == 1
    ensures Shows(c, store, EvUnmap(a, Deferred), [Put(c.acts[a].key, c.blocks[c.acts[a].ref].data)])
    ensures var d, r := Step(c, EvUnmap(a, Deferred)), c.acts[a].ref;
            && d.acts == c.acts - {a} && d.blocks == c.blocks[r := d.blocks[r]] && d.blocks[r].isDirty
            && d.blocks[r].key == c.blocks[r].key && CanClose(d, s)
            && d.sessions[s].sessionId == c.sessions[s].sessionId
            && d.blockCapacity == c.blockCapacity && d.blockCount == c.blockCount
  {
  }

  lemma ClosesDirty(c: Cache, store: Plain, s: SessionRef, r: Ref)
    requires Inv(c) && CanClose(c, s) && c.acts == map[] && c.blockCapacity <= 1
    requires r in c.blocks && c.blocks[r].isDirty && c.blocks[r].key.sid == c.sessions[s].sessionId
    ensures Shows(c, store, EvClose(s), []) && Dead(Step(c, EvClose(s)))
  {
    CloseStrands(c, s, r);
    CloseStep(c, s);
    assert c.blocks.Keys == {r} by {
      assert |c.blocks.Keys| == |c.blocks| <= 1;
      assert |c.blocks.Keys - {r}| == |c.blocks.Keys| - 1;
    }
  }

  lemma OneMapping(c: Cache, s: SessionRef, lba: nat, a: Act)
    requires Inv(c) && Changed(c, s, lba, a) && c.acts.Keys == {a}
    ensures c.sessions[s].activeMappingsCount == 1
  {
    assert SessionOk(c, s);
    assert MappingsOf(c.acts, s) == {a};
  }

  lemma StrandEnd(c: Cache, store: Plain, a: Act, s: SessionRef, lba: nat) returns (es: seq<Event>, d: Cache)
    requires Inv(c) && Changed(c, s, lba, a) && c.acts.Keys == {a} && c.blockCapacity <= 1
    ensures Reaches(c, store, es, d) && Dead(d)
  {
    var e1, e2, r := EvUnmap(a, Deferred), EvClose(s), c.acts[a].ref;
    OneMapping(c, s, lba, a);
    DefersChanged(c, store, s, lba, a);
    UnmapStep(c, a, Deferred);
    var c1, store' := Step(c, e1), PlainAfter(store, e1, c);
    ClosesDirty(c1, store', s, r);
    d := Step(c1, e2);
    Ends(c1, store', e2, []);
    FirstReaches(c, store, e1, [Put(c.acts[a].key, c.blocks[r].data)], [e2] + [], d);
    es := [e1] + ([e2] + []);
  }

  /** The only block is changed, unmapped with a deferred write, and the session is closed. */
  lemma StrandRun(c: Cache, store: Plain, a: Act, s: SessionRef, lba: nat, newRef: Ref, data: Bytes)
    returns (es: seq<Event>, d: Cache)
    requires Misses(c, a, s, lba, newRef) && c.disk[Key(c.sessions[s].sessionId, lba)] != data
    requires c.acts == map[] && c.blockCapacity <= 1
    ensures Reaches(c, store, es, d) && Dead(d)
  {
    var e1, e2 := EvMap(a, s, lba, Replace, newRef), EvStore(a, data);
    var c2 := ChangesBlock(c, store, a, s, lba, newRef, data);
    TwoKeepInv(c, store, e1, e2, c2);
    var rest;
    rest, d := StrandEnd(c2, store, a, s, lba);
    TwoReach(c, store, e1, e2, c2, rest, d);
    es := ChangeRun(a, s, lba, newRef, data, rest);
  }

  /** A good run that leaves a cache of one block dead. */
  lemma CacheDies(blockSize: nat, content: map<nat, Bytes>, lba: nat, data: Bytes) returns (es: seq<Event>, c: Cache)
    requires lba in content && data != content[lba]
    ensures Reaches(Init(blockSize, 1), map[], es, c) && Dead(c)
  {
    var c0, e := Init(blockSize, 1), EvOpen(0, content);
    Opens(blockSize, 1, content, 0, 0, lba, 0);
    var rest;
    rest, c := StrandRun(Step(c0, e), PlainAfter(map[], e, c0), 0, 0, lba, 0, data);
    FirstReaches(c0, map[], e, [Media(1, content)], rest, c);
    es := [e] + rest;
  }
}
