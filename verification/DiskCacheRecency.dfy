/** The LRU chain is the order of use, and the block that is recycled is the one whose last use is longest ago. */
module DiskCacheRecency {
  import opened DiskCacheModel
  import opened DiskCacheInvariant
  import opened DiskCacheSteps
  import opened DiskCacheRefinement
  import opened Errors
  import opened Memory
  import opened Options

  // ---------------------------------------------------------------------------------------
  // Uses

  /** The block that a step uses: the one that a map call gets. */
  ghost function Used(c: Cache, e: Event): Option<Ref>
    requires Enabled(c, e)
  {
    if e.EvMap? && e.a in Step(c, e).acts then Some(Step(c, e).acts[e.a].ref) else None
  }

  /** The blocks that the steps of a run use. */
  ghost function Uses(c: Cache, es: seq<Event>): seq<Option<Ref>>
    requires CanRun(c, es)
    decreases es
  {
    if es == [] then [] else [Used(c, es[0])] + Uses(Step(c, es[0]), es[1..])
  }

  /** The number of the step that was the last one to use block `r`; none has. */
  function LastUse(us: seq<Option<Ref>>, r: Ref): int {
    if us == [] then -1
    else if us[|us| - 1] == Some(r) then |us| - 1
    else LastUse(us[..|us| - 1], r)
  }

  lemma {:induction false} LastUseBelow(us: seq<Option<Ref>>, r: Ref)
    ensures -1 <= LastUse(us, r) < |us|
  {
    if us != [] && us[|us| - 1] != Some(r) { LastUseBelow(us[..|us| - 1], r); }
  }

  lemma OneMore(us: seq<Option<Ref>>, u: Option<Ref>, r: Ref)
    ensures LastUse(us + [u], r) == if u == Some(r) then |us| else LastUse(us, r)
  {
    assert (us + [u])[..|us|] == us;
  }

  /** `s` lists blocks that have been used, the one used last first. */
  ghost predicate ByLastUse(us: seq<Option<Ref>>, s: seq<Ref>) {
    && (forall i :: 0 <= i < |s| ==> LastUse(us, s[i]) >= 0)
    && (forall i, j :: 0 <= i < j < |s| ==> LastUse(us, s[i]) > LastUse(us, s[j]))
  }

  lemma FirstByLastUse(us: seq<Option<Ref>>, s: seq<Ref>, w: seq<Ref>)
    requires s != [] && ByLastUse(us, s) && ByLastUse(us, w) && forall q :: q in w ==> q in s[1..]
    ensures ByLastUse(us, [s[0]] + w)
  {
    forall j | 0 <= j < |w| ensures LastUse(us, s[0]) > LastUse(us, w[j]) {
      assert w[j] in s[1..];
    }
  }

  lemma {:induction false} WithoutByLastUse(us: seq<Option<Ref>>, s: seq<Ref>, r: Ref)
    requires ByLastUse(us, s)
    ensures ByLastUse(us, Without(s, r)) && r !in Without(s, r) && forall q :: q in Without(s, r) ==> q in s
  {
    if s != [] {
      if s[0] == r {
        assert Without(s, r) == s[1..];
      } else {
        assert ByLastUse(us, s[1..]);
        WithoutByLastUse(us, s[1..], r);
        FirstByLastUse(us, s, Without(s[1..], r));
      }
    }
  }

  /** Using a block moves it to the front. */
  lemma UseByLastUse(us: seq<Option<Ref>>, s: seq<Ref>, r: Ref)
    requires ByLastUse(us, s)
    ensures ByLastUse(us + [Some(r)], [r] + Without(s, r))
  {
    var w := Without(s, r);
    var t := [r] + w;
    WithoutByLastUse(us, s, r);
    forall i | 0 <= i < |t|
      ensures LastUse(us + [Some(r)], t[i]) == if i == 0 then |us| else LastUse(us, w[i - 1])
      ensures i > 0 ==> LastUse(us, w[i - 1]) < |us|
    {
      OneMore(us, Some(r), t[i]);
      LastUseBelow(us, t[i]);
      assert i > 0 ==> t[i] == w[i - 1] && w[i - 1] in w;
    }
  }

  lemma NoUseByLastUse(us: seq<Option<Ref>>, s: seq<Ref>)
    requires ByLastUse(us, s)
    ensures ByLastUse(us + [None], s)
  {
    forall i | 0 <= i < |s| ensures LastUse(us + [None], s[i]) == LastUse(us, s[i]) { OneMore(us, None, s[i]); }
  }

  // ---------------------------------------------------------------------------------------
  // Steps

  lemma {:induction false} WithoutAbsent(s: seq<Ref>, r: Ref)
    requires r !in s
    ensures Without(s, r) == s
  {
    if s != [] { WithoutAbsent(s[1..], r); }
  }

  lemma GetBlockLru(c: Cache, k: Key, newRef: Ref)
    requires IndexInv(c) && newRef !in c.blocks && GetBlock(c, k, newRef).Some?
    ensures var (d, r) := GetBlock(c, k, newRef).value; d.lru == [r] + Without(c.lru, r)
  {
    if Find(c, k).None? && c.blockCount < c.blockCapacity {
      ListsMember(c.lru, c.blocks.Keys, newRef);
      WithoutAbsent(c.lru, newRef);
    }
  }

  lemma MapLru(c: Cache, a: Act, s: SessionRef, lba: nat, mode: MapMode, newRef: Ref)
    requires IndexInv(c) && CanMap(c, a, s, lba, newRef)
    ensures var d := MapNow(c, a, s, lba, mode, newRef);
            a in d.acts && d.lru == [d.acts[a].ref] + Without(c.lru, d.acts[a].ref)
  {
    GetBlockLru(c, Key(c.sessions[s].sessionId, lba), newRef);
  }

  lemma OthersKeepLru(c: Cache, e: Event)
    requires Enabled(c, e) && !e.EvMap?
    ensures Step(c, e).lru == c.lru && Used(c, e) == None
  {
  }

  lemma StepByLastUse(c: Cache, e: Event, us: seq<Option<Ref>>)
    requires IndexInv(c) && Enabled(c, e) && ByLastUse(us, c.lru)
    ensures ByLastUse(us + [Used(c, e)], Step(c, e).lru)
  {
    if e.EvMap? {
      MapLru(c, e.a, e.s, e.lba, e.mode, e.newRef);
      UseByLastUse(us, c.lru, Step(c, e).acts[e.a].ref);
    } else {
      OthersKeepLru(c, e);
      NoUseByLastUse(us, c.lru);
    }
  }

  // ---------------------------------------------------------------------------------------
  // The indexes survive every step, whatever drivers and clients do

  lemma GetBlockIndex(c: Cache, k: Key, newRef: Ref)
    requires IndexInv(c) && newRef !in c.blocks && GetBlock(c, k, newRef).Some?
    ensures IndexInv(GetBlock(c, k, newRef).value.0)
  {
    FindCorrect(c, k);
    VictimReusable(c);
    if Find(c, k).Some? {
      RecentUseIndex(c, Find(c, k).value);
    } else if c.blockCount < c.blockCapacity {
      CreateBlockIndex(c, newRef, k);
      RecentUseIndex(CreateBlock(c, newRef, k), newRef);
    } else {
      var r := Victim(c.lru, c.blocks).value;
      RecycleBlockIndex(c, r, k);
      RecentUseIndex(RecycleBlock(c, r, k), r);
    }
  }

  /** Blocks change, but not their addresses. */
  ghost predicate SameIndex(c: Cache, d: Cache) {
    && d.lru == c.lru && d.hash == c.hash && d.blockCount == c.blockCount && d.blockCapacity == c.blockCapacity
    && d.blocks.Keys == c.blocks.Keys && forall r :: r in c.blocks ==> d.blocks[r].key == c.blocks[r].key
  }

  lemma CompleteKeepsIndex(c: Cache, a: Act, err: Errno)
    requires a in c.acts && (NeedsIo(c.acts[a].phase) || DoingIo(c.acts[a].phase))
    requires c.acts[a].ref in c.blocks && c.acts[a].s in c.sessions && InUse(c.blocks[c.acts[a].ref])
    requires IoKind(c.acts[a].phase) == Read ==> c.blocks[c.acts[a].ref].exclusive
    ensures SameIndex(c, Complete(c, a, err))
  {
    var x := c.acts[a];
    if x.phase.MapNeedsRead? || x.phase.MapReading? {
      FinishMapKeepsIndex(c, a, x.phase.mode, err);
    } else {
      ReleaseKeepsIndex(c, a, x.ref);
      ReleaseKeepsIndex(AddMappings(c, x.s, -1), a, x.ref);
    }
  }

  lemma ReleaseKeepsIndex(c: Cache, a: Act, r: Ref)
    requires r in c.blocks && InUse(c.blocks[r])
    ensures SameIndex(c, Release(c, a, r))
  {
  }

  lemma FinishMapKeepsIndex(c: Cache, a: Act, mode: MapMode, err: Errno)
    requires a in c.acts && c.acts[a].ref in c.blocks && c.acts[a].s in c.sessions
    requires c.blocks[c.acts[a].ref].exclusive
    ensures SameIndex(c, FinishMap(c, a, mode, err))
  {
  }

  lemma StartIoKeepsIndex(c: Cache, a: Act, accepted: bool)
    requires CanStartIo(c, a)
    ensures SameIndex(c, StartIo(c, a, accepted))
  {
    var d := Submit(c, c.acts[a].s, c.acts[a].ref, IoKind(c.acts[a].phase));
    assert SameIndex(c, d);
    if !accepted { CompleteKeepsIndex(d, a, EIO); }
  }

  lemma UnmapKeepsIndex(c: Cache, a: Act, wmode: WriteMode)
    requires CanUnmap(c, a, wmode)
    ensures SameIndex(c, Unmap(c, a, wmode))
  {
  }

  lemma OthersKeepIndex(c: Cache, e: Event)
    requires Enabled(c, e) && !e.EvMap?
    ensures SameIndex(c, Step(c, e))
  {
    match e
    case EvStartIo(a, accepted) => StartIoKeepsIndex(c, a, accepted);
    case EvFinish(a, cancelled) =>
      CompleteKeepsIndex(c, a, if cancelled then ECANCELED else c.blocks[c.acts[a].ref].readError);
    case EvUnmap(a, wmode) => UnmapKeepsIndex(c, a, wmode);
    case _ =>
  }

  lemma LockKeepsIndex(c: Cache, a: Act)
    requires CanLockForMap(c, a)
    ensures SameIndex(c, LockForMap(c, a))
  {
  }

  lemma MapIndex(c: Cache, a: Act, s: SessionRef, lba: nat, mode: MapMode, newRef: Ref)
    requires CanMap(c, a, s, lba, newRef)
    ensures SameIndex(GetBlock(c, Key(c.sessions[s].sessionId, lba), newRef).value.0,
                      MapNow(c, a, s, lba, mode, newRef))
  {
    var m := Map(c, a, s, lba, mode, newRef);
    if CanLockForMap(m, a) { LockKeepsIndex(m, a); }
  }

  lemma StepKeepsIndex(c: Cache, e: Event)
    requires IndexInv(c) && Enabled(c, e)
    ensures IndexInv(Step(c, e))
  {
    if e.EvMap? {
      var k := Key(c.sessions[e.s].sessionId, e.lba);
      GetBlockIndex(c, k, e.newRef);
      MapIndex(c, e.a, e.s, e.lba, e.mode, e.newRef);
      IndexFrame(GetBlock(c, k, e.newRef).value.0, Step(c, e));
    } else {
      OthersKeepIndex(c, e);
      IndexFrame(c, Step(c, e));
    }
  }

  // ---------------------------------------------------------------------------------------
  // Runs

  lemma {:induction false} RunKeepsIndex(c: Cache, es: seq<Event>)
    requires IndexInv(c) && CanRun(c, es)
    ensures IndexInv(EndOf(c, es))
    decreases es
  {
    if es != [] {
      StepKeepsIndex(c, es[0]);
      RunKeepsIndex(Step(c, es[0]), es[1..]);
    }
  }

  lemma {:induction false} RunByLastUse(c: Cache, es: seq<Event>, us: seq<Option<Ref>>)
    requires IndexInv(c) && CanRun(c, es) && ByLastUse(us, c.lru)
    ensures ByLastUse(us + Uses(c, es), EndOf(c, es).lru)
    decreases es
  {
    if es == [] {
      assert us + [] == us;
    } else {
      var u, rest := Used(c, es[0]), Uses(Step(c, es[0]), es[1..]);
      StepKeepsIndex(c, es[0]);
      StepByLastUse(c, es[0], us);
      RunByLastUse(Step(c, es[0]), es[1..], us + [u]);
      Regroup(us, u, rest);
    }
  }

  lemma Regroup(us: seq<Option<Ref>>, u: Option<Ref>, rest: seq<Option<Ref>>)
    ensures us + ([u] + rest) == us + [u] + rest
  {
  }

  /** In every run from a new cache the LRU chain lists exactly the cached blocks, in the order of their last use. */
  lemma LruIsOrderOfUse(blockSize: nat, maxBlockCount: nat, es: seq<Event>)
    requires CanRun(Init(blockSize, maxBlockCount), es)
    ensures var c0 := Init(blockSize, maxBlockCount);
            IndexInv(EndOf(c0, es)) && ByLastUse(Uses(c0, es), EndOf(c0, es).lru)
  {
    var c0 := Init(blockSize, maxBlockCount);
    InitIndex(blockSize, maxBlockCount);
    RunKeepsIndex(c0, es);
    RunByLastUse(c0, es, []);
    assert [] + Uses(c0, es) == Uses(c0, es);
  }

  lemma InitIndex(blockSize: nat, maxBlockCount: nat)
    ensures IndexInv(Init(blockSize, maxBlockCount))
  {
  }

  // ---------------------------------------------------------------------------------------
  // Which block a map call gets

  /** Nobody uses the block, and there is no reason to keep it. */
  predicate Free(b: DiskBlock) {
    b.shareCount == 0 && !b.exclusive && !b.isDirty && !b.isPinned
  }

  /** At most block `r` is new or has changed. */
  ghost predicate OthersStay(c: Cache, d: Cache, r: Ref) {
    d.blocks.Keys == c.blocks.Keys + {r} && forall q :: q in c.blocks && q != r ==> d.blocks[q] == c.blocks[q]
  }

  lemma RecycledBlock(c: Cache, k: Key, r: Ref)
    requires r in c.blocks
    ensures var d := RecentUse(RecycleBlock(c, r, k), r);
            && r in d.blocks && d.blocks[r].key == k && OthersStay(c, d, r)
            && !d.blocks[r].hasData && AllZero(d.blocks[r].data, c.blockSize)
  {
  }

  lemma CreatedBlock(c: Cache, k: Key, r: Ref)
    requires r !in c.blocks
    ensures var d := RecentUse(CreateBlock(c, r, k), r);
            && r in d.blocks && d.blocks[r].key == k && OthersStay(c, d, r)
            && !d.blocks[r].hasData && AllZero(d.blocks[r].data, c.blockSize)
  {
  }

  /** A call gets the block that is cached for its address, a new block, or the next one to be recycled. */
  lemma GotBlock(c: Cache, k: Key, newRef: Ref, d: Cache, r: Ref)
    requires IndexInv(c) && newRef !in c.blocks && GetBlock(c, k, newRef) == Some((d, r))
    ensures r in d.blocks && d.blocks[r].key == k && OthersStay(c, d, r)
    ensures Cached(c.blocks, k) ==> r in c.blocks && c.blocks[r].key == k
    ensures !Cached(c.blocks, k) && |c.blocks| < c.blockCapacity ==> r !in c.blocks
    ensures !Cached(c.blocks, k) && |c.blocks| >= c.blockCapacity ==>
              Victim(c.lru, c.blocks) == Some(r) && r in c.blocks
    ensures !Cached(c.blocks, k) ==> !d.blocks[r].hasData && AllZero(d.blocks[r].data, c.blockSize)
  {
    FindCorrect(c, k);
    if Find(c, k).None? {
      if c.blockCount < c.blockCapacity {
        CreatedBlock(c, k, newRef);
      } else {
        RecycledBlock(c, k, r);
      }
    }
  }

  /** Of the blocks that can be recycled, the victim is the one whose last use is longest ago. */
  lemma VictimIsOldest(c: Cache, us: seq<Option<Ref>>, r: Ref, q: Ref)
    requires IndexInv(c) && ByLastUse(us, c.lru) && Victim(c.lru, c.blocks) == Some(r)
    requires q in c.blocks && Reusable(c.blocks[q]) && q != r
    ensures LastUse(us, r) < LastUse(us, q)
  {
    forall i | 0 <= i < |c.lru| ensures c.lru[i] in c.blocks { ListsMember(c.lru, c.blocks.Keys, c.lru[i]); }
    VictimIsLeastRecentlyUsed(c.lru, c.blocks);
    ListsMember(c.lru, c.blocks.Keys, q);
    var i :| LastReusable(c.lru, c.blocks, r, i);
    var j :| 0 <= j < |c.lru| && c.lru[j] == q;
    assert j < i;
  }

  /** The lock changes no other block. */
  lemma LockStays(c: Cache, g: Cache, a: Act, s: SessionRef, lba: nat, mode: MapMode, newRef: Ref, r: Ref)
    requires CanMap(c, a, s, lba, newRef) && GetBlock(c, Key(c.sessions[s].sessionId, lba), newRef) == Some((g, r))
    requires r in g.blocks && OthersStay(c, g, r)
    ensures var d := MapNow(c, a, s, lba, mode, newRef);
            && a in d.acts && d.acts[a].ref == r && OthersStay(c, d, r) && d.blocks[r].key == g.blocks[r].key
    ensures AllZero(g.blocks[r].data, g.blockSize) ==>
              AllZero(MapNow(c, a, s, lba, mode, newRef).blocks[r].data, g.blockSize)
  {
    var m := Map(c, a, s, lba, mode, newRef);
    if CanLockForMap(m, a) { LockChangesOne(m, a, r); }
  }

  lemma LockChangesOne(c: Cache, a: Act, r: Ref)
    requires CanLockForMap(c, a) && c.acts[a].ref == r
    ensures var d := LockForMap(c, a);
            && a in d.acts && d.acts[a].ref == r && r in d.blocks && d.blocks[r].key == c.blocks[r].key
            && d.blocks == c.blocks[r := d.blocks[r]]
    ensures AllZero(c.blocks[r].data, c.blockSize) ==> AllZero(LockForMap(c, a).blocks[r].data, c.blockSize)
  {
  }

  /** What a map call does about its block, in the terms of a client: `us` are the uses so far. */
  ghost predicate GetsBlock(c: Cache, d: Cache, us: seq<Option<Ref>>, k: Key, r: Ref) {
    && OthersStay(c, d, r) && d.blocks[r].key == k
    && (!Cached(c.blocks, k) ==> AllZero(d.blocks[r].data, c.blockSize))
    && if Cached(c.blocks, k) then r in c.blocks && c.blocks[r].key == k
       else if |c.blocks| < c.blockCapacity then r !in c.blocks
       else
         && r in c.blocks && Free(c.blocks[r])
         && forall q :: q in c.blocks && Free(c.blocks[q]) && q != r ==> LastUse(us, r) < LastUse(us, q)
  }

  lemma MapGetsBlock(c: Cache, us: seq<Option<Ref>>, a: Act, s: SessionRef, lba: nat, mode: MapMode, newRef: Ref)
    requires IndexInv(c) && ByLastUse(us, c.lru) && CanMap(c, a, s, lba, newRef)
    ensures var d := MapNow(c, a, s, lba, mode, newRef);
            a in d.acts && GetsBlock(c, d, us, Key(c.sessions[s].sessionId, lba), d.acts[a].ref)
  {
    var k := Key(c.sessions[s].sessionId, lba);
    var (g, r) := GetBlock(c, k, newRef).value;
    GotBlock(c, k, newRef, g, r);
    GetBlockKeepsSize(c, k, newRef);
    LockStays(c, g, a, s, lba, mode, newRef, r);
    if !Cached(c.blocks, k) && |c.blocks| >= c.blockCapacity {
      VictimReusable(c);
      forall q | q in c.blocks && Free(c.blocks[q]) && q != r ensures LastUse(us, r) < LastUse(us, q) {
        VictimIsOldest(c, us, r, q);
      }
    }
  }

  /**
   After every run from a new cache, a map call gets the block that is cached for its address. If there is none it
   gets a new block, and once the cache is full the one block, of those that are idle, clean and not pinned, whose
   last use by a map call is longest ago. Nothing is left of the bytes that were in it. No other block changes.
   */
  lemma RecyclesOldest(blockSize: nat, maxBlockCount: nat, es: seq<Event>, a: Act, s: SessionRef, lba: nat,
                       mode: MapMode, newRef: Ref)
    requires CanRun(Init(blockSize, maxBlockCount), es)
    requires CanMap(EndOf(Init(blockSize, maxBlockCount), es), a, s, lba, newRef)
    ensures var c0 := Init(blockSize, maxBlockCount);
            var c := EndOf(c0, es);
            var d := Step(c, EvMap(a, s, lba, mode, newRef));
            a in d.acts && GetsBlock(c, d, Uses(c0, es), Key(c.sessions[s].sessionId, lba), d.acts[a].ref)
  {
    var c0 := Init(blockSize, maxBlockCount);
    LruIsOrderOfUse(blockSize, maxBlockCount, es);
    MapGetsBlock(EndOf(c0, es), Uses(c0, es), a, s, lba, mode, newRef);
  }

  /** A map call has to wait for a block if and only if all blocks are in use, dirty or pinned, and none is its own. */
  lemma WaitsForBlockExactly(c: Cache, a: Act, s: SessionRef, lba: nat, newRef: Ref)
    requires IndexInv(c) && IsOpen(c, s) && a !in c.acts && newRef !in c.blocks
    ensures !CanMap(c, a, s, lba, newRef) <==>
              && !Cached(c.blocks, Key(c.sessions[s].sessionId, lba)) && |c.blocks| >= c.blockCapacity
              && forall q :: q in c.blocks ==> !Free(c.blocks[q])
  {
    FindCorrect(c, Key(c.sessions[s].sessionId, lba));
    VictimReusable(c);
    forall i | 0 <= i < |c.lru| ensures c.lru[i] in c.blocks { ListsMember(c.lru, c.blocks.Keys, c.lru[i]); }
    VictimIsLeastRecentlyUsed(c.lru, c.blocks);
    forall q | q in c.blocks ensures q in c.lru { ListsMember(c.lru, c.blocks.Keys, q); }
  }

  /** A block that is in use, dirty or pinned stays in the cache under its address, whatever the step. */
  lemma BusyStays(c: Cache, e: Event, r: Ref)
    requires IndexInv(c) && Enabled(c, e) && r in c.blocks && !Free(c.blocks[r])
    ensures r in Step(c, e).blocks && Step(c, e).blocks[r].key == c.blocks[r].key
  {
    if e.EvMap? {
      var k := Key(c.sessions[e.s].sessionId, e.lba);
      var (g, q) := GetBlock(c, k, e.newRef).value;
      GotBlock(c, k, e.newRef, g, q);
      VictimReusable(c);
      LockStays(c, g, e.a, e.s, e.lba, e.mode, e.newRef, q);
    } else {
      OthersKeepIndex(c, e);
    }
  }
}
