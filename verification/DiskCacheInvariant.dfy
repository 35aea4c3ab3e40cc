/** What every step of the disk block cache keeps. */
module DiskCacheInvariant {
  import opened DiskCacheModel
  import opened Errors
  import opened Options

  // ---------------------------------------------------------------------------------------
  // The invariant

  /** `s` lists the members of `S`, each exactly once. */
  ghost predicate Lists(s: seq<Ref>, S: set<Ref>) {
    multiset(s) == multiset(S)
  }

  /** The cached blocks whose current key hashes to chain `i`. */
  ghost function BlocksIn(blocks: map<Ref, DiskBlock>, i: nat): set<Ref> {
    set r | r in blocks && Bucket(blocks[r].key) == i
  }

  /** The LRU chain and the hash chains index exactly the cached blocks, each under its current key. */
  ghost predicate IndexInv(c: Cache) {
    && Lists(c.lru, c.blocks.Keys)
    && (forall i :: 0 <= i < HASH_CHAIN_COUNT ==> Lists(c.hash[i], BlocksIn(c.blocks, i)))
    && UniqueKeys(c.blocks)
    && c.blockCount == |c.blocks| <= c.blockCapacity
  }

  ghost predicate UniqueKeys(blocks: map<Ref, DiskBlock>) {
    forall r, q :: r in blocks && q in blocks && blocks[r].key == blocks[q].key ==> r == q
  }

  ghost function DirtySet(blocks: map<Ref, DiskBlock>): set<Ref> {
    set r | r in blocks && blocks[r].isDirty
  }

  ghost predicate DirtyInv(c: Cache) {
    c.dirtyBlockCount == |DirtySet(c.blocks)|
  }

  /** The client calls that hold a lock on the content of block `r`. */
  ghost function Holders(acts: map<Act, Activity>, r: Ref): set<Act> {
    set a | a in acts && acts[a].ref == r && acts[a].held != NotHeld
  }

  function Tokens(b: DiskBlock): nat {
    b.shareCount + if b.exclusive then 1 else 0
  }

  predicate IsWriter(p: Phase) {
    p.UnmapNeedsWrite? || p.UnmapWriting? || p.SyncNeedsWrite? || p.SyncWriting?
  }

  ghost predicate IsWriterOf(acts: map<Act, Activity>, a: Act, r: Ref) {
    a in acts && acts[a].ref == r && IsWriter(acts[a].phase)
  }

  /** What a client call in some phase knows about its block. */
  ghost predicate ActOk(b: DiskBlock, x: Activity) {
    && x.key == b.key
    && (x.held != NotHeld ==> (x.held == HeldExclusive <==> b.exclusive))
    && (x.touched ==> x.phase.Mapped? && x.held == HeldExclusive)
    && match x.phase
       case MapWait(mode, lock) => x.held == NotHeld && (lock == Shared ==> mode == ReadOnly && b.hasData)
       case MapNeedsRead(mode) =>
         x.held == HeldExclusive && b.op == Idle && !b.hasData && (mode == ReadOnly || mode == Update)
       case MapReading(mode) =>
         && x.held == HeldExclusive && (mode == ReadOnly || mode == Update)
         && (b.op == Idle && b.readError == EOK ==> b.hasData)
       case Mapped(mode) =>
         && x.held != NotHeld && b.hasData && (mode != ReadOnly ==> x.held == HeldExclusive)
         && (x.held == HeldExclusive ==> b.op == Idle)
       case UnmapNeedsWrite => x.held == HeldShared && b.hasData && b.op == Idle
       case SyncNeedsWrite => x.held == HeldShared && b.hasData && b.op == Idle && b.isDirty
       case UnmapWriting => x.held == HeldShared && b.hasData
       case SyncWriting => x.held == HeldShared && b.hasData
  }

  /** The flags of a block that `holders` clients have locked. */
  ghost predicate FlagsOk(b: DiskBlock, holders: nat) {
    && (b.exclusive ==> b.shareCount == 0)
    && Tokens(b) == holders
    && (b.op == Read ==> b.exclusive && !b.hasData)
    && (b.op == Write ==> !b.exclusive && b.shareCount > 0)
    && (b.isDirty ==> b.hasData)
    && !b.isAsync
  }

  ghost predicate UsersOk(b: DiskBlock, r: Ref, acts: map<Act, Activity>) {
    forall a :: a in acts && acts[a].ref == r ==> ActOk(b, acts[a])
  }

  /** At most one client writes a block, and a write in flight belongs to it. */
  ghost predicate WritersOk(b: DiskBlock, r: Ref, acts: map<Act, Activity>) {
    && (forall a, a' :: IsWriterOf(acts, a, r) && IsWriterOf(acts, a', r) ==> a == a')
    && (b.op == Write ==> exists a :: IsWriterOf(acts, a, r) && DoingIo(acts[a].phase))
  }

  /** The lock and I/O protocol of one block. */
  ghost predicate BlockInv(b: DiskBlock, r: Ref, acts: map<Act, Activity>) {
    FlagsOk(b, |Holders(acts, r)|) && UsersOk(b, r, acts) && WritersOk(b, r, acts)
  }

  ghost predicate LocksInv(blocks: map<Ref, DiskBlock>, acts: map<Act, Activity>) {
    && (forall a :: a in acts ==> acts[a].ref in blocks)
    && (forall r :: r in blocks ==> BlockInv(blocks[r], r, acts))
  }

  predicate CountsAsMapping(p: Phase) {
    p.Mapped? || p.UnmapNeedsWrite? || p.UnmapWriting?
  }

  ghost function MappingsOf(acts: map<Act, Activity>, s: SessionRef): set<Act> {
    set a | a in acts && acts[a].s == s && CountsAsMapping(acts[a].phase)
  }

  ghost predicate SessionOk(c: Cache, s: SessionRef)
    requires s in c.sessions
  {
    var x := c.sessions[s];
    if x.isOpen then
      && 0 < x.sessionId < c.nextAvailSessionId
      && x.activeMappingsCount == |MappingsOf(c.acts, s)|
      && x.dopsCache + |x.dopsInUse| == 1
      && forall i :: 0 <= i < |x.dopsInUse| ==> DiskOpOk(c.blocks, x.dopsInUse[i], x.sessionId)
    else
      x.dopsInUse == []
  }

  ghost predicate DiskOpOk(blocks: map<Ref, DiskBlock>, d: DiskOp, sid: nat) {
    d.kind != Idle && d.blk in blocks && blocks[d.blk].op == d.kind && blocks[d.blk].key.sid == sid
  }

  ghost predicate SameId(c: Cache, s: SessionRef, q: SessionRef) {
    IsOpen(c, s) && IsOpen(c, q) && c.sessions[s].sessionId == c.sessions[q].sessionId
  }

  ghost predicate OfOpenSession(c: Cache, x: Activity) {
    IsOpen(c, x.s) && c.sessions[x.s].sessionId == x.key.sid
  }

  ghost predicate SessionsInv(c: Cache) {
    && (forall s :: s in c.sessions ==> SessionOk(c, s))
    && (forall s, q :: SameId(c, s, q) ==> s == q)
    && (forall a :: a in c.acts ==> OfOpenSession(c, c.acts[a]))
    && AddressesInv(c)
  }

  ghost predicate AddressesInv(c: Cache) {
    && c.nextAvailSessionId > 0
    && (forall r :: r in c.blocks ==> c.blocks[r].key.sid < c.nextAvailSessionId)
    && (forall k :: k in c.disk ==> k.sid < c.nextAvailSessionId)
  }

  ghost predicate Inv(c: Cache) {
    IndexInv(c) && DirtyInv(c) && LocksInv(c.blocks, c.acts) && SessionsInv(c)
  }

  // ---------------------------------------------------------------------------------------
  // Chains

  lemma {:induction false} WithoutElements(s: seq<Ref>, r: Ref)
    ensures multiset(Without(s, r)) == multiset(s) - multiset{r}
  {
    if s != [] {
      assert s == [s[0]] + s[1..];
      if s[0] != r {
        WithoutElements(s[1..], r);
      }
    }
  }

  lemma ListsWithout(s: seq<Ref>, S: set<Ref>, r: Ref)
    requires Lists(s, S)
    ensures Lists(Without(s, r), S - {r})
  {
    WithoutElements(s, r);
    assert multiset(S) - multiset{r} == multiset(S - {r});
  }

  lemma ListsWith(s: seq<Ref>, S: set<Ref>, r: Ref)
    requires Lists(s, S) && r !in S
    ensures Lists([r] + s, S + {r})
  {
    assert multiset(S) + multiset{r} == multiset(S + {r});
  }

  lemma ListsMember(s: seq<Ref>, S: set<Ref>, r: Ref)
    requires Lists(s, S)
    ensures r in s <==> r in S
  {
    assert r in multiset(s) <==> r in multiset(S);
  }

  lemma {:induction false} FindInChainCorrect(chain: seq<Ref>, blocks: map<Ref, DiskBlock>, k: Key)
    ensures var f := FindInChain(chain, blocks, k);
            match f
            case Some(r) => r in chain && r in blocks && blocks[r].key == k
            case None => forall r :: r in chain && r in blocks ==> blocks[r].key != k
  {
    if chain != [] {
      FindInChainCorrect(chain[1..], blocks, k);
      assert forall q :: q in chain <==> q == chain[0] || q in chain[1..];
    }
  }

  /** The lookup finds a block exactly when the key is cached. */
  lemma FindCorrect(c: Cache, k: Key)
    requires IndexInv(c)
    ensures match Find(c, k)
            case Some(r) => r in c.blocks && c.blocks[r].key == k
            case None => forall r :: r in c.blocks ==> c.blocks[r].key != k
  {
    var i := Bucket(k);
    FindInChainCorrect(c.hash[i], c.blocks, k);
    assert Lists(c.hash[i], BlocksIn(c.blocks, i));
    forall r | r in c.blocks && c.blocks[r].key == k ensures r in c.hash[i] {
      ListsMember(c.hash[i], BlocksIn(c.blocks, i), r);
    }
  }

  lemma FindsBlock(c: Cache, r: Ref)
    requires IndexInv(c) && r in c.blocks
    ensures Find(c, c.blocks[r].key) == Some(r)
  {
    FindCorrect(c, c.blocks[r].key);
  }

  /** The block chosen for reuse is the least recently used one that is idle, clean and unpinned. */
  lemma {:induction false} VictimIsLeastRecentlyUsed(lru: seq<Ref>, blocks: map<Ref, DiskBlock>)
    requires forall i :: 0 <= i < |lru| ==> lru[i] in blocks
    ensures Victim(lru, blocks).Some? ==> exists i :: LastReusable(lru, blocks, Victim(lru, blocks).value, i)
    ensures Victim(lru, blocks).None? ==> forall i :: 0 <= i < |lru| ==> !Reusable(blocks[lru[i]])
  {
    if lru != [] {
      var n := |lru| - 1;
      var front := lru[..n];
      if Reusable(blocks[lru[n]]) {
        assert Victim(lru, blocks) == Some(lru[n]);
        assert LastReusable(lru, blocks, lru[n], n);
      } else {
        VictimIsLeastRecentlyUsed(front, blocks);
        if Victim(front, blocks).Some? {
          var i :| LastReusable(front, blocks, Victim(front, blocks).value, i);
          assert LastReusable(lru, blocks, Victim(lru, blocks).value, i);
        }
      }
    }
  }

  /** `r` is reusable, stands at position `i`, and everything used less recently is not reusable. */
  ghost predicate LastReusable(lru: seq<Ref>, blocks: map<Ref, DiskBlock>, r: Ref, i: int)
    requires forall i :: 0 <= i < |lru| ==> lru[i] in blocks
  {
    0 <= i < |lru| && lru[i] == r && Reusable(blocks[r])
    && forall j :: i < j < |lru| ==> !Reusable(blocks[lru[j]])
  }

  lemma IndexFrame(c: Cache, d: Cache)
    requires IndexInv(c)
    requires d.lru == c.lru && d.hash == c.hash && d.blockCount == c.blockCount && d.blockCapacity == c.blockCapacity
    requires d.blocks.Keys == c.blocks.Keys
    requires forall r :: r in c.blocks ==> d.blocks[r].key == c.blocks[r].key
    ensures IndexInv(d)
  {
    assert |d.blocks| == |d.blocks.Keys| == |c.blocks.Keys| == |c.blocks|;
    forall i | 0 <= i < HASH_CHAIN_COUNT ensures Lists(d.hash[i], BlocksIn(d.blocks, i)) {
      assert BlocksIn(d.blocks, i) == BlocksIn(c.blocks, i);
    }
  }

  lemma RecentUseIndex(c: Cache, r: Ref)
    requires IndexInv(c) && r in c.blocks
    ensures IndexInv(RecentUse(c, r))
  {
    ListsWithout(c.lru, c.blocks.Keys, r);
    ListsWith(Without(c.lru, r), c.blocks.Keys - {r}, r);
    assert c.blocks.Keys - {r} + {r} == c.blocks.Keys;
  }

  lemma CreateBlockIndex(c: Cache, r: Ref, k: Key)
    requires IndexInv(c) && r !in c.blocks && c.blockCount < c.blockCapacity
    requires forall q :: q in c.blocks ==> c.blocks[q].key != k
    ensures IndexInv(CreateBlock(c, r, k))
  {
    var d := CreateBlock(c, r, k);
    assert d.blocks.Keys == c.blocks.Keys + {r};
    ListsWith(c.lru, c.blocks.Keys, r);
    assert |d.blocks| == |d.blocks.Keys|;
    forall i | 0 <= i < HASH_CHAIN_COUNT ensures Lists(d.hash[i], BlocksIn(d.blocks, i)) {
      CreateChain(c, r, k, i);
    }
  }

  lemma CreateChain(c: Cache, r: Ref, k: Key, i: nat)
    requires IndexInv(c) && r !in c.blocks && i < HASH_CHAIN_COUNT
    ensures var d := CreateBlock(c, r, k); Lists(d.hash[i], BlocksIn(d.blocks, i))
  {
    BlocksInUpdate(c.blocks, r, NewBlock(k, c.blockSize), i);
    ListsWith(c.hash[i], BlocksIn(c.blocks, i), r);
  }

  lemma BlocksInUpdate(blocks: map<Ref, DiskBlock>, r: Ref, b: DiskBlock, i: nat)
    ensures BlocksIn(blocks[r := b], i) ==
            BlocksIn(blocks, i) - {r} + if Bucket(b.key) == i then {r} else {}
    ensures r !in blocks ==> r !in BlocksIn(blocks, i) && BlocksIn(blocks, i) - {r} == BlocksIn(blocks, i)
  {
  }

  lemma RecycleBlockIndex(c: Cache, r: Ref, k: Key)
    requires IndexInv(c) && r in c.blocks
    requires forall q :: q in c.blocks ==> c.blocks[q].key != k
    ensures IndexInv(RecycleBlock(c, r, k))
  {
    var d := RecycleBlock(c, r, k);
    assert d.blocks.Keys == c.blocks.Keys;
    assert |d.blocks| == |d.blocks.Keys|;
    ListsWithout(c.lru, c.blocks.Keys, r);
    ListsWith(Without(c.lru, r), c.blocks.Keys - {r}, r);
    assert c.blocks.Keys - {r} + {r} == c.blocks.Keys;
    forall i | 0 <= i < HASH_CHAIN_COUNT ensures Lists(d.hash[i], BlocksIn(d.blocks, i)) {
      RecycleChain(c, r, k, i);
    }
  }

  lemma DeregisterChain(c: Cache, r: Ref, i: nat)
    requires IndexInv(c) && r in c.blocks && i < HASH_CHAIN_COUNT
    ensures Lists(Deregister(c, r).hash[i], BlocksIn(c.blocks, i) - {r})
  {
    var S := BlocksIn(c.blocks, i);
    if i == Bucket(c.blocks[r].key) {
      ListsWithout(c.hash[i], S, r);
    } else {
      assert S - {r} == S;
    }
  }

  lemma RecycleChain(c: Cache, r: Ref, k: Key, i: nat)
    requires IndexInv(c) && r in c.blocks && i < HASH_CHAIN_COUNT
    ensures var d := RecycleBlock(c, r, k); Lists(d.hash[i], BlocksIn(d.blocks, i))
  {
    var S := BlocksIn(c.blocks, i) - {r};
    DeregisterChain(c, r, i);
    BlocksInUpdate(c.blocks, r, c.blocks[r].(key := k, data := Zeros(c.blockSize), hasData := false), i);
    ListsWith(Deregister(c, r).hash[i], S, r);
  }
}
