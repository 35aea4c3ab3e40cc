/** Every step of the disk block cache preserves the invariant. */
module DiskCacheSteps {
  import opened DiskCacheModel
  import opened DiskCacheInvariant
  import opened Errors
  import opened Memory
  import opened Options

  /**
   What the cache needs from its environment: a session structure is opened or closed when no call
   on it is in progress, a block somebody waits for is not recycled, the driver accepts every
   request, and no wait for I/O is cancelled while the I/O is in flight.
   */
  ghost predicate Fair(c: Cache, e: Event) {
    match e
    case EvOpen(s, _) => NoCallsOn(c, s)
    case EvClose(s) => NoCallsOn(c, s)
    case EvMap(a, s, lba, _, _) =>
      IsOpen(c, s) && Recycles(c, Key(c.sessions[s].sessionId, lba)) ==> NobodyWaitsFor(c, Victim(c.lru, c.blocks))
    case EvStartIo(_, accepted) => accepted
    case EvFinish(a, cancelled) => cancelled && KnownAct(c, a) ==> !InFlight(c, a)
    case _ => true
  }

  ghost predicate NoCallsOn(c: Cache, s: SessionRef) {
    forall a :: a in c.acts ==> c.acts[a].s != s
  }

  predicate Recycles(c: Cache, k: Key) {
    Find(c, k).None? && c.blockCount >= c.blockCapacity
  }

  predicate InFlight(c: Cache, a: Act)
    requires KnownAct(c, a)
  {
    c.blocks[c.acts[a].ref].op == IoKind(c.acts[a].phase)
  }

  ghost predicate NobodyWaitsFor(c: Cache, v: Option<Ref>) {
    v.Some? ==> forall a :: a in c.acts && c.acts[a].phase.MapWait? ==> c.acts[a].ref != v.value
  }

  // ---------------------------------------------------------------------------------------
  // Frames

  /** The two activity tables agree except on `a`. */
  ghost predicate SameExcept(acts: map<Act, Activity>, acts': map<Act, Activity>, a: Act) {
    forall x :: x != a ==> (x in acts <==> x in acts') && (x in acts ==> acts[x] == acts'[x])
  }

  lemma HoldersUpdate(acts: map<Act, Activity>, acts': map<Act, Activity>, a: Act, r: Ref)
    requires SameExcept(acts, acts', a)
    ensures Holders(acts', r) ==
            Holders(acts, r) - {a} + if a in acts' && acts'[a].ref == r && acts'[a].held != NotHeld then {a} else {}
  {
  }

  lemma MappingsUpdate(acts: map<Act, Activity>, acts': map<Act, Activity>, a: Act, s: SessionRef)
    requires SameExcept(acts, acts', a)
    ensures MappingsOf(acts', s) ==
            MappingsOf(acts, s) - {a} + if a in acts' && acts'[a].s == s && CountsAsMapping(acts'[a].phase) then {a}
              else {}
  {
  }

  lemma WritersFrame(b: DiskBlock, q: Ref, acts: map<Act, Activity>, acts': map<Act, Activity>, a: Act)
    requires WritersOk(b, q, acts) && SameExcept(acts, acts', a)
    requires !IsWriterOf(acts, a, q) && !IsWriterOf(acts', a, q)
    ensures WritersOk(b, q, acts')
  {
    assert forall x :: IsWriterOf(acts', x, q) ==> IsWriterOf(acts, x, q);
    if b.op == Write {
      var x :| IsWriterOf(acts, x, q) && DoingIo(acts[x].phase);
      assert IsWriterOf(acts', x, q);
    }
  }

  /** A block that no changed activity refers to keeps its protocol. */
  lemma BlockInvFrame(b: DiskBlock, q: Ref, acts: map<Act, Activity>, acts': map<Act, Activity>, a: Act)
    requires BlockInv(b, q, acts) && SameExcept(acts, acts', a)
    requires a in acts ==> acts[a].ref != q
    requires a in acts' ==> acts'[a].ref != q
    ensures BlockInv(b, q, acts')
  {
    HoldersUpdate(acts, acts', a, q);
    assert Holders(acts', q) == Holders(acts, q);
    WritersFrame(b, q, acts, acts', a);
  }

  lemma LocksUpdate(blocks: map<Ref, DiskBlock>, acts: map<Act, Activity>, r: Ref, b: DiskBlock,
                    acts': map<Act, Activity>, a: Act)
    requires LocksInv(blocks, acts) && SameExcept(acts, acts', a)
    requires a in acts ==> acts[a].ref == r
    requires a in acts' ==> acts'[a].ref == r
    requires BlockInv(b, r, acts')
    ensures LocksInv(blocks[r := b], acts')
  {
    var blocks' := blocks[r := b];
    forall q | q in blocks' ensures BlockInv(blocks'[q], q, acts') {
      if q != r { BlockInvFrame(blocks[q], q, acts, acts', a); }
    }
  }

  function Bit(p: bool): int {
    if p then 1 else 0
  }

  lemma DirtySetUpdate(blocks: map<Ref, DiskBlock>, r: Ref, b: DiskBlock)
    requires r in blocks
    ensures |DirtySet(blocks[r := b])| == |DirtySet(blocks)| + Bit(b.isDirty) - Bit(blocks[r].isDirty)
  {
    var D := DirtySet(blocks);
    assert DirtySet(blocks[r := b]) == D - {r} + if b.isDirty then {r} else {};
    assert r in D <==> blocks[r].isDirty;
  }

  /** A step on behalf of session `s` that changes one activity `a` and one block `r` of that session. */
  ghost predicate SessionStep(c: Cache, d: Cache, s: SessionRef, a: Act, r: Ref) {
    && IsOpen(c, s) && IsOpen(d, s) && SameExcept(c.acts, d.acts, a)
    && d.sessions == c.sessions[s := d.sessions[s]] && d.sessions[s].sessionId == c.sessions[s].sessionId
    && d.nextAvailSessionId == c.nextAvailSessionId
    && r in c.blocks && r in d.blocks && d.blocks == c.blocks[r := d.blocks[r]]
    && c.blocks[r].key.sid == d.blocks[r].key.sid == c.sessions[s].sessionId
    && (a in c.acts ==> c.acts[a].s == s)
    && (a in d.acts ==> d.acts[a].s == s && d.acts[a].key.sid == c.sessions[s].sessionId)
  }

  lemma SessionsUpdate(c: Cache, d: Cache, s: SessionRef, a: Act, r: Ref)
    requires SessionsInv(c) && SessionStep(c, d, s, a, r) && SessionOk(d, s)
    requires forall k :: k in d.disk ==> k.sid < c.nextAvailSessionId
    ensures SessionsInv(d)
  {
    forall q | q in d.sessions && q != s ensures SessionOk(d, q) {
      OtherSession(c, d, s, a, r, q);
    }
    forall x | x in d.acts ensures OfOpenSession(d, d.acts[x]) {
      if x != a { assert OfOpenSession(c, c.acts[x]); }
    }
    forall q, q' | SameId(d, q, q') ensures q == q' {
      assert SameId(c, q, q');
    }
  }

  lemma DiskOpsFrame(blocks: map<Ref, DiskBlock>, r: Ref, b: DiskBlock, ops: seq<DiskOp>, sid: nat)
    requires r in blocks && blocks[r].key.sid != sid
    requires forall i :: 0 <= i < |ops| ==> DiskOpOk(blocks, ops[i], sid)
    ensures forall i :: 0 <= i < |ops| ==> DiskOpOk(blocks[r := b], ops[i], sid)
  {
    forall i | 0 <= i < |ops| ensures DiskOpOk(blocks[r := b], ops[i], sid) {
      assert DiskOpOk(blocks, ops[i], sid);
    }
  }

  lemma OtherSession(c: Cache, d: Cache, s: SessionRef, a: Act, r: Ref, q: SessionRef)
    requires SessionsInv(c) && SessionStep(c, d, s, a, r) && q in c.sessions && q != s
    ensures SessionOk(d, q)
  {
    var x := c.sessions[q];
    assert SessionOk(c, q);
    assert !SameId(c, s, q);
    assert MappingsOf(d.acts, q) == MappingsOf(c.acts, q) by { MappingsUpdate(c.acts, d.acts, a, q); }
    if x.isOpen {
      DiskOpsFrame(c.blocks, r, d.blocks[r], x.dopsInUse, x.sessionId);
    }
  }

  /** A change to one block, one activity and one session. */
  datatype Change = Change(s: SessionRef, session: Session, a: Act, act: Option<Activity>, r: Ref, b: DiskBlock,
                           dirtyBlockCount: int, disk: map<Key, Bytes>)

  ghost function ActsAfter(acts: map<Act, Activity>, ch: Change): map<Act, Activity> {
    match ch.act
    case Some(x) => acts[ch.a := x]
    case None => acts - {ch.a}
  }

  ghost function Apply(c: Cache, ch: Change): Cache {
    c.(blocks := c.blocks[ch.r := ch.b], acts := ActsAfter(c.acts, ch), sessions := c.sessions[ch.s := ch.session],
       dirtyBlockCount := ch.dirtyBlockCount, disk := ch.disk)
  }

  /** The change is made on behalf of one open session, on one of its blocks. */
  ghost predicate OnOneBlock(c: Cache, ch: Change) {
    && IsOpen(c, ch.s) && ch.session.isOpen && ch.session.sessionId == c.sessions[ch.s].sessionId
    && ch.r in c.blocks && ch.b.key == c.blocks[ch.r].key && ch.b.key.sid == ch.session.sessionId
    && (ch.a in c.acts ==> c.acts[ch.a].s == ch.s && c.acts[ch.a].ref == ch.r)
    && (ch.act.Some? ==> ch.act.value.s == ch.s && ch.act.value.ref == ch.r
                         && ch.act.value.key.sid == ch.session.sessionId)
  }

  lemma ApplyIsSessionStep(c: Cache, ch: Change)
    requires OnOneBlock(c, ch)
    ensures SessionStep(c, Apply(c, ch), ch.s, ch.a, ch.r)
  {
  }

  ghost predicate Accounts(c: Cache, ch: Change)
    requires OnOneBlock(c, ch)
  {
    && ch.dirtyBlockCount == c.dirtyBlockCount + Bit(ch.b.isDirty) - Bit(c.blocks[ch.r].isDirty)
    && ch.session.activeMappingsCount == c.sessions[ch.s].activeMappingsCount
                                         + Bit(IsMapping(ActsAfter(c.acts, ch), ch.a)) - Bit(IsMapping(c.acts, ch.a))
    && ch.session.dopsCache + |ch.session.dopsInUse| == 1
    && (forall i :: 0 <= i < |ch.session.dopsInUse| ==>
                      DiskOpOk(c.blocks[ch.r := ch.b], ch.session.dopsInUse[i], ch.session.sessionId))
    && ch.disk.Keys <= c.disk.Keys + {ch.b.key}
  }

  lemma ApplySessions(c: Cache, ch: Change)
    requires SessionsInv(c) && OnOneBlock(c, ch) && Accounts(c, ch)
    ensures SessionsInv(Apply(c, ch))
  {
    var d := Apply(c, ch);
    ApplyIsSessionStep(c, ch);
    assert SessionOk(d, ch.s) by {
      assert SessionOk(c, ch.s);
      MappingCount(c, d, ch.s, ch.a, ch.r);
    }
    SessionsUpdate(c, d, ch.s, ch.a, ch.r);
  }

  ghost predicate Sound(c: Cache, ch: Change) {
    OnOneBlock(c, ch) && Accounts(c, ch) && BlockInv(ch.b, ch.r, ActsAfter(c.acts, ch))
  }

  lemma ApplyIndex(c: Cache, ch: Change)
    requires IndexInv(c) && OnOneBlock(c, ch)
    ensures IndexInv(Apply(c, ch))
  {
    IndexFrame(c, Apply(c, ch));
  }

  lemma ApplyDirty(c: Cache, ch: Change)
    requires DirtyInv(c) && OnOneBlock(c, ch) && Accounts(c, ch)
    ensures DirtyInv(Apply(c, ch))
  {
    DirtySetUpdate(c.blocks, ch.r, ch.b);
  }

  lemma ApplyLocks(c: Cache, ch: Change)
    requires LocksInv(c.blocks, c.acts) && OnOneBlock(c, ch) && BlockInv(ch.b, ch.r, ActsAfter(c.acts, ch))
    ensures LocksInv(Apply(c, ch).blocks, Apply(c, ch).acts)
  {
    LocksUpdate(c.blocks, c.acts, ch.r, ch.b, ActsAfter(c.acts, ch), ch.a);
  }

  /** A sound change to one block keeps the invariant of the whole cache. */
  lemma ApplyKeepsInv(c: Cache, ch: Change)
    requires Inv(c) && Sound(c, ch)
    ensures Inv(Apply(c, ch))
  {
    ApplyIndex(c, ch);
    ApplyDirty(c, ch);
    ApplyLocks(c, ch);
    ApplySessions(c, ch);
  }

  /** No disk operation starts or ends. */
  lemma SameOps(c: Cache, ch: Change)
    requires OnOneBlock(c, ch) && SessionOk(c, ch.s)
    requires ch.session.dopsInUse == c.sessions[ch.s].dopsInUse && ch.session.dopsCache == c.sessions[ch.s].dopsCache
    requires ch.b.op == c.blocks[ch.r].op
    ensures ch.session.dopsCache + |ch.session.dopsInUse| == 1
    ensures forall i :: 0 <= i < |ch.session.dopsInUse| ==>
                          DiskOpOk(c.blocks[ch.r := ch.b], ch.session.dopsInUse[i], ch.session.sessionId)
  {
    forall i | 0 <= i < |ch.session.dopsInUse|
      ensures DiskOpOk(c.blocks[ch.r := ch.b], ch.session.dopsInUse[i], ch.session.sessionId) {
      assert DiskOpOk(c.blocks, ch.session.dopsInUse[i], ch.session.sessionId);
    }
  }

  predicate IsMapping(acts: map<Act, Activity>, a: Act) {
    a in acts && CountsAsMapping(acts[a].phase)
  }

  lemma MappingCount(c: Cache, d: Cache, s: SessionRef, a: Act, r: Ref)
    requires SessionsInv(c) && SessionStep(c, d, s, a, r)
    ensures |MappingsOf(d.acts, s)| == |MappingsOf(c.acts, s)| + Bit(IsMapping(d.acts, a)) - Bit(IsMapping(c.acts, a))
  {
    MappingsUpdate(c.acts, d.acts, a, s);
    assert a in MappingsOf(c.acts, s) <==> IsMapping(c.acts, a);
  }

  // ---------------------------------------------------------------------------------------
  // One block

  lemma NoHolders(b: DiskBlock, r: Ref, acts: map<Act, Activity>)
    requires BlockInv(b, r, acts) && !InUse(b)
    ensures Holders(acts, r) == {}
    ensures forall a :: a in acts && acts[a].ref == r ==> acts[a].phase.MapWait?
  {
    assert |Holders(acts, r)| == 0;
    forall a | a in acts && acts[a].ref == r ensures acts[a].phase.MapWait? {
      assert a !in Holders(acts, r);
      assert ActOk(b, acts[a]);
    }
  }

  /** The only other clients of an exclusively locked block wait for it. */
  lemma SoleHolder(b: DiskBlock, r: Ref, acts: map<Act, Activity>, a: Act)
    requires BlockInv(b, r, acts) && b.exclusive && a in Holders(acts, r)
    ensures Holders(acts, r) == {a}
    ensures forall x :: x in acts && acts[x].ref == r && x != a ==> acts[x].phase.MapWait?
  {
    var H := Holders(acts, r);
    assert |H| == 1;
    assert |H - {a}| == 0;
    forall x | x in acts && acts[x].ref == r && x != a ensures acts[x].phase.MapWait? {
      assert x !in H - {a};
      assert ActOk(b, acts[x]);
    }
  }

  /** A client that holds no lock acquires one. */
  lemma Acquire(b: DiskBlock, b': DiskBlock, r: Ref, acts: map<Act, Activity>, acts': map<Act, Activity>, a: Act,
                mode: LockMode)
    requires BlockInv(b, r, acts) && CanLock(b, mode) && SameExcept(acts, acts', a)
    requires a in acts ==> acts[a].held == NotHeld && !IsWriter(acts[a].phase)
    requires a in acts' && acts'[a].ref == r && acts'[a].held == HeldBy(mode)
    requires b'.shareCount == Lock(b, mode).shareCount && b'.exclusive == Lock(b, mode).exclusive
    requires b'.key == b.key && b'.op == b.op && b'.isDirty == b.isDirty && b'.isAsync == b.isAsync
    requires b'.readError == b.readError
    requires b.hasData ==> b'.hasData
    requires ActOk(b', acts'[a])
    requires IsWriter(acts'[a].phase) ==> !InUse(b)
    requires b'.hasData == b.hasData || !InUse(b)
    ensures BlockInv(b', r, acts')
  {
    HoldersUpdate(acts, acts', a, r);
    assert |Holders(acts', r)| == |Holders(acts, r)| + 1;
    if !InUse(b) {
      NoHolders(b, r, acts);
    }
    assert FlagsOk(b', |Holders(acts', r)|);
    forall x | x in acts' && acts'[x].ref == r ensures ActOk(b', acts'[x]) {
      if x != a { assert ActOk(b, acts[x]); }
    }
    if !InUse(b) {
      assert forall x :: IsWriterOf(acts', x, r) ==> x == a;
    } else {
      WritersFrame(b, r, acts, acts', a);
    }
  }

  /** A client drops its lock and ends its call. */
  lemma Drop(b: DiskBlock, r: Ref, acts: map<Act, Activity>, acts': map<Act, Activity>, a: Act)
    requires BlockInv(b, r, acts) && a in Holders(acts, r) && SameExcept(acts, acts', a) && a !in acts'
    requires b.op != Read && (b.op == Write ==> !DoingIo(acts[a].phase))
    ensures InUse(b) && BlockInv(Unlock(b), r, acts')
  {
    HoldersUpdate(acts, acts', a, r);
    assert |Holders(acts', r)| == |Holders(acts, r)| - 1;
    assert InUse(b);
    if b.exclusive { SoleHolder(b, r, acts, a); }
    assert forall x :: IsWriterOf(acts', x, r) ==> IsWriterOf(acts, x, r);
    if b.op == Write {
      var w :| IsWriterOf(acts, w, r) && DoingIo(acts[w].phase);
      assert IsWriterOf(acts', w, r);
      assert ActOk(b, acts[w]);
      assert w in Holders(acts', r);
    }
    forall x | x in acts' && acts'[x].ref == r ensures ActOk(Unlock(b), acts'[x]) {
      assert ActOk(b, acts[x]);
    }
  }

  /** An exclusive holder changes its phase; nobody else holds the block. */
  lemma ExclusiveChange(b: DiskBlock, b': DiskBlock, r: Ref, acts: map<Act, Activity>, acts': map<Act, Activity>,
                        a: Act)
    requires BlockInv(b, r, acts) && b.exclusive && a in Holders(acts, r) && SameExcept(acts, acts', a)
    requires a in acts' && acts'[a].ref == r && acts'[a].held != NotHeld && ActOk(b', acts'[a])
    requires b'.key == b.key && FlagsOk(b', 1) && b'.op != Write && (b.hasData ==> b'.hasData)
    ensures BlockInv(b', r, acts')
  {
    SoleHolder(b, r, acts, a);
    HoldersUpdate(acts, acts', a, r);
    assert Holders(acts', r) == {a};
    forall x | x in acts' && acts'[x].ref == r ensures ActOk(b', acts'[x]) {
      if x != a { assert ActOk(b, acts[x]); }
    }
    assert forall x :: IsWriterOf(acts', x, r) ==> x == a;
  }

  /** The one writer of a shared block submits its write. */
  lemma SubmitWrite(b: DiskBlock, b': DiskBlock, r: Ref, acts: map<Act, Activity>, acts': map<Act, Activity>, a: Act)
    requires BlockInv(b, r, acts) && IsWriterOf(acts, a, r) && NeedsIo(acts[a].phase)
    requires SameExcept(acts, acts', a) && a in acts' && acts'[a] == acts[a].(phase := Submitted(acts[a].phase))
    requires b' == b.(op := Write, isAsync := false, readError := EOK)
    ensures BlockInv(b', r, acts')
  {
    assert ActOk(b, acts[a]);
    HoldersUpdate(acts, acts', a, r);
    assert a in Holders(acts, r);
    assert Holders(acts', r) == Holders(acts, r);
    forall x | x in acts' && acts'[x].ref == r ensures ActOk(b', acts'[x]) {
      if x != a {
        assert ActOk(b, acts[x]);
        assert !IsWriterOf(acts, x, r);
      }
    }
    assert IsWriterOf(acts', a, r) && DoingIo(acts'[a].phase);
    assert forall x :: IsWriterOf(acts', x, r) ==> IsWriterOf(acts, x, r);
  }

  /** A disk operation ends. */
  lemma DoneBlock(b: DiskBlock, r: Ref, acts: map<Act, Activity>, status: Errno, incoming: Bytes)
    requires BlockInv(b, r, acts) && b.op != Idle
    ensures BlockInv(BlockDone(b, b.op, status, incoming), r, acts)
  {
    var b' := BlockDone(b, b.op, status, incoming);
    if b.op == Write {
      var w :| IsWriterOf(acts, w, r) && DoingIo(acts[w].phase);
      forall x | x in acts && acts[x].ref == r ensures ActOk(b', acts[x]) {
        assert ActOk(b, acts[x]);
        if x != w { assert !IsWriterOf(acts, x, r); }
      }
    } else {
      forall x | x in acts && acts[x].ref == r ensures ActOk(b', acts[x]) {
        assert ActOk(b, acts[x]);
      }
    }
  }

  // ---------------------------------------------------------------------------------------
  // Steps

  /** What a step by activity `a` needs to know. */
  ghost predicate Local(c: Cache, a: Act) {
    && KnownAct(c, a) && IsOpen(c, c.acts[a].s) && SessionOk(c, c.acts[a].s)
    && var b := c.blocks[c.acts[a].ref];
       BlockInv(b, c.acts[a].ref, c.acts) && ActOk(b, c.acts[a])
       && b.key.sid == c.sessions[c.acts[a].s].sessionId
  }

  lemma Localize(c: Cache, a: Act)
    requires Inv(c) && a in c.acts
    ensures Local(c, a)
  {
    assert OfOpenSession(c, c.acts[a]);
    assert BlockInv(c.blocks[c.acts[a].ref], c.acts[a].ref, c.acts);
  }

  lemma LockBlock(b: DiskBlock, x: Activity, x': Activity, acts: map<Act, Activity>, a: Act, blockSize: nat)
    requires BlockInv(b, x.ref, acts) && a in acts && acts[a] == x && x.phase.MapWait? && CanLock(b, x.phase.lock)
    requires var b' := LockedForMap(b, x.phase.mode, x.phase.lock, blockSize);
             x' == x.(held := HeldBy(x.phase.lock),
                      phase := if b'.hasData then Mapped(x.phase.mode) else MapNeedsRead(x.phase.mode),
                      touched := x.phase.mode == Cleared || x.phase.mode == Replace)
    ensures BlockInv(LockedForMap(b, x.phase.mode, x.phase.lock, blockSize), x.ref, acts[a := x'])
  {
    var b' := LockedForMap(b, x.phase.mode, x.phase.lock, blockSize);
    assert ActOk(b, x);
    assert ActOk(b', x') by { if !InUse(b) { NoHolders(b, x.ref, acts); } }
    Acquire(b, b', x.ref, acts, acts[a := x'], a, x.phase.lock);
  }

  /** The change that a step to the activity `a` makes when it leads to `d`. */
  ghost function ChangeOf(c: Cache, d: Cache, a: Act): Change
    requires KnownAct(c, a) && c.acts[a].ref in d.blocks && c.acts[a].s in d.sessions
  {
    var x := c.acts[a];
    Change(x.s, d.sessions[x.s], a, if a in d.acts then Some(d.acts[a]) else None, x.ref, d.blocks[x.ref],
           d.dirtyBlockCount, d.disk)
  }

  lemma LockChange(c: Cache, a: Act)
    requires CanLockForMap(c, a)
    ensures var d := LockForMap(c, a); d == Apply(c, ChangeOf(c, d, a))
  {
    var d := LockForMap(c, a);
    assert d.sessions == c.sessions[c.acts[a].s := d.sessions[c.acts[a].s]];
  }

  lemma LockSound(c: Cache, a: Act)
    requires Local(c, a) && CanLockForMap(c, a)
    ensures Sound(c, ChangeOf(c, LockForMap(c, a), a))
  {
    var d := LockForMap(c, a);
    var x := c.acts[a];
    LockBlock(c.blocks[x.ref], x, d.acts[a], c.acts, a, c.blockSize);
    SameOps(c, ChangeOf(c, d, a));
  }

  lemma LockStep(c: Cache, a: Act)
    requires Inv(c) && CanLockForMap(c, a)
    ensures Inv(LockForMap(c, a))
  {
    Localize(c, a);
    LockSound(c, a);
    LockChange(c, a);
    ApplyKeepsInv(c, ChangeOf(c, LockForMap(c, a), a));
  }

  /** A call whose wait for the lock is interrupted ends; it holds nothing that it would have to give back. */
  lemma GiveUpBlock(b: DiskBlock, r: Ref, acts: map<Act, Activity>, a: Act)
    requires BlockInv(b, r, acts) && a in acts && acts[a].ref == r && acts[a].phase.MapWait?
    ensures BlockInv(b, r, acts - {a})
  {
    assert ActOk(b, acts[a]);
    HoldersUpdate(acts, acts - {a}, a, r);
    assert Holders(acts - {a}, r) == Holders(acts, r);
    WritersFrame(b, r, acts, acts - {a}, a);
  }

  lemma GiveUpSound(c: Cache, a: Act)
    requires Local(c, a) && CanGiveUp(c, a)
    ensures var ch := ChangeOf(c, EndAct(c, a), a); Sound(c, ch) && EndAct(c, a) == Apply(c, ch)
  {
    var x := c.acts[a];
    GiveUpBlock(c.blocks[x.ref], x.ref, c.acts, a);
    assert c.sessions == c.sessions[x.s := c.sessions[x.s]] && c.blocks == c.blocks[x.ref := c.blocks[x.ref]];
    SameOps(c, ChangeOf(c, EndAct(c, a), a));
  }

  lemma GiveUpStep(c: Cache, a: Act)
    requires Inv(c) && CanGiveUp(c, a)
    ensures Inv(EndAct(c, a))
  {
    Localize(c, a);
    GiveUpSound(c, a);
    ApplyKeepsInv(c, ChangeOf(c, EndAct(c, a), a));
  }

  lemma StoreChange(c: Cache, a: Act, data: Bytes)
    requires CanStore(c, a)
    ensures var d := Store(c, a, data); d == Apply(c, ChangeOf(c, d, a))
  {
    assert c.sessions == c.sessions[c.acts[a].s := c.sessions[c.acts[a].s]];
  }

  lemma StoreSound(c: Cache, a: Act, data: Bytes)
    requires Local(c, a) && CanStore(c, a)
    ensures Sound(c, ChangeOf(c, Store(c, a, data), a))
  {
    var d := Store(c, a, data);
    var x := c.acts[a];
    ExclusiveChange(c.blocks[x.ref], d.blocks[x.ref], x.ref, c.acts, d.acts, a);
    SameOps(c, ChangeOf(c, d, a));
  }

  lemma StoreStep(c: Cache, a: Act, data: Bytes)
    requires Inv(c) && CanStore(c, a)
    ensures Inv(Store(c, a, data))
  {
    Localize(c, a);
    StoreSound(c, a, data);
    StoreChange(c, a, data);
    ApplyKeepsInv(c, ChangeOf(c, Store(c, a, data), a));
  }

  lemma StartIoChange(c: Cache, a: Act)
    requires CanStartIo(c, a)
    ensures var d := StartIo(c, a, true); d == Apply(c, ChangeOf(c, d, a))
  {
  }

  lemma StartIoBlock(b: DiskBlock, r: Ref, acts: map<Act, Activity>, a: Act)
    requires BlockInv(b, r, acts) && a in acts && acts[a].ref == r && NeedsIo(acts[a].phase)
    ensures BlockInv(b.(op := IoKind(acts[a].phase), isAsync := false, readError := EOK), r,
                     acts[a := acts[a].(phase := Submitted(acts[a].phase))])
  {
    var x := acts[a];
    var b' := b.(op := IoKind(x.phase), isAsync := false, readError := EOK);
    var acts' := acts[a := x.(phase := Submitted(x.phase))];
    assert ActOk(b, x);
    if x.phase.MapNeedsRead? {
      ExclusiveChange(b, b', r, acts, acts', a);
    } else {
      SubmitWrite(b, b', r, acts, acts', a);
    }
  }

  lemma StartIoSound(c: Cache, a: Act)
    requires Local(c, a) && CanStartIo(c, a)
    ensures Sound(c, ChangeOf(c, StartIo(c, a, true), a))
  {
    var x := c.acts[a];
    StartIoBlock(c.blocks[x.ref], x.ref, c.acts, a);
  }

  lemma StartIoStep(c: Cache, a: Act)
    requires Inv(c) && CanStartIo(c, a)
    ensures Inv(StartIo(c, a, true))
  {
    Localize(c, a);
    StartIoSound(c, a);
    StartIoChange(c, a);
    ApplyKeepsInv(c, ChangeOf(c, StartIo(c, a, true), a));
  }

  lemma FinishChange(c: Cache, a: Act, cancelled: bool)
    requires CanFinish(c, a, cancelled)
    ensures var d := Finish(c, a, cancelled); d == Apply(c, ChangeOf(c, d, a))
  {
    var d := Finish(c, a, cancelled);
    var x := c.acts[a];
    assert d.sessions == c.sessions[x.s := d.sessions[x.s]];
    assert d.blocks == c.blocks[x.ref := d.blocks[x.ref]];
  }

  lemma FinishBlock(b: DiskBlock, b': DiskBlock, acts: map<Act, Activity>, a: Act, x': Activity)
    requires a in acts && BlockInv(b, acts[a].ref, acts) && DoingIo(acts[a].phase) && b.op == Idle
    requires acts[a].phase.MapReading? && b.readError == EOK
    requires var ro := acts[a].phase.mode == ReadOnly;
             && b.exclusive && b' == (if ro then Downgrade(b) else b)
             && x' == acts[a].(phase := Mapped(acts[a].phase.mode), held := if ro then HeldShared else HeldExclusive)
    ensures BlockInv(b', acts[a].ref, acts[a := x'])
  {
    assert ActOk(b, acts[a]);
    ExclusiveChange(b, b', acts[a].ref, acts, acts[a := x'], a);
  }

  lemma FinishSound(c: Cache, a: Act, cancelled: bool)
    requires Local(c, a) && CanFinish(c, a, cancelled) && !InFlight(c, a)
    ensures Sound(c, ChangeOf(c, Finish(c, a, cancelled), a))
  {
    var x := c.acts[a];
    var b := c.blocks[x.ref];
    var d := Finish(c, a, cancelled);
    assert b.op == Idle;
    if x.phase.MapReading? && b.readError == EOK && !cancelled {
      FinishBlock(b, d.blocks[x.ref], c.acts, a, d.acts[a]);
    } else {
      Drop(b, x.ref, c.acts, c.acts - {a}, a);
      assert d.blocks[x.ref] == Unlock(b);
    }
    SameOps(c, ChangeOf(c, d, a));
  }

  lemma FinishStep(c: Cache, a: Act, cancelled: bool)
    requires Inv(c) && CanFinish(c, a, cancelled) && !InFlight(c, a)
    ensures Inv(Finish(c, a, cancelled))
  {
    Localize(c, a);
    FinishSound(c, a, cancelled);
    FinishChange(c, a, cancelled);
    ApplyKeepsInv(c, ChangeOf(c, Finish(c, a, cancelled), a));
  }

  lemma UnmapChange(c: Cache, a: Act, wmode: WriteMode)
    requires CanUnmap(c, a, wmode)
    ensures var d := Unmap(c, a, wmode); d == Apply(c, ChangeOf(c, d, a))
  {
    var d := Unmap(c, a, wmode);
    var x := c.acts[a];
    assert d.sessions == c.sessions[x.s := d.sessions[x.s]];
    assert d.blocks == c.blocks[x.ref := d.blocks[x.ref]];
  }

  lemma MarkDirty(b: DiskBlock, r: Ref, acts: map<Act, Activity>)
    requires BlockInv(b, r, acts) && b.hasData
    ensures BlockInv(b.(isDirty := true), r, acts)
  {
    forall x | x in acts && acts[x].ref == r ensures ActOk(b.(isDirty := true), acts[x]) {
      assert ActOk(b, acts[x]);
    }
  }

  lemma UnmapSound(c: Cache, a: Act, wmode: WriteMode)
    requires Local(c, a) && CanUnmap(c, a, wmode)
    ensures Sound(c, ChangeOf(c, Unmap(c, a, wmode), a))
  {
    var x := c.acts[a];
    var b := c.blocks[x.ref];
    var d := Unmap(c, a, wmode);
    if wmode == Sync && !b.isPinned {
      ExclusiveChange(b, d.blocks[x.ref], x.ref, c.acts, d.acts, a);
    } else if wmode == Deferred {
      MarkDirty(b, x.ref, c.acts);
      Drop(b.(isDirty := true), x.ref, c.acts, c.acts - {a}, a);
    } else {
      Drop(b, x.ref, c.acts, c.acts - {a}, a);
      assert d.blocks[x.ref] == Unlock(b);
    }
    SameOps(c, ChangeOf(c, d, a));
  }

  lemma UnmapStep(c: Cache, a: Act, wmode: WriteMode)
    requires Inv(c) && CanUnmap(c, a, wmode)
    ensures Inv(Unmap(c, a, wmode))
  {
    Localize(c, a);
    UnmapSound(c, a, wmode);
    UnmapChange(c, a, wmode);
    ApplyKeepsInv(c, ChangeOf(c, Unmap(c, a, wmode), a));
  }

  /** What a step on block `r` of session `s` needs to know. */
  ghost predicate LocalBlock(c: Cache, s: SessionRef, r: Ref) {
    && IsOpen(c, s) && SessionOk(c, s) && r in c.blocks && BlockInv(c.blocks[r], r, c.acts)
    && c.blocks[r].key.sid == c.sessions[s].sessionId
  }

  /** There is always another activity identifier. */
  lemma FreshAct(acts: set<Act>) returns (a: Act)
    ensures a !in acts
  {
    a := 0;
    ghost var bound := acts;
    while bound != {}
      invariant forall x :: x in acts ==> x in bound || x < a
      decreases |bound|
    {
      var x :| x in bound;
      if a <= x { a := x + 1; }
      bound := bound - {x};
    }
  }

  /** A change to block `r` of session `s` that changes no activity. */
  ghost function BlockChange(c: Cache, d: Cache, s: SessionRef, a: Act, r: Ref): Change
    requires s in d.sessions && r in d.blocks
  {
    Change(s, d.sessions[s], a, None, r, d.blocks[r], d.dirtyBlockCount, d.disk)
  }

  lemma IoDoneChange(c: Cache, s: SessionRef, err: Errno, rlen: nat, junk: Bytes, a: Act)
    requires CanIoDone(c, s, err, rlen) && a !in c.acts
    ensures var d := IoDone(c, s, err, rlen, junk);
            d == Apply(c, BlockChange(c, d, s, a, c.sessions[s].dopsInUse[0].blk))
  {
    assert c.acts - {a} == c.acts;
  }

  lemma IoDoneSound(c: Cache, s: SessionRef, err: Errno, rlen: nat, junk: Bytes, a: Act)
    requires CanIoDone(c, s, err, rlen) && a !in c.acts && LocalBlock(c, s, c.sessions[s].dopsInUse[0].blk)
    ensures Sound(c, BlockChange(c, IoDone(c, s, err, rlen, junk), s, a, c.sessions[s].dopsInUse[0].blk))
  {
    var o := c.sessions[s].dopsInUse[0];
    var b := c.blocks[o.blk];
    var d := IoDone(c, s, err, rlen, junk);
    assert DiskOpOk(c.blocks, o, c.sessions[s].sessionId);
    var status := Status(err, rlen, c.blockSize);
    DoneBlock(b, o.blk, c.acts, status, if status == EOK && o.kind == Read then c.disk[b.key] else junk);
    assert c.acts - {a} == c.acts;
  }

  lemma IoDoneStep(c: Cache, s: SessionRef, err: Errno, rlen: nat, junk: Bytes)
    requires Inv(c) && CanIoDone(c, s, err, rlen) && IsOpen(c, s)
    ensures Inv(IoDone(c, s, err, rlen, junk))
  {
    var o := c.sessions[s].dopsInUse[0];
    assert SessionOk(c, s);
    assert DiskOpOk(c.blocks, o, c.sessions[s].sessionId);
    assert LocalBlock(c, s, o.blk);
    var a := FreshAct(c.acts.Keys);
    IoDoneSound(c, s, err, rlen, junk, a);
    IoDoneChange(c, s, err, rlen, junk, a);
    ApplyKeepsInv(c, BlockChange(c, IoDone(c, s, err, rlen, junk), s, a, o.blk));
  }

  lemma FoundBlock(c: Cache, s: SessionRef, lba: nat)
    requires Inv(c) && Found(c, s, lba)
    ensures LocalBlock(c, s, Find(c, Key(c.sessions[s].sessionId, lba)).value)
    ensures c.blocks[Find(c, Key(c.sessions[s].sessionId, lba)).value].key == Key(c.sessions[s].sessionId, lba)
  {
    FindCorrect(c, Key(c.sessions[s].sessionId, lba));
  }

  lemma PinSound(c: Cache, s: SessionRef, r: Ref, pinned: bool, a: Act)
    requires LocalBlock(c, s, r) && a !in c.acts
    ensures var d := SetBlock(c, r, c.blocks[r].(isPinned := pinned));
            var ch := BlockChange(c, d, s, a, r);
            Sound(c, ch) && d == Apply(c, ch)
  {
    var b := c.blocks[r];
    var b' := b.(isPinned := pinned);
    var d := SetBlock(c, r, b');
    assert c.acts - {a} == c.acts;
    assert c.sessions[s := c.sessions[s]] == c.sessions;
    assert BlockInv(b', r, c.acts) by {
      forall x | x in c.acts && c.acts[x].ref == r ensures ActOk(b', c.acts[x]) {
        assert ActOk(b, c.acts[x]);
      }
    }
    SameOps(c, BlockChange(c, d, s, a, r));
  }

  lemma PinStep(c: Cache, s: SessionRef, lba: nat, pinned: bool)
    requires Inv(c) && Found(c, s, lba)
    ensures Inv(Pin(c, s, lba, pinned))
  {
    var r := Find(c, Key(c.sessions[s].sessionId, lba)).value;
    FoundBlock(c, s, lba);
    var a := FreshAct(c.acts.Keys);
    PinSound(c, s, r, pinned, a);
    ApplyKeepsInv(c, BlockChange(c, Pin(c, s, lba, pinned), s, a, r));
  }

  lemma SyncSound(c: Cache, s: SessionRef, r: Ref, a: Act)
    requires LocalBlock(c, s, r) && a !in c.acts
    requires !InUse(c.blocks[r]) && c.blocks[r].isDirty
    ensures var b' := Lock(c.blocks[r], Shared);
            var x := Activity(s, r, c.blocks[r].key, SyncNeedsWrite, HeldShared, false);
            var d := SetAct(SetBlock(c, r, b'), a, x);
            var ch := Change(s, c.sessions[s], a, Some(x), r, b', c.dirtyBlockCount, c.disk);
            Sound(c, ch) && d == Apply(c, ch)
  {
    var b := c.blocks[r];
    var x := Activity(s, r, b.key, SyncNeedsWrite, HeldShared, false);
    Acquire(b, Lock(b, Shared), r, c.acts, c.acts[a := x], a, Shared);
    assert c.sessions[s := c.sessions[s]] == c.sessions;
    SameOps(c, Change(s, c.sessions[s], a, Some(x), r, Lock(b, Shared), c.dirtyBlockCount, c.disk));
  }

  lemma SyncStep(c: Cache, a: Act, s: SessionRef, lba: nat)
    requires Inv(c) && CanSync(c, a, s, lba)
    ensures Inv(SyncBlock(c, a, s, lba))
  {
    var r := Find(c, Key(c.sessions[s].sessionId, lba)).value;
    FoundBlock(c, s, lba);
    SyncSound(c, s, r, a);
    var x := Activity(s, r, c.blocks[r].key, SyncNeedsWrite, HeldShared, false);
    ApplyKeepsInv(c, Change(s, c.sessions[s], a, Some(x), r, Lock(c.blocks[r], Shared), c.dirtyBlockCount, c.disk));
  }

  // ---------------------------------------------------------------------------------------
  // Sessions

  lemma OpenSessions(c: Cache, s: SessionRef, content: map<nat, Bytes>)
    requires SessionsInv(c) && NoCallsOn(c, s)
    ensures SessionsInv(Open(c, s, content))
  {
    var d := Open(c, s, content);
    assert MappingsOf(c.acts, s) == {};
    forall q | q in d.sessions ensures SessionOk(d, q) {
      if q != s { assert SessionOk(c, q); }
    }
    forall q, q' | SameId(d, q, q') ensures q == q' {
      OpenIds(c, s, content, d, q, q');
    }
    forall a | a in d.acts ensures OfOpenSession(d, d.acts[a]) {
      assert OfOpenSession(c, c.acts[a]);
    }
  }

  lemma OpenIds(c: Cache, s: SessionRef, content: map<nat, Bytes>, d: Cache, q: SessionRef, q': SessionRef)
    requires SessionsInv(c) && d == Open(c, s, content) && SameId(d, q, q')
    ensures q == q'
  {
    if q != s && q' != s { assert SameId(c, q, q'); }
    if q != s && q in c.sessions { assert SessionOk(c, q); }
    if q' != s && q' in c.sessions { assert SessionOk(c, q'); }
  }

  lemma OpenStep(c: Cache, s: SessionRef, content: map<nat, Bytes>)
    requires Inv(c) && NoCallsOn(c, s)
    ensures Inv(Open(c, s, content))
  {
    IndexFrame(c, Open(c, s, content));
    OpenSessions(c, s, content);
  }

  /** A session that no client call uses has no disk operation in flight. */
  lemma UnusedSession(c: Cache, s: SessionRef)
    requires Inv(c) && IsOpen(c, s) && NoCallsOn(c, s)
    ensures c.sessions[s].dopsInUse == []
  {
    assert SessionOk(c, s);
    if c.sessions[s].dopsInUse != [] {
      var o := c.sessions[s].dopsInUse[0];
      assert DiskOpOk(c.blocks, o, c.sessions[s].sessionId);
      assert BlockInv(c.blocks[o.blk], o.blk, c.acts);
      var a :| a in Holders(c.acts, o.blk);
      assert OfOpenSession(c, c.acts[a]) && ActOk(c.blocks[o.blk], c.acts[a]);
      assert SameId(c, c.acts[a].s, s);
      assert false;
    }
  }

  lemma CloseSessions(c: Cache, s: SessionRef)
    requires SessionsInv(c) && IsOpen(c, s) && c.sessions[s].dopsInUse == []
    requires NoCallsOn(c, s)
    ensures SessionsInv(Close(c, s))
  {
    var d := Close(c, s);
    forall q | q in d.sessions ensures SessionOk(d, q) {
      if q != s { assert SessionOk(c, q); }
    }
    forall q, q' | SameId(d, q, q') ensures q == q' {
      assert SameId(c, q, q');
    }
    forall a | a in d.acts ensures OfOpenSession(d, d.acts[a]) {
      assert OfOpenSession(c, c.acts[a]);
    }
  }

  lemma CloseStep(c: Cache, s: SessionRef)
    requires Inv(c) && CanClose(c, s) && NoCallsOn(c, s)
    ensures Inv(Close(c, s))
  {
    UnusedSession(c, s);
    IndexFrame(c, Close(c, s));
    CloseSessions(c, s);
  }

  // ---------------------------------------------------------------------------------------
  // Map

  lemma RecentUseStep(c: Cache, r: Ref)
    requires Inv(c) && r in c.blocks
    ensures Inv(RecentUse(c, r))
  {
    RecentUseIndex(c, r);
    SessionsFrame(c, RecentUse(c, r));
  }

  lemma SessionsFrame(c: Cache, d: Cache)
    requires SessionsInv(c) && d.sessions == c.sessions && d.acts == c.acts && d.blocks == c.blocks && d.disk == c.disk
    requires d.nextAvailSessionId == c.nextAvailSessionId
    ensures SessionsInv(d)
  {
    forall q | q in d.sessions ensures SessionOk(d, q) { assert SessionOk(c, q); }
    forall q, q' | SameId(d, q, q') ensures q == q' { assert SameId(c, q, q'); }
    forall a | a in d.acts ensures OfOpenSession(d, d.acts[a]) { assert OfOpenSession(c, c.acts[a]); }
  }

  /** Adding or retargeting a block that no client call refers to. */
  lemma UnusedBlock(c: Cache, d: Cache, r: Ref, b: DiskBlock)
    requires LocksInv(c.blocks, c.acts) && SessionsInv(c) && DirtyInv(c)
    requires d.sessions == c.sessions && d.acts == c.acts && d.disk == c.disk && d.dirtyBlockCount == c.dirtyBlockCount
    requires d.nextAvailSessionId == c.nextAvailSessionId && d.blocks == c.blocks[r := b]
    requires forall a :: a in c.acts ==> c.acts[a].ref != r
    requires r in c.blocks ==> !InUse(c.blocks[r]) && !c.blocks[r].isDirty
    requires FlagsOk(b, 0) && !b.isDirty && b.op == Idle && b.key.sid < c.nextAvailSessionId
    ensures LocksInv(d.blocks, d.acts) && SessionsInv(d) && DirtyInv(d)
  {
    assert DirtySet(d.blocks) == DirtySet(c.blocks);
    assert Holders(c.acts, r) == {};
    assert BlockInv(b, r, c.acts) by { assert forall x :: !IsWriterOf(c.acts, x, r); }
    forall q | q in d.sessions ensures SessionOk(d, q) { UnusedBlockSession(c, d, r, b, q); }
    forall q, q' | SameId(d, q, q') ensures q == q' { assert SameId(c, q, q'); }
    forall a | a in d.acts ensures OfOpenSession(d, d.acts[a]) { assert OfOpenSession(c, c.acts[a]); }
  }

  lemma UnusedBlockSession(c: Cache, d: Cache, r: Ref, b: DiskBlock, q: SessionRef)
    requires LocksInv(c.blocks, c.acts) && q in c.sessions && SessionOk(c, q)
    requires d.sessions == c.sessions && d.acts == c.acts && d.nextAvailSessionId == c.nextAvailSessionId
    requires d.blocks == c.blocks[r := b]
    requires r in c.blocks ==> !InUse(c.blocks[r])
    ensures SessionOk(d, q)
  {
    var x := c.sessions[q];
    forall i | x.isOpen && 0 <= i < |x.dopsInUse| ensures DiskOpOk(d.blocks, x.dopsInUse[i], x.sessionId) {
      assert DiskOpOk(c.blocks, x.dopsInUse[i], x.sessionId);
      assert BlockInv(c.blocks[x.dopsInUse[i].blk], x.dopsInUse[i].blk, c.acts);
    }
  }

  lemma CreateStep(c: Cache, r: Ref, k: Key)
    requires Inv(c) && r !in c.blocks && c.blockCount < c.blockCapacity && k.sid < c.nextAvailSessionId
    requires forall q :: q in c.blocks ==> c.blocks[q].key != k
    ensures Inv(CreateBlock(c, r, k))
  {
    CreateBlockIndex(c, r, k);
    UnusedBlock(c, CreateBlock(c, r, k), r, NewBlock(k, c.blockSize));
  }

  lemma RecycleStep(c: Cache, r: Ref, k: Key)
    requires Inv(c) && r in c.blocks && Reusable(c.blocks[r]) && k.sid < c.nextAvailSessionId
    requires forall q :: q in c.blocks ==> c.blocks[q].key != k
    requires forall a :: a in c.acts ==> c.acts[a].ref != r
    ensures Inv(RecycleBlock(c, r, k))
  {
    assert BlockInv(c.blocks[r], r, c.acts);
    NoHolders(c.blocks[r], r, c.acts);
    RecycleBlockIndex(c, r, k);
    UnusedBlock(c, RecycleBlock(c, r, k), r, c.blocks[r].(key := k, data := Zeros(c.blockSize), hasData := false));
  }

  /** Nobody refers to a reusable block that nobody waits for. */
  lemma VictimUnused(c: Cache, r: Ref)
    requires Inv(c) && r in c.blocks && Reusable(c.blocks[r]) && NobodyWaitsFor(c, Some(r))
    ensures forall a :: a in c.acts ==> c.acts[a].ref != r
  {
    assert BlockInv(c.blocks[r], r, c.acts);
    NoHolders(c.blocks[r], r, c.acts);
  }

  lemma VictimReusable(c: Cache)
    requires IndexInv(c)
    ensures var v := Victim(c.lru, c.blocks); v.Some? ==> v.value in c.blocks && Reusable(c.blocks[v.value])
  {
    forall i | 0 <= i < |c.lru| ensures c.lru[i] in c.blocks {
      ListsMember(c.lru, c.blocks.Keys, c.lru[i]);
    }
    VictimIsLeastRecentlyUsed(c.lru, c.blocks);
  }

  /** Looking up, creating or recycling a block keeps the invariant and yields the block with the key. */
  lemma GetBlockStep(c: Cache, k: Key, newRef: Ref)
    requires Inv(c) && newRef !in c.blocks && k.sid < c.nextAvailSessionId && GetBlock(c, k, newRef).Some?
    requires Recycles(c, k) ==> NobodyWaitsFor(c, Victim(c.lru, c.blocks))
    ensures var (d, r) := GetBlock(c, k, newRef).value;
            && Inv(d) && r in d.blocks && d.blocks[r].key == k
            && d.acts == c.acts && d.sessions == c.sessions && d.disk == c.disk
  {
    FindCorrect(c, k);
    VictimReusable(c);
    if Find(c, k).Some? {
      RecentUseStep(c, Find(c, k).value);
    } else if c.blockCount < c.blockCapacity {
      CreateStep(c, newRef, k);
      RecentUseStep(CreateBlock(c, newRef, k), newRef);
    } else {
      var r := Victim(c.lru, c.blocks).value;
      VictimUnused(c, r);
      RecycleStep(c, r, k);
      RecentUseStep(RecycleBlock(c, r, k), r);
    }
  }

  lemma WaitBlock(b: DiskBlock, r: Ref, acts: map<Act, Activity>, a: Act, x: Activity)
    requires BlockInv(b, r, acts) && a !in acts && x.phase.MapWait? && ActOk(b, x) && x.ref == r
    ensures BlockInv(b, r, acts[a := x])
  {
    var acts' := acts[a := x];
    assert Holders(acts', r) == Holders(acts, r) by { HoldersUpdate(acts, acts', a, r); }
    assert UsersOk(b, r, acts') by {
      forall y | y in acts' && acts'[y].ref == r ensures ActOk(b, acts'[y]) {
        if y != a { assert y in acts; }
      }
    }
    WritersFrame(b, r, acts, acts', a);
  }

  lemma WaitSound(c: Cache, s: SessionRef, a: Act, r: Ref, mode: MapMode, lock: LockMode)
    requires LocalBlock(c, s, r) && a !in c.acts && (lock == Shared ==> mode == ReadOnly && c.blocks[r].hasData)
    ensures var x := Activity(s, r, c.blocks[r].key, MapWait(mode, lock), NotHeld, false);
            var d := SetAct(c, a, x);
            var ch := Change(s, c.sessions[s], a, Some(x), r, c.blocks[r], c.dirtyBlockCount, c.disk);
            Sound(c, ch) && d == Apply(c, ch)
  {
    var b := c.blocks[r];
    var x := Activity(s, r, b.key, MapWait(mode, lock), NotHeld, false);
    WaitBlock(b, r, c.acts, a, x);
    assert c.sessions[s := c.sessions[s]] == c.sessions && c.blocks[r := b] == c.blocks;
    SameOps(c, Change(s, c.sessions[s], a, Some(x), r, b, c.dirtyBlockCount, c.disk));
  }

  lemma MapStep(c: Cache, a: Act, s: SessionRef, lba: nat, mode: MapMode, newRef: Ref)
    requires Inv(c) && CanMap(c, a, s, lba, newRef) && Fair(c, EvMap(a, s, lba, mode, newRef))
    ensures Inv(Map(c, a, s, lba, mode, newRef))
  {
    var k := Key(c.sessions[s].sessionId, lba);
    assert SessionOk(c, s);
    GetBlockStep(c, k, newRef);
    var (d, r) := GetBlock(c, k, newRef).value;
    var lock := if mode == ReadOnly && d.blocks[r].hasData then Shared else Exclusive;
    WaitStep(d, s, a, r, mode, lock);
  }

  lemma MapNowStep(c: Cache, a: Act, s: SessionRef, lba: nat, mode: MapMode, newRef: Ref)
    requires Inv(c) && CanMap(c, a, s, lba, newRef) && Fair(c, EvMap(a, s, lba, mode, newRef))
    ensures Inv(MapNow(c, a, s, lba, mode, newRef))
  {
    MapStep(c, a, s, lba, mode, newRef);
    var d := Map(c, a, s, lba, mode, newRef);
    if CanLockForMap(d, a) { LockStep(d, a); }
  }

  lemma WaitStep(c: Cache, s: SessionRef, a: Act, r: Ref, mode: MapMode, lock: LockMode)
    requires Inv(c) && IsOpen(c, s) && r in c.blocks && c.blocks[r].key.sid == c.sessions[s].sessionId
    requires a !in c.acts && (lock == Shared ==> mode == ReadOnly && c.blocks[r].hasData)
    ensures Inv(SetAct(c, a, Activity(s, r, c.blocks[r].key, MapWait(mode, lock), NotHeld, false)))
  {
    assert LocalBlock(c, s, r) by { assert SessionOk(c, s) && BlockInv(c.blocks[r], r, c.acts); }
    var x := Activity(s, r, c.blocks[r].key, MapWait(mode, lock), NotHeld, false);
    WaitSound(c, s, a, r, mode, lock);
    ApplyKeepsInv(c, Change(s, c.sessions[s], a, Some(x), r, c.blocks[r], c.dirtyBlockCount, c.disk));
  }

  // ---------------------------------------------------------------------------------------
  // All steps, all runs

  /** Every step that the environment's side of the contract allows keeps the invariant. */
  lemma StepKeepsInv(c: Cache, e: Event)
    requires Inv(c) && Enabled(c, e) && Fair(c, e)
    ensures Inv(Step(c, e))
  {
    match e
    case EvOpen(s, content) => OpenStep(c, s, content);
    case EvClose(s) => CloseStep(c, s);
    case EvMap(a, s, lba, mode, newRef) => MapNowStep(c, a, s, lba, mode, newRef);
    case EvLock(a) => LockStep(c, a);
    case EvGiveUp(a) => GiveUpStep(c, a);
    case EvStartIo(a, accepted) => StartIoStep(c, a);
    case EvIoDone(s, err, rlen, junk) => assert SessionOk(c, s); IoDoneStep(c, s, err, rlen, junk);
    case EvFinish(a, cancelled) => FinishStep(c, a, cancelled);
    case EvStore(a, data) => StoreStep(c, a, data);
    case EvUnmap(a, wmode) => UnmapStep(c, a, wmode);
    case EvSync(a, s, lba) => SyncStep(c, a, s, lba);
    case EvPin(s, lba, pinned) => PinStep(c, s, lba, pinned);
  }

  /** The steps can happen one after the other. */
  ghost predicate CanRun(c: Cache, es: seq<Event>)
    decreases es
  {
    es == [] || (Enabled(c, es[0]) && CanRun(Step(c, es[0]), es[1..]))
  }

  ghost function EndOf(c: Cache, es: seq<Event>): Cache
    requires CanRun(c, es)
    decreases es
  {
    if es == [] then c else EndOf(Step(c, es[0]), es[1..])
  }

  ghost predicate AllFair(c: Cache, es: seq<Event>)
    requires CanRun(c, es)
    decreases es
  {
    es == [] || (Fair(c, es[0]) && AllFair(Step(c, es[0]), es[1..]))
  }

  /** A run of steps of which each keeps the environment's side of the contract. */
  ghost predicate FairRun(c: Cache, es: seq<Event>) {
    CanRun(c, es) && AllFair(c, es)
  }

  lemma {:induction false} RunKeepsInv(c: Cache, es: seq<Event>)
    requires Inv(c) && FairRun(c, es)
    ensures Inv(EndOf(c, es))
    decreases es
  {
    if es != [] {
      StepKeepsInv(c, es[0]);
      RunKeepsInv(Step(c, es[0]), es[1..]);
    }
  }

  lemma InitHolds(blockSize: nat, maxBlockCount: nat)
    ensures Inv(Init(blockSize, maxBlockCount))
  {
    var c := Init(blockSize, maxBlockCount);
    assert DirtySet(c.blocks) == {};
    forall i | 0 <= i < HASH_CHAIN_COUNT ensures Lists(c.hash[i], BlocksIn(c.blocks, i)) {
      assert BlocksIn(c.blocks, i) == {};
    }
  }

  // ---------------------------------------------------------------------------------------
  // The environment's side of the contract is exactly what the invariant needs

  /** A request the driver refuses leaves the block marked as doing I/O without a lock for it. */
  lemma RefusedBreaks(c: Cache, a: Act)
    requires Inv(c) && CanStartIo(c, a)
    ensures !Inv(StartIo(c, a, false))
  {
    Localize(c, a);
    var d := StartIo(c, a, false);
    var r := c.acts[a].ref;
    assert !BlockInv(d.blocks[r], r, d.acts) by {
      if c.acts[a].phase.MapNeedsRead? {
        assert d.blocks[r].op == Read && !d.blocks[r].exclusive;
      } else {
        assert d.blocks[r].op == Write;
        assert IsWriterOf(c.acts, a, r);
        assert forall x :: IsWriterOf(d.acts, x, r) ==> IsWriterOf(c.acts, x, r) && x != a;
      }
    }
  }

  lemma CancelledBreaksBlock(c: Cache, a: Act)
    requires Local(c, a) && CanFinish(c, a, true) && InFlight(c, a)
    ensures var r, d := c.acts[a].ref, Finish(c, a, true); r in d.blocks && !BlockInv(d.blocks[r], r, d.acts)
  {
    var r, d := c.acts[a].ref, Finish(c, a, true);
    if c.acts[a].phase.MapReading? {
      assert d.blocks[r].op == Read && !d.blocks[r].exclusive;
    } else {
      assert d.blocks[r].op == Write;
      assert IsWriterOf(c.acts, a, r);
      assert forall x :: IsWriterOf(d.acts, x, r) ==> IsWriterOf(c.acts, x, r) && x != a;
    }
  }

  lemma CancelledBreaks(c: Cache, a: Act)
    requires Inv(c) && CanFinish(c, a, true) && InFlight(c, a)
    ensures !Inv(Finish(c, a, true))
  {
    Localize(c, a);
    CancelledBreaksBlock(c, a);
  }

  lemma MapRetargets(c: Cache, a: Act, s: SessionRef, lba: nat, mode: MapMode, newRef: Ref, w: Act)
    requires CanMap(c, a, s, lba, newRef) && Recycles(c, Key(c.sessions[s].sessionId, lba)) && w in c.acts
    requires Victim(c.lru, c.blocks).Some? && Victim(c.lru, c.blocks).value in c.blocks
    ensures var v := Victim(c.lru, c.blocks).value;
            var d := Map(c, a, s, lba, mode, newRef);
            v in d.blocks && d.blocks[v].key == Key(c.sessions[s].sessionId, lba) && w in d.acts
              && d.acts[w] == c.acts[w]
  {
  }

  /** Taking a lock changes neither the address of a block nor another call. */
  lemma LockLeaves(c: Cache, a: Act, v: Ref, w: Act)
    requires v in c.blocks && w in c.acts && w != a
    ensures CanLockForMap(c, a) ==> var d := LockForMap(c, a);
                                    v in d.blocks && d.blocks[v].key == c.blocks[v].key && w in d.acts
                                      && d.acts[w] == c.acts[w]
  {
  }

  lemma WrongKeyBreaks(d: Cache, v: Ref, w: Act)
    requires v in d.blocks && w in d.acts && d.acts[w].ref == v && d.acts[w].key != d.blocks[v].key
    ensures !Inv(d)
  {
    assert !ActOk(d.blocks[v], d.acts[w]);
    assert !UsersOk(d.blocks[v], v, d.acts);
    assert !BlockInv(d.blocks[v], v, d.acts);
  }

  /** A waiter whose block is recycled goes on to lock a block with another address. */
  lemma RecycledUnderWaiterBreaks(c: Cache, a: Act, s: SessionRef, lba: nat, mode: MapMode, newRef: Ref)
    requires Inv(c) && CanMap(c, a, s, lba, newRef)
    requires Recycles(c, Key(c.sessions[s].sessionId, lba)) && !NobodyWaitsFor(c, Victim(c.lru, c.blocks))
    ensures !Inv(MapNow(c, a, s, lba, mode, newRef))
  {
    var v := Victim(c.lru, c.blocks).value;
    FindCorrect(c, Key(c.sessions[s].sessionId, lba));
    VictimReusable(c);
    var w :| w in c.acts && c.acts[w].phase.MapWait? && c.acts[w].ref == v;
    Localize(c, w);
    MapRetargets(c, a, s, lba, mode, newRef, w);
    LockLeaves(Map(c, a, s, lba, mode, newRef), a, v, w);
    WrongKeyBreaks(MapNow(c, a, s, lba, mode, newRef), v, w);
  }

  lemma SessionUnderCallBreaks(c: Cache, d: Cache, s: SessionRef)
    requires Inv(c) && !NoCallsOn(c, s) && d.acts == c.acts && s in d.sessions
    requires d.sessions[s].isOpen ==> d.sessions[s].sessionId >= c.nextAvailSessionId
    ensures !Inv(d)
  {
    var a :| a in c.acts && c.acts[a].s == s;
    Localize(c, a);
    assert !OfOpenSession(d, d.acts[a]);
  }

  /** The invariant survives a step exactly when the environment kept its side of the contract. */
  lemma StepKeepsInvExactly(c: Cache, e: Event)
    requires Inv(c) && Enabled(c, e)
    ensures Inv(Step(c, e)) <==> Fair(c, e)
  {
    if Fair(c, e) {
      StepKeepsInv(c, e);
    } else {
      match e
      case EvOpen(s, content) => SessionUnderCallBreaks(c, Open(c, s, content), s);
      case EvClose(s) => SessionUnderCallBreaks(c, Close(c, s), s);
      case EvMap(a, s, lba, mode, newRef) => RecycledUnderWaiterBreaks(c, a, s, lba, mode, newRef);
      case EvStartIo(a, accepted) => RefusedBreaks(c, a);
      case EvFinish(a, cancelled) => CancelledBreaks(c, a);
      case _ =>
    }
  }
}
