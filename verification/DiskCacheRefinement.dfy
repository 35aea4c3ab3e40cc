/** The disk block cache behaves like a plain store of blocks. */
module DiskCacheRefinement {
  import opened DiskCacheModel
  import opened DiskCacheInvariant
  import opened DiskCacheSteps
  import opened Errors
  import opened Memory
  import opened Options

  // ---------------------------------------------------------------------------------------
  // What clients observe

  /**
   A medium becomes available, a client gets to see a block's bytes, a client is handed a block of `size` bytes
   that it wants cleared, a client writes a block back.
   */
  datatype Obs =
    | Media(sid: nat, content: map<nat, Bytes>)
    | Got(key: Key, data: Bytes)
    | Wiped(key: Key, size: nat, data: Bytes)
    | Put(key: Key, data: Bytes)

  function Observe(c: Cache, e: Event): seq<Obs>
    requires Enabled(c, e)
  {
    match e
    case EvOpen(s, content) => [Media(c.nextAvailSessionId, content)]
    case EvMap(a, _, _, _, _) => Seen(Step(c, e), a)
    case EvLock(a) => Seen(Step(c, e), a)
    case EvFinish(a, _) => Seen(Step(c, e), a)
    case EvUnmap(a, wmode) => if wmode == NoWrite then [] else [Put(c.acts[a].key, c.blocks[c.acts[a].ref].data)]
    case _ => []
  }

  /** The client looks at the bytes it is handed. */
  predicate Reads(mode: MapMode) {
    mode == ReadOnly || mode == Update
  }

  /** A map call just returned the block's data to a caller that does not overwrite it anyway. */
  function Seen(c: Cache, a: Act): seq<Obs> {
    if a in c.acts && c.acts[a].ref in c.blocks && c.acts[a].phase.Mapped? then
      var x, data := c.acts[a], c.blocks[c.acts[a].ref].data;
      if Reads(x.phase.mode) then [Got(x.key, data)]
      else if x.phase.mode == Cleared then [Wiped(x.key, c.blockSize, data)]
      else []
    else
      []
  }

  /** `n` bytes, all of them zero. */
  predicate AllZero(data: Bytes, n: nat) {
    |data| == n && forall i :: 0 <= i < |data| ==> data[i] == 0
  }

  /** The bytes most recently written under `k`: by a client, or by the medium when it was opened. */
  function LastWritten(obs: seq<Obs>, k: Key): Option<Bytes> {
    if obs == [] then None
    else
      match obs[|obs| - 1]
      case Media(sid, content) =>
        if sid == k.sid && k.lba in content then Some(content[k.lba]) else LastWritten(obs[..|obs| - 1], k)
      case Put(key, data) => if key == k then Some(data) else LastWritten(obs[..|obs| - 1], k)
      case _ => LastWritten(obs[..|obs| - 1], k)
  }

  /** Every read yields the bytes most recently written, and every block that is to be cleared is. */
  ghost predicate ReadsLastWritten(obs: seq<Obs>) {
    && (forall i :: 0 <= i < |obs| && obs[i].Got? ==> LastWritten(obs[..i], obs[i].key) == Some(obs[i].data))
    && (forall i :: 0 <= i < |obs| && obs[i].Wiped? ==> AllZero(obs[i].data, obs[i].size))
  }

  // ---------------------------------------------------------------------------------------
  // The plain store

  type Plain = map<Key, Bytes>

  function PlainStep(store: Plain, o: Obs): Plain {
    match o
    case Media(sid, content) => store + MediaKeys(sid, content)
    case Put(k, data) => store[k := data]
    case _ => store
  }

  function PlainAfter(store: Plain, e: Event, c: Cache): Plain
    requires Enabled(c, e)
  {
    match e
    case EvOpen(s, content) => store + MediaKeys(c.nextAvailSessionId, content)
    case EvUnmap(a, wmode) =>
      if wmode == NoWrite then store else store[c.acts[a].key := c.blocks[c.acts[a].ref].data]
    case _ => store
  }

  ghost predicate Touched(acts: map<Act, Activity>, r: Ref) {
    exists a :: a in acts && acts[a].ref == r && acts[a].touched
  }

  ghost predicate AwaitsWrite(acts: map<Act, Activity>, r: Ref) {
    exists a :: a in acts && acts[a].ref == r && acts[a].phase.UnmapNeedsWrite?
  }

  /** No write of the block is due. */
  ghost predicate Settled(b: DiskBlock, r: Ref, acts: map<Act, Activity>) {
    !b.isDirty && b.op != Write && !AwaitsWrite(acts, r)
  }

  ghost predicate SameAt(disk: Plain, store: Plain, k: Key) {
    k in disk ==> k in store && store[k] == disk[k]
  }

  /** How one cached block relates disk and plain store. */
  ghost predicate BlockData(b: DiskBlock, r: Ref, acts: map<Act, Activity>, disk: Plain, store: Plain) {
    && (b.hasData && !Touched(acts, r) ==> b.key in store && store[b.key] == b.data)
    && (Settled(b, r, acts) ==> SameAt(disk, store, b.key))
  }

  ghost predicate Cached(blocks: map<Ref, DiskBlock>, k: Key) {
    exists r :: r in blocks && blocks[r].key == k
  }

  ghost predicate StoreInv(c: Cache, store: Plain) {
    && (forall r :: r in c.blocks ==> BlockData(c.blocks[r], r, c.acts, c.disk, store))
    && (forall k :: k in c.disk && !Cached(c.blocks, k) ==> SameAt(c.disk, store, k))
  }

  // ---------------------------------------------------------------------------------------
  // Runs

  /**
   What the plain store needs from clients and drive. A client that changed a block (or asked to clear
   or replace it) and unmaps it without a write left it as it was last written. A sync write of a
   pinned block, and a write that fails, find the block dirty, or the same bytes on the disk.
   */
  ghost predicate Honest(c: Cache, store: Plain, e: Event)
    requires Enabled(c, e)
  {
    match e
    case EvUnmap(a, wmode) =>
      var x := c.acts[a];
      var b := c.blocks[x.ref];
      && (wmode == NoWrite && x.touched ==> x.key in store && store[x.key] == b.data)
      && (wmode == Sync && b.isPinned ==> b.isDirty || b.key !in c.disk || c.disk[b.key] == b.data)
    case EvIoDone(s, err, rlen, junk) =>
      var o := c.sessions[s].dopsInUse[0];
      var b := c.blocks[o.blk];
      o.kind == Write && Status(err, rlen, c.blockSize) != EOK ==> b.isDirty || b.key !in c.disk || junk == b.data
    case _ => true
  }

  ghost predicate HonestRun(c: Cache, store: Plain, es: seq<Event>)
    requires CanRun(c, es)
    decreases es
  {
    es == [] || (Honest(c, store, es[0]) && HonestRun(Step(c, es[0]), PlainAfter(store, es[0], c), es[1..]))
  }

  /** A run from a state whose plain store is `store` in which everybody plays by the rules. */
  ghost predicate GoodRun(c: Cache, store: Plain, es: seq<Event>) {
    FairRun(c, es) && HonestRun(c, store, es)
  }

  /** What clients observe in a run. */
  ghost function Trace(c: Cache, es: seq<Event>): seq<Obs>
    requires CanRun(c, es)
    decreases es
  {
    if es == [] then [] else Observe(c, es[0]) + Trace(Step(c, es[0]), es[1..])
  }

  // ---------------------------------------------------------------------------------------
  // One block

  lemma TouchedFrame(acts: map<Act, Activity>, acts': map<Act, Activity>, a: Act, q: Ref)
    requires SameExcept(acts, acts', a)
    requires a in acts ==> acts[a].ref != q
    requires a in acts' ==> acts'[a].ref != q
    ensures Touched(acts', q) <==> Touched(acts, q)
    ensures AwaitsWrite(acts', q) <==> AwaitsWrite(acts, q)
  {
    if Touched(acts, q) {
      var x :| x in acts && acts[x].ref == q && acts[x].touched;
      assert x in acts' && acts'[x].touched;
    }
    if AwaitsWrite(acts, q) {
      var x :| x in acts && acts[x].ref == q && acts[x].phase.UnmapNeedsWrite?;
      assert x in acts' && acts'[x].ref == q;
    }
  }

  /** The change affects disk and plain store at most at the block's own key. */
  ghost predicate OnlyAt(m: Plain, m': Plain, k: Key) {
    forall q :: q != k ==> (q in m <==> q in m') && (q in m ==> m[q] == m'[q])
  }

  lemma ApplyStore(c: Cache, ch: Change, store: Plain, store': Plain)
    requires StoreInv(c, store) && UniqueKeys(c.blocks) && OnOneBlock(c, ch)
    requires OnlyAt(store, store', ch.b.key) && OnlyAt(c.disk, ch.disk, ch.b.key)
    requires BlockData(ch.b, ch.r, ActsAfter(c.acts, ch), ch.disk, store')
    ensures StoreInv(Apply(c, ch), store')
  {
    var d := Apply(c, ch);
    forall q | q in d.blocks ensures BlockData(d.blocks[q], q, d.acts, d.disk, store') {
      if q != ch.r {
        TouchedFrame(c.acts, d.acts, ch.a, q);
        assert BlockData(c.blocks[q], q, c.acts, c.disk, store);
      }
    }
    forall k | k in d.disk && !Cached(d.blocks, k) ensures SameAt(d.disk, store', k) {
      assert d.blocks[ch.r].key == ch.b.key;
      assert k != ch.b.key;
      forall r | r in c.blocks ensures c.blocks[r].key != k {
        assert r in d.blocks && d.blocks[r].key == c.blocks[r].key;
      }
    }
  }

  /** Nobody has touched a block that is not exclusively locked. */
  lemma UntouchedUnlessExclusive(b: DiskBlock, r: Ref, acts: map<Act, Activity>)
    requires UsersOk(b, r, acts) && !b.exclusive
    ensures !Touched(acts, r)
  {
    forall a | a in acts && acts[a].ref == r ensures !acts[a].touched { assert ActOk(b, acts[a]); }
  }

  predicate Awaits(acts: map<Act, Activity>, a: Act) {
    a in acts && acts[a].phase.UnmapNeedsWrite?
  }

  /** A call that neither starts nor ends waiting for its write. */
  lemma SameWrites(acts: map<Act, Activity>, acts': map<Act, Activity>, a: Act, r: Ref)
    requires SameExcept(acts, acts', a)
    ensures !Awaits(acts', a) && AwaitsWrite(acts', r) ==> AwaitsWrite(acts, r)
    ensures !Awaits(acts, a) && AwaitsWrite(acts, r) ==> AwaitsWrite(acts', r)
  {
    if AwaitsWrite(acts, r) {
      var x :| x in acts && acts[x].ref == r && acts[x].phase.UnmapNeedsWrite?;
      if x != a { assert x in acts' && acts'[x].ref == r; }
    }
    if AwaitsWrite(acts', r) {
      var x :| x in acts' && acts'[x].ref == r && acts'[x].phase.UnmapNeedsWrite?;
      if x != a { assert x in acts && acts[x].ref == r; }
    }
  }

  /** A call that neither starts nor ends a change to the data. */
  lemma NeutralAct(acts: map<Act, Activity>, acts': map<Act, Activity>, a: Act, r: Ref)
    requires SameExcept(acts, acts', a) && !Awaits(acts', a)
    requires a in acts ==> !acts[a].touched
    requires a in acts' ==> !acts'[a].touched
    ensures Touched(acts', r) <==> Touched(acts, r)
    ensures AwaitsWrite(acts', r) ==> AwaitsWrite(acts, r)
    ensures AwaitsWrite(acts, r) && !Awaits(acts, a) ==> AwaitsWrite(acts', r)
  {
    SameWrites(acts, acts', a, r);
    if Touched(acts, r) {
      var x :| x in acts && acts[x].ref == r && acts[x].touched;
      assert x in acts' && acts'[x].touched;
    }
  }

  // ---------------------------------------------------------------------------------------
  // Steps

  lemma Here(c: Cache, store: Plain, a: Act)
    requires Inv(c) && StoreInv(c, store) && a in c.acts
    ensures Local(c, a) && BlockData(c.blocks[c.acts[a].ref], c.acts[a].ref, c.acts, c.disk, store)
  {
    Localize(c, a);
  }

  lemma LockData(c: Cache, store: Plain, a: Act)
    requires Local(c, a) && CanLockForMap(c, a)
    requires BlockData(c.blocks[c.acts[a].ref], c.acts[a].ref, c.acts, c.disk, store)
    ensures var d := LockForMap(c, a); BlockData(d.blocks[c.acts[a].ref], c.acts[a].ref, d.acts, d.disk, store)
    ensures var d := LockForMap(c, a);
            var x := c.acts[a];
            d.acts[a].phase.Mapped? && !d.acts[a].touched ==> x.key in store && store[x.key] == d.blocks[x.ref].data
  {
    var d := LockForMap(c, a);
    var x := c.acts[a];
    var b := c.blocks[x.ref];
    UntouchedUnlessExclusive(b, x.ref, c.acts);
    if d.acts[a].touched {
      assert Touched(d.acts, x.ref);
      SameWrites(c.acts, d.acts, a, x.ref);
    } else {
      NeutralAct(c.acts, d.acts, a, x.ref);
    }
  }

  lemma LockRefines(c: Cache, store: Plain, a: Act)
    requires Inv(c) && StoreInv(c, store) && CanLockForMap(c, a)
    ensures StoreInv(LockForMap(c, a), store)
  {
    Here(c, store, a);
    LockSound(c, a);
    LockChange(c, a);
    LockData(c, store, a);
    ApplyStore(c, ChangeOf(c, LockForMap(c, a), a), store, store);
  }

  lemma GiveUpData(c: Cache, store: Plain, a: Act)
    requires Local(c, a) && CanGiveUp(c, a)
    requires BlockData(c.blocks[c.acts[a].ref], c.acts[a].ref, c.acts, c.disk, store)
    ensures BlockData(c.blocks[c.acts[a].ref], c.acts[a].ref, c.acts - {a}, c.disk, store)
  {
    NeutralAct(c.acts, c.acts - {a}, a, c.acts[a].ref);
  }

  lemma GiveUpRefines(c: Cache, store: Plain, a: Act)
    requires Inv(c) && StoreInv(c, store) && CanGiveUp(c, a)
    ensures StoreInv(EndAct(c, a), store)
  {
    Here(c, store, a);
    GiveUpSound(c, a);
    GiveUpData(c, store, a);
    ApplyStore(c, ChangeOf(c, EndAct(c, a), a), store, store);
  }

  lemma StoreRefines(c: Cache, store: Plain, a: Act, data: Bytes)
    requires Inv(c) && StoreInv(c, store) && CanStore(c, a)
    ensures StoreInv(Store(c, a, data), store)
  {
    Here(c, store, a);
    StoreSound(c, a, data);
    StoreChange(c, a, data);
    StoreData(c, store, a, data);
    ApplyStore(c, ChangeOf(c, Store(c, a, data), a), store, store);
  }

  lemma StoreData(c: Cache, store: Plain, a: Act, data: Bytes)
    requires CanStore(c, a) && BlockData(c.blocks[c.acts[a].ref], c.acts[a].ref, c.acts, c.disk, store)
    ensures var d := Store(c, a, data); BlockData(d.blocks[c.acts[a].ref], c.acts[a].ref, d.acts, d.disk, store)
  {
    var d := Store(c, a, data);
    assert d.acts[a].touched && Touched(d.acts, c.acts[a].ref);
    SameWrites(c.acts, d.acts, a, c.acts[a].ref);
  }

  lemma StartIoData(c: Cache, store: Plain, a: Act)
    requires Local(c, a) && CanStartIo(c, a)
    requires BlockData(c.blocks[c.acts[a].ref], c.acts[a].ref, c.acts, c.disk, store)
    ensures var d := StartIo(c, a, true); BlockData(d.blocks[c.acts[a].ref], c.acts[a].ref, d.acts, d.disk, store)
  {
    NeutralAct(c.acts, StartIo(c, a, true).acts, a, c.acts[a].ref);
  }

  lemma StartIoRefines(c: Cache, store: Plain, a: Act)
    requires Inv(c) && StoreInv(c, store) && CanStartIo(c, a)
    ensures StoreInv(StartIo(c, a, true), store)
  {
    Here(c, store, a);
    StartIoSound(c, a);
    StartIoChange(c, a);
    StartIoData(c, store, a);
    ApplyStore(c, ChangeOf(c, StartIo(c, a, true), a), store, store);
  }

  lemma FinishData(c: Cache, store: Plain, a: Act, cancelled: bool)
    requires Local(c, a) && CanFinish(c, a, cancelled) && !InFlight(c, a)
    requires BlockData(c.blocks[c.acts[a].ref], c.acts[a].ref, c.acts, c.disk, store)
    ensures var d := Finish(c, a, cancelled); BlockData(d.blocks[c.acts[a].ref], c.acts[a].ref, d.acts, d.disk, store)
    ensures var d := Finish(c, a, cancelled);
            var x := c.acts[a];
            a in d.acts ==> x.key in store && store[x.key] == d.blocks[x.ref].data
  {
    var d := Finish(c, a, cancelled);
    var x := c.acts[a];
    var b := c.blocks[x.ref];
    NeutralAct(c.acts, d.acts, a, x.ref);
    if a in d.acts {
      SoleHolder(b, x.ref, c.acts, a);
      assert !Touched(c.acts, x.ref) by {
        forall q | q in c.acts && c.acts[q].ref == x.ref ensures !c.acts[q].touched { assert ActOk(b, c.acts[q]); }
      }
    }
  }

  /** The activity's own block is consistent, before and after, and nothing else changed. */
  ghost predicate GoodChange(c: Cache, d: Cache, a: Act, store: Plain, store': Plain) {
    && KnownAct(c, a) && c.acts[a].ref in d.blocks && c.acts[a].s in d.sessions
    && OnOneBlock(c, ChangeOf(c, d, a)) && d == Apply(c, ChangeOf(c, d, a))
    && OnlyAt(store, store', d.blocks[c.acts[a].ref].key) && d.disk == c.disk
    && BlockData(d.blocks[c.acts[a].ref], c.acts[a].ref, d.acts, d.disk, store')
  }

  lemma ChangeRefines(c: Cache, d: Cache, a: Act, store: Plain, store': Plain)
    requires Inv(c) && StoreInv(c, store) && GoodChange(c, d, a, store, store')
    ensures StoreInv(d, store')
  {
    ApplyStore(c, ChangeOf(c, d, a), store, store');
  }

  lemma FinishGood(c: Cache, store: Plain, a: Act, cancelled: bool)
    requires Local(c, a) && CanFinish(c, a, cancelled) && !InFlight(c, a)
    requires BlockData(c.blocks[c.acts[a].ref], c.acts[a].ref, c.acts, c.disk, store)
    ensures GoodChange(c, Finish(c, a, cancelled), a, store, store)
  {
    FinishSound(c, a, cancelled);
    FinishChange(c, a, cancelled);
    FinishData(c, store, a, cancelled);
  }

  lemma FinishRefines(c: Cache, store: Plain, a: Act, cancelled: bool)
    requires Inv(c) && StoreInv(c, store) && CanFinish(c, a, cancelled) && !InFlight(c, a)
    ensures StoreInv(Finish(c, a, cancelled), store)
  {
    Here(c, store, a);
    FinishGood(c, store, a, cancelled);
    ChangeRefines(c, Finish(c, a, cancelled), a, store, store);
  }

  lemma UnmapWriteData(c: Cache, store: Plain, a: Act, wmode: WriteMode)
    requires Local(c, a) && CanUnmap(c, a, wmode) && wmode != NoWrite && Honest(c, store, EvUnmap(a, wmode))
    requires BlockData(c.blocks[c.acts[a].ref], c.acts[a].ref, c.acts, c.disk, store)
    ensures var d := Unmap(c, a, wmode);
            var r := c.acts[a].ref;
            BlockData(d.blocks[r], r, d.acts, d.disk, store[c.acts[a].key := c.blocks[r].data])
  {
    var d := Unmap(c, a, wmode);
    var x := c.acts[a];
    if wmode == Sync && !c.blocks[x.ref].isPinned {
      assert d.acts[a].phase.UnmapNeedsWrite? && AwaitsWrite(d.acts, x.ref);
    }
  }

  /** After an exclusive holder has ended its call, the others that refer to the block wait for it. */
  lemma LeftUntouched(c: Cache, a: Act)
    requires Local(c, a) && c.acts[a].held == HeldExclusive
    ensures !Touched(c.acts - {a}, c.acts[a].ref) && !AwaitsWrite(c.acts - {a}, c.acts[a].ref)
  {
    var r := c.acts[a].ref;
    var acts := c.acts - {a};
    SoleHolder(c.blocks[r], r, c.acts, a);
    assert forall x :: x in acts && acts[x].ref == r ==> acts[x].phase.MapWait? && ActOk(c.blocks[r], acts[x]);
  }

  lemma UnmapNoWriteData(c: Cache, store: Plain, a: Act)
    requires Local(c, a) && CanUnmap(c, a, NoWrite)
    requires BlockData(c.blocks[c.acts[a].ref], c.acts[a].ref, c.acts, c.disk, store)
    ensures var d := Unmap(c, a, NoWrite);
            var r := c.acts[a].ref;
            BlockData(d.blocks[r], r, d.acts, d.disk, store) <==> Honest(c, store, EvUnmap(a, NoWrite))
  {
    var d := Unmap(c, a, NoWrite);
    if c.acts[a].touched {
      LeftUntouched(c, a);
      assert !AwaitsWrite(c.acts, c.acts[a].ref) by {
        SoleHolder(c.blocks[c.acts[a].ref], c.acts[a].ref, c.acts, a);
      }
    } else {
      NeutralAct(c.acts, d.acts, a, c.acts[a].ref);
    }
  }

  lemma UnmapGood(c: Cache, store: Plain, a: Act, wmode: WriteMode)
    requires Local(c, a) && CanUnmap(c, a, wmode) && Honest(c, store, EvUnmap(a, wmode))
    requires BlockData(c.blocks[c.acts[a].ref], c.acts[a].ref, c.acts, c.disk, store)
    ensures GoodChange(c, Unmap(c, a, wmode), a, store, PlainAfter(store, EvUnmap(a, wmode), c))
  {
    UnmapSound(c, a, wmode);
    UnmapChange(c, a, wmode);
    if wmode == NoWrite {
      UnmapNoWriteData(c, store, a);
    } else {
      UnmapWriteData(c, store, a, wmode);
    }
  }

  lemma UnmapRefines(c: Cache, store: Plain, a: Act, wmode: WriteMode)
    requires Inv(c) && StoreInv(c, store) && CanUnmap(c, a, wmode) && Honest(c, store, EvUnmap(a, wmode))
    ensures StoreInv(Unmap(c, a, wmode), PlainAfter(store, EvUnmap(a, wmode), c))
  {
    Here(c, store, a);
    UnmapGood(c, store, a, wmode);
    ChangeRefines(c, Unmap(c, a, wmode), a, store, PlainAfter(store, EvUnmap(a, wmode), c));
  }

  lemma IoDoneData(c: Cache, store: Plain, s: SessionRef, err: Errno, rlen: nat, junk: Bytes)
    requires CanIoDone(c, s, err, rlen) && LocalBlock(c, s, c.sessions[s].dopsInUse[0].blk)
    requires Honest(c, store, EvIoDone(s, err, rlen, junk))
    requires var r := c.sessions[s].dopsInUse[0].blk; BlockData(c.blocks[r], r, c.acts, c.disk, store)
    ensures var r := c.sessions[s].dopsInUse[0].blk;
            var d := IoDone(c, s, err, rlen, junk); BlockData(d.blocks[r], r, c.acts, d.disk, store)
  {
    var o := c.sessions[s].dopsInUse[0];
    var b := c.blocks[o.blk];
    assert DiskOpOk(c.blocks, o, c.sessions[s].sessionId);
    if o.kind == Write {
      UntouchedUnlessExclusive(b, o.blk, c.acts);
      var w :| IsWriterOf(c.acts, w, o.blk) && DoingIo(c.acts[w].phase);
      assert ActOk(b, c.acts[w]);
    }
  }

  /**
   What the completion of a transfer means. A whole block that was read holds what the disk holds, and a whole
   block that was written is on the disk and clean. After anything less, a read leaves an error and no data, and a
   write leaves a dirty block dirty.
   */
  lemma TransferOutcome(c: Cache, s: SessionRef, err: Errno, rlen: nat, junk: Bytes)
    requires CanIoDone(c, s, err, rlen)
    ensures var o := c.sessions[s].dopsInUse[0];
            var d := IoDone(c, s, err, rlen, junk);
            var b, b' := c.blocks[o.blk], d.blocks[o.blk];
            if err == EOK && rlen >= c.blockSize then
              && b.key in c.disk && b.key in d.disk && b'.data == d.disk[b.key]
              && (o.kind == Read ==> b'.hasData && b'.readError == EOK && d.disk == c.disk)
              && (o.kind == Write ==> !b'.isDirty && b'.data == b.data)
            else
              && (o.kind == Read ==> b'.hasData == b.hasData && b'.readError != EOK && d.disk == c.disk)
              && (o.kind == Write ==> b'.isDirty == b.isDirty && b'.data == b.data)
  {
  }

  /** The block `r` of the session is consistent, before and after, and nothing else changed. */
  ghost predicate GoodBlockChange(c: Cache, d: Cache, s: SessionRef, a: Act, r: Ref, store: Plain) {
    && s in d.sessions && r in d.blocks
    && OnOneBlock(c, BlockChange(c, d, s, a, r)) && d == Apply(c, BlockChange(c, d, s, a, r))
    && OnlyAt(c.disk, d.disk, d.blocks[r].key) && BlockData(d.blocks[r], r, c.acts, d.disk, store)
  }

  lemma BlockChangeRefines(c: Cache, d: Cache, s: SessionRef, a: Act, r: Ref, store: Plain)
    requires Inv(c) && StoreInv(c, store) && a !in c.acts && GoodBlockChange(c, d, s, a, r, store)
    ensures StoreInv(d, store)
  {
    assert c.acts - {a} == c.acts;
    ApplyStore(c, BlockChange(c, d, s, a, r), store, store);
  }

  lemma IoDoneGood(c: Cache, store: Plain, s: SessionRef, err: Errno, rlen: nat, junk: Bytes, a: Act)
    requires CanIoDone(c, s, err, rlen) && LocalBlock(c, s, c.sessions[s].dopsInUse[0].blk) && a !in c.acts
    requires Honest(c, store, EvIoDone(s, err, rlen, junk))
    requires var r := c.sessions[s].dopsInUse[0].blk; BlockData(c.blocks[r], r, c.acts, c.disk, store)
    ensures GoodBlockChange(c, IoDone(c, s, err, rlen, junk), s, a, c.sessions[s].dopsInUse[0].blk, store)
  {
    IoDoneSound(c, s, err, rlen, junk, a);
    IoDoneChange(c, s, err, rlen, junk, a);
    IoDoneData(c, store, s, err, rlen, junk);
  }

  lemma IoDoneHere(c: Cache, store: Plain, s: SessionRef)
    requires Inv(c) && StoreInv(c, store) && s in c.sessions && c.sessions[s].dopsInUse != []
    ensures var r := c.sessions[s].dopsInUse[0].blk;
            LocalBlock(c, s, r) && BlockData(c.blocks[r], r, c.acts, c.disk, store)
  {
    assert SessionOk(c, s);
    assert DiskOpOk(c.blocks, c.sessions[s].dopsInUse[0], c.sessions[s].sessionId);
  }

  lemma IoDoneRefines(c: Cache, store: Plain, s: SessionRef, err: Errno, rlen: nat, junk: Bytes)
    requires Inv(c) && StoreInv(c, store) && CanIoDone(c, s, err, rlen)
    requires Honest(c, store, EvIoDone(s, err, rlen, junk))
    ensures StoreInv(IoDone(c, s, err, rlen, junk), store)
  {
    var a := FreshAct(c.acts.Keys);
    IoDoneHere(c, store, s);
    IoDoneGood(c, store, s, err, rlen, junk, a);
    BlockChangeRefines(c, IoDone(c, s, err, rlen, junk), s, a, c.sessions[s].dopsInUse[0].blk, store);
  }

  lemma PinRefines(c: Cache, store: Plain, s: SessionRef, lba: nat, pinned: bool)
    requires Inv(c) && StoreInv(c, store) && Found(c, s, lba)
    ensures StoreInv(Pin(c, s, lba, pinned), store)
  {
    var r := Find(c, Key(c.sessions[s].sessionId, lba)).value;
    FoundBlock(c, s, lba);
    var a := FreshAct(c.acts.Keys);
    PinSound(c, s, r, pinned, a);
    var ch := BlockChange(c, Pin(c, s, lba, pinned), s, a, r);
    assert c.acts - {a} == c.acts;
    assert BlockData(c.blocks[r], r, c.acts, c.disk, store);
    ApplyStore(c, ch, store, store);
  }

  /** A client call that starts without changing data. */
  lemma NewActRefines(c: Cache, ch: Change, store: Plain)
    requires Inv(c) && StoreInv(c, store) && OnOneBlock(c, ch) && ch.a !in c.acts && ch.act.Some?
    requires !ch.act.value.touched && !ch.act.value.phase.UnmapNeedsWrite? && ch.disk == c.disk
    requires ch.b.(shareCount := c.blocks[ch.r].shareCount) == c.blocks[ch.r]
    ensures StoreInv(Apply(c, ch), store)
  {
    NeutralAct(c.acts, ActsAfter(c.acts, ch), ch.a, ch.r);
    assert BlockData(c.blocks[ch.r], ch.r, c.acts, c.disk, store);
    ApplyStore(c, ch, store, store);
  }

  lemma SyncRefines(c: Cache, store: Plain, a: Act, s: SessionRef, lba: nat)
    requires Inv(c) && StoreInv(c, store) && CanSync(c, a, s, lba)
    ensures StoreInv(SyncBlock(c, a, s, lba), store)
  {
    var r := Find(c, Key(c.sessions[s].sessionId, lba)).value;
    FoundBlock(c, s, lba);
    SyncSound(c, s, r, a);
    var x := Activity(s, r, c.blocks[r].key, SyncNeedsWrite, HeldShared, false);
    NewActRefines(c, Change(s, c.sessions[s], a, Some(x), r, Lock(c.blocks[r], Shared), c.dirtyBlockCount, c.disk),
                  store);
  }

  lemma CreateRefines(c: Cache, store: Plain, r: Ref, k: Key)
    requires Inv(c) && StoreInv(c, store) && r !in c.blocks && !Cached(c.blocks, k)
    ensures StoreInv(CreateBlock(c, r, k), store)
  {
    var d := CreateBlock(c, r, k);
    forall q | q in d.blocks ensures BlockData(d.blocks[q], q, d.acts, d.disk, store) {
      if q != r { assert BlockData(c.blocks[q], q, c.acts, c.disk, store); }
    }
    forall q | q in d.disk && !Cached(d.blocks, q) ensures SameAt(d.disk, store, q) {
      forall p | p in c.blocks ensures c.blocks[p].key != q {
        assert p in d.blocks && d.blocks[p].key == c.blocks[p].key;
      }
    }
  }

  lemma RecycleRefines(c: Cache, store: Plain, r: Ref, k: Key)
    requires Inv(c) && StoreInv(c, store) && r in c.blocks && Reusable(c.blocks[r]) && !Cached(c.blocks, k)
    requires forall a :: a in c.acts ==> c.acts[a].ref != r
    ensures StoreInv(RecycleBlock(c, r, k), store)
  {
    var d := RecycleBlock(c, r, k);
    var b := c.blocks[r];
    assert BlockData(b, r, c.acts, c.disk, store);
    assert BlockInv(b, r, c.acts);
    assert SameAt(c.disk, store, b.key);
    forall q | q in d.blocks ensures BlockData(d.blocks[q], q, d.acts, d.disk, store) {
      if q != r { assert BlockData(c.blocks[q], q, c.acts, c.disk, store); }
    }
    forall q | q in d.disk && !Cached(d.blocks, q) ensures SameAt(d.disk, store, q) {
      if q != b.key {
        forall p | p in c.blocks ensures c.blocks[p].key != q {
          assert p in d.blocks;
          if p != r { assert d.blocks[p].key == c.blocks[p].key; }
        }
      }
    }
  }

  lemma GetBlockRefines(c: Cache, store: Plain, k: Key, newRef: Ref)
    requires Inv(c) && StoreInv(c, store) && newRef !in c.blocks && GetBlock(c, k, newRef).Some?
    requires Recycles(c, k) ==> NobodyWaitsFor(c, Victim(c.lru, c.blocks))
    ensures StoreInv(GetBlock(c, k, newRef).value.0, store)
  {
    FindCorrect(c, k);
    VictimReusable(c);
    if Find(c, k).None? {
      if c.blockCount < c.blockCapacity {
        CreateRefines(c, store, newRef, k);
      } else {
        var r := Victim(c.lru, c.blocks).value;
        VictimUnused(c, r);
        RecycleRefines(c, store, r, k);
      }
    }
  }

  lemma MapRefines(c: Cache, store: Plain, a: Act, s: SessionRef, lba: nat, mode: MapMode, newRef: Ref)
    requires Inv(c) && StoreInv(c, store) && CanMap(c, a, s, lba, newRef) && Fair(c, EvMap(a, s, lba, mode, newRef))
    ensures StoreInv(Map(c, a, s, lba, mode, newRef), store)
  {
    var k := Key(c.sessions[s].sessionId, lba);
    assert SessionOk(c, s);
    GetBlockStep(c, k, newRef);
    GetBlockRefines(c, store, k, newRef);
    var (d, r) := GetBlock(c, k, newRef).value;
    var lock := if mode == ReadOnly && d.blocks[r].hasData then Shared else Exclusive;
    WaitRefines(d, store, s, a, r, mode, lock);
  }

  lemma MapNowRefines(c: Cache, store: Plain, a: Act, s: SessionRef, lba: nat, mode: MapMode, newRef: Ref)
    requires Inv(c) && StoreInv(c, store) && CanMap(c, a, s, lba, newRef) && Fair(c, EvMap(a, s, lba, mode, newRef))
    ensures StoreInv(MapNow(c, a, s, lba, mode, newRef), store)
  {
    var d := Map(c, a, s, lba, mode, newRef);
    MapStep(c, a, s, lba, mode, newRef);
    MapRefines(c, store, a, s, lba, mode, newRef);
    if CanLockForMap(d, a) { LockRefines(d, store, a); }
  }

  lemma WaitRefines(c: Cache, store: Plain, s: SessionRef, a: Act, r: Ref, mode: MapMode, lock: LockMode)
    requires Inv(c) && StoreInv(c, store) && IsOpen(c, s) && r in c.blocks
    requires c.blocks[r].key.sid == c.sessions[s].sessionId && a !in c.acts
    ensures StoreInv(SetAct(c, a, Activity(s, r, c.blocks[r].key, MapWait(mode, lock), NotHeld, false)), store)
  {
    var x := Activity(s, r, c.blocks[r].key, MapWait(mode, lock), NotHeld, false);
    assert c.sessions[s := c.sessions[s]] == c.sessions && c.blocks[r := c.blocks[r]] == c.blocks;
    NewActRefines(c, Change(s, c.sessions[s], a, Some(x), r, c.blocks[r], c.dirtyBlockCount, c.disk), store);
  }

  lemma MediaKeysAt(sid: nat, content: map<nat, Bytes>, k: Key)
    ensures k in MediaKeys(sid, content) <==> k.sid == sid && k.lba in content
    ensures k in MediaKeys(sid, content) ==> MediaKeys(sid, content)[k] == content[k.lba]
  {
    if k.sid == sid && k.lba in content { assert k == Key(sid, k.lba); }
  }

  /** Content that is added to disk and store alike, under keys that are not in the cache. */
  lemma AddRefines(c: Cache, d: Cache, store: Plain, media: Plain)
    requires StoreInv(c, store) && d.blocks == c.blocks && d.acts == c.acts && d.disk == c.disk + media
    requires forall r :: r in c.blocks ==> c.blocks[r].key !in media
    ensures StoreInv(d, store + media)
  {
    forall r | r in d.blocks ensures BlockData(d.blocks[r], r, d.acts, d.disk, store + media) {
      assert BlockData(c.blocks[r], r, c.acts, c.disk, store);
    }
  }

  lemma OpenRefines(c: Cache, store: Plain, s: SessionRef, content: map<nat, Bytes>)
    requires AddressesInv(c) && StoreInv(c, store)
    ensures StoreInv(Open(c, s, content), store + MediaKeys(c.nextAvailSessionId, content))
  {
    var media := MediaKeys(c.nextAvailSessionId, content);
    forall r | r in c.blocks ensures c.blocks[r].key !in media {
      MediaKeysAt(c.nextAvailSessionId, content, c.blocks[r].key);
    }
    AddRefines(c, Open(c, s, content), store, media);
  }

  /** Every step of a good run keeps the relation to the plain store. */
  lemma StepRefines(c: Cache, store: Plain, e: Event)
    requires Inv(c) && StoreInv(c, store) && Enabled(c, e) && Fair(c, e) && Honest(c, store, e)
    ensures StoreInv(Step(c, e), PlainAfter(store, e, c))
  {
    match e
    case EvOpen(s, content) => OpenRefines(c, store, s, content);
    case EvClose(s) =>
    case EvMap(a, s, lba, mode, newRef) => MapNowRefines(c, store, a, s, lba, mode, newRef);
    case EvLock(a) => LockRefines(c, store, a);
    case EvGiveUp(a) => GiveUpRefines(c, store, a);
    case EvStartIo(a, accepted) => StartIoRefines(c, store, a);
    case EvIoDone(s, err, rlen, junk) => IoDoneRefines(c, store, s, err, rlen, junk);
    case EvFinish(a, cancelled) => FinishRefines(c, store, a, cancelled);
    case EvStore(a, data) => StoreRefines(c, store, a, data);
    case EvUnmap(a, wmode) => UnmapRefines(c, store, a, wmode);
    case EvSync(a, s, lba) => SyncRefines(c, store, a, s, lba);
    case EvPin(s, lba, pinned) => PinRefines(c, store, s, lba, pinned);
  }

  // ---------------------------------------------------------------------------------------
  // Runs

  /** What the plain store allows: a read yields its bytes, a cleared block nothing but zeros. */
  ghost predicate Allows(store: Plain, o: Obs) {
    match o
    case Got(k, data) => k in store && store[k] == data
    case Wiped(_, size, data) => AllZero(data, size)
    case _ => true
  }

  /** The plain store accepts the observations. */
  ghost predicate PlainAccepts(store: Plain, obs: seq<Obs>)
    decreases obs
  {
    obs == [] || (Allows(store, obs[0]) && PlainAccepts(PlainStep(store, obs[0]), obs[1..]))
  }

  ghost predicate PlainAgrees(store: Plain, obs: seq<Obs>) {
    forall i :: 0 <= i < |obs| ==> Allows(store, obs[i])
  }

  lemma LockObserved(c: Cache, store: Plain, a: Act)
    requires Local(c, a) && CanLockForMap(c, a)
    requires BlockData(c.blocks[c.acts[a].ref], c.acts[a].ref, c.acts, c.disk, store)
    ensures var o := Seen(LockForMap(c, a), a); PlainAgrees(store, o)
  {
    LockData(c, store, a);
  }

  lemma FinishObserved(c: Cache, store: Plain, a: Act, cancelled: bool)
    requires Local(c, a) && CanFinish(c, a, cancelled) && !InFlight(c, a)
    requires BlockData(c.blocks[c.acts[a].ref], c.acts[a].ref, c.acts, c.disk, store)
    ensures var o := Seen(Finish(c, a, cancelled), a); PlainAgrees(store, o)
  {
    FinishData(c, store, a, cancelled);
  }

  lemma OthersSeeNothing(c: Cache, store: Plain, e: Event)
    requires Enabled(c, e) && !e.EvMap? && !e.EvLock? && !e.EvFinish?
    ensures PlainAgrees(store, Observe(c, e))
  {
  }

  lemma LockAgrees(c: Cache, store: Plain, a: Act)
    requires Inv(c) && StoreInv(c, store) && CanLockForMap(c, a)
    ensures PlainAgrees(store, Seen(LockForMap(c, a), a))
  {
    Here(c, store, a);
    LockObserved(c, store, a);
  }

  lemma MapAgrees(c: Cache, store: Plain, a: Act, s: SessionRef, lba: nat, mode: MapMode, newRef: Ref)
    requires Inv(c) && StoreInv(c, store) && CanMap(c, a, s, lba, newRef) && Fair(c, EvMap(a, s, lba, mode, newRef))
    ensures PlainAgrees(store, Seen(MapNow(c, a, s, lba, mode, newRef), a))
  {
    var d := Map(c, a, s, lba, mode, newRef);
    MapStep(c, a, s, lba, mode, newRef);
    MapRefines(c, store, a, s, lba, mode, newRef);
    if CanLockForMap(d, a) { LockAgrees(d, store, a); }
  }

  lemma FinishAgrees(c: Cache, store: Plain, a: Act, cancelled: bool, obs: seq<Obs>)
    requires CanFinish(c, a, cancelled) && !InFlight(c, a) && obs == Seen(Finish(c, a, cancelled), a)
    requires Inv(c) && StoreInv(c, store)
    ensures PlainAgrees(store, obs)
  {
    Here(c, store, a);
    FinishObserved(c, store, a, cancelled);
  }

  lemma StepAgrees(c: Cache, store: Plain, e: Event)
    requires Inv(c) && StoreInv(c, store) && Enabled(c, e) && Fair(c, e)
    ensures PlainAgrees(store, Observe(c, e))
  {
    if e.EvMap? {
      MapAgrees(c, store, e.a, e.s, e.lba, e.mode, e.newRef);
    } else if e.EvLock? {
      LockAgrees(c, store, e.a);
    } else if e.EvFinish? {
      FinishAgrees(c, store, e.a, e.cancelled, Observe(c, e));
    } else {
      OthersSeeNothing(c, store, e);
    }
  }

  lemma StepObserved(c: Cache, store: Plain, e: Event)
    requires Enabled(c, e)
    ensures Observe(c, e) == [] ==> PlainAfter(store, e, c) == store
    ensures Observe(c, e) != [] ==> |Observe(c, e)| == 1
                                    && PlainAfter(store, e, c) == PlainStep(store, Observe(c, e)[0])
  {
  }

  lemma {:induction false} RunRefines(c: Cache, store: Plain, es: seq<Event>)
    requires Inv(c) && StoreInv(c, store) && GoodRun(c, store, es)
    ensures PlainAccepts(store, Trace(c, es))
    decreases es
  {
    if es != [] {
      var o := Observe(c, es[0]);
      var rest := Trace(Step(c, es[0]), es[1..]);
      StepKeepsInv(c, es[0]);
      StepRefines(c, store, es[0]);
      StepAgrees(c, store, es[0]);
      StepObserved(c, store, es[0]);
      RunRefines(Step(c, es[0]), PlainAfter(store, es[0], c), es[1..]);
      assert o == [] ==> o + rest == rest;
      assert o != [] ==> (o + rest)[1..] == rest;
    }
  }

  /** The plain store holds what was last written. */
  ghost predicate HoldsLast(obs: seq<Obs>, store: Plain) {
    forall k :: LastWritten(obs, k) == if k in store then Some(store[k]) else None
  }

  function PlainRun(store: Plain, obs: seq<Obs>): Plain
    decreases obs
  {
    if obs == [] then store else PlainRun(PlainStep(store, obs[0]), obs[1..])
  }

  lemma {:induction false} AcceptedReadsLastWritten(before: seq<Obs>, store: Plain, obs: seq<Obs>)
    requires PlainAccepts(store, obs) && ReadsLastWritten(before) && HoldsLast(before, store)
    ensures ReadsLastWritten(before + obs) && HoldsLast(before + obs, PlainRun(store, obs))
    decreases obs
  {
    if obs == [] {
      assert before + obs == before;
    } else {
      var next := before + [obs[0]];
      assert next[..|before|] == before;
      assert forall i :: 0 <= i <= |before| ==> next[..i] == before[..i];
      assert ReadsLastWritten(next);
      AcceptedReadsLastWritten(next, PlainStep(store, obs[0]), obs[1..]);
      assert before + obs == next + obs[1..];
    }
  }

  /** Every good run ends in a consistent state. */
  lemma {:induction false} RunKeepsStore(c: Cache, store: Plain, es: seq<Event>)
    requires Inv(c) && StoreInv(c, store) && GoodRun(c, store, es)
    ensures Inv(EndOf(c, es)) && StoreInv(EndOf(c, es), PlainRun(store, Trace(c, es)))
    decreases es
  {
    if es != [] {
      var o := Observe(c, es[0]);
      var rest := Trace(Step(c, es[0]), es[1..]);
      StepKeepsInv(c, es[0]);
      StepRefines(c, store, es[0]);
      StepObserved(c, store, es[0]);
      RunKeepsStore(Step(c, es[0]), PlainAfter(store, es[0], c), es[1..]);
      assert o == [] ==> o + rest == rest;
      assert o != [] ==> (o + rest)[1..] == rest;
    }
  }

  lemma {:induction false} SizesObserved(c: Cache, es: seq<Event>)
    requires CanRun(c, es)
    ensures forall i :: 0 <= i < |Trace(c, es)| && Trace(c, es)[i].Wiped? ==> Trace(c, es)[i].size == c.blockSize
    decreases es
  {
    if es != [] {
      StepKeepsSize(c, es[0]);
      SizeObserved(c, es[0]);
      SizesObserved(Step(c, es[0]), es[1..]);
    }
  }

  lemma SizeObserved(c: Cache, e: Event)
    requires Enabled(c, e)
    ensures forall o :: o in Observe(c, e) && o.Wiped? ==> o.size == Step(c, e).blockSize
  {
  }

  lemma GetBlockKeepsSize(c: Cache, k: Key, newRef: Ref)
    requires GetBlock(c, k, newRef).Some?
    ensures GetBlock(c, k, newRef).value.0.blockSize == c.blockSize
  {
  }

  lemma MapKeepsSize(c: Cache, a: Act, s: SessionRef, lba: nat, mode: MapMode, newRef: Ref)
    requires CanMap(c, a, s, lba, newRef)
    ensures MapNow(c, a, s, lba, mode, newRef).blockSize == c.blockSize
  {
    GetBlockKeepsSize(c, Key(c.sessions[s].sessionId, lba), newRef);
  }

  lemma StepKeepsSize(c: Cache, e: Event)
    requires Enabled(c, e)
    ensures Step(c, e).blockSize == c.blockSize
  {
    if e.EvMap? { MapKeepsSize(c, e.a, e.s, e.lba, e.mode, e.newRef); }
  }

  /**
   In every good run from an empty cache, whatever the interleaving, every map for reading or
   updating yields the bytes most recently written for that session and block, and every map that asks for a
   cleared block yields as many zeros as a block has bytes.
   */
  lemma CacheRefinesStore(blockSize: nat, maxBlockCount: nat, es: seq<Event>)
    requires GoodRun(Init(blockSize, maxBlockCount), map[], es)
    ensures ReadsLastWritten(Trace(Init(blockSize, maxBlockCount), es))
    ensures forall o :: o in Trace(Init(blockSize, maxBlockCount), es) && o.Wiped? ==> AllZero(o.data, blockSize)
  {
    SizesObserved(Init(blockSize, maxBlockCount), es);
    var c := Init(blockSize, maxBlockCount);
    InitHolds(blockSize, maxBlockCount);
    RunRefines(c, map[], es);
    AcceptedReadsLastWritten([], map[], Trace(c, es));
    assert [] + Trace(c, es) == Trace(c, es);
  }

  // ---------------------------------------------------------------------------------------
  // Exactly when a step keeps the plain store

  lemma BreaksIfBlockBreaks(d: Cache, store: Plain, r: Ref)
    requires r in d.blocks && !BlockData(d.blocks[r], r, d.acts, d.disk, store)
    ensures !StoreInv(d, store)
  {
  }

  lemma PinnedSyncData(c: Cache, store: Plain, a: Act)
    requires Local(c, a) && CanUnmap(c, a, Sync) && c.blocks[c.acts[a].ref].isPinned
    ensures var d := Unmap(c, a, Sync);
            var r := c.acts[a].ref;
            var b := c.blocks[r];
            BlockData(d.blocks[r], r, d.acts, d.disk, store[b.key := b.data]) <==> Honest(c, store, EvUnmap(a, Sync))
  {
    LeftUntouched(c, a);
  }

  lemma UnmapExactly(c: Cache, store: Plain, a: Act, wmode: WriteMode)
    requires Inv(c) && StoreInv(c, store) && CanUnmap(c, a, wmode) && !Honest(c, store, EvUnmap(a, wmode))
    ensures !StoreInv(Unmap(c, a, wmode), PlainAfter(store, EvUnmap(a, wmode), c))
  {
    Here(c, store, a);
    if wmode == NoWrite {
      UnmapNoWriteData(c, store, a);
    } else {
      PinnedSyncData(c, store, a);
    }
    BreaksIfBlockBreaks(Unmap(c, a, wmode), PlainAfter(store, EvUnmap(a, wmode), c), c.acts[a].ref);
  }

  lemma FailedWriteData(c: Cache, store: Plain, s: SessionRef, err: Errno, rlen: nat, junk: Bytes)
    requires CanIoDone(c, s, err, rlen) && LocalBlock(c, s, c.sessions[s].dopsInUse[0].blk)
    requires c.sessions[s].dopsInUse[0].kind == Write && Status(err, rlen, c.blockSize) != EOK
    requires var r := c.sessions[s].dopsInUse[0].blk; BlockData(c.blocks[r], r, c.acts, c.disk, store)
    ensures var r := c.sessions[s].dopsInUse[0].blk;
            var d := IoDone(c, s, err, rlen, junk);
            BlockData(d.blocks[r], r, c.acts, d.disk, store) <==> Honest(c, store, EvIoDone(s, err, rlen, junk))
  {
    var o := c.sessions[s].dopsInUse[0];
    var b := c.blocks[o.blk];
    assert DiskOpOk(c.blocks, o, c.sessions[s].sessionId);
    UntouchedUnlessExclusive(b, o.blk, c.acts);
    var w :| IsWriterOf(c.acts, w, o.blk) && DoingIo(c.acts[w].phase);
    assert ActOk(b, c.acts[w]);
    assert !AwaitsWrite(c.acts, o.blk) by {
      forall a | a in c.acts && c.acts[a].ref == o.blk ensures !c.acts[a].phase.UnmapNeedsWrite? {
        if c.acts[a].phase.UnmapNeedsWrite? { assert IsWriterOf(c.acts, a, o.blk); }
      }
    }
  }

  lemma FailedWriteExactly(c: Cache, store: Plain, s: SessionRef, err: Errno, rlen: nat, junk: Bytes)
    requires Inv(c) && StoreInv(c, store) && CanIoDone(c, s, err, rlen)
    requires !Honest(c, store, EvIoDone(s, err, rlen, junk))
    ensures !StoreInv(IoDone(c, s, err, rlen, junk), store)
  {
    IoDoneHere(c, store, s);
    FailedWriteData(c, store, s, err, rlen, junk);
    BreaksIfBlockBreaks(IoDone(c, s, err, rlen, junk), store, c.sessions[s].dopsInUse[0].blk);
  }

  /** A step keeps the relation to the plain store exactly if it is honest. */
  lemma StepRefinesExactly(c: Cache, store: Plain, e: Event)
    requires Inv(c) && StoreInv(c, store) && Enabled(c, e) && Fair(c, e)
    ensures StoreInv(Step(c, e), PlainAfter(store, e, c)) <==> Honest(c, store, e)
  {
    if Honest(c, store, e) {
      StepRefines(c, store, e);
    } else if e.EvUnmap? {
      UnmapExactly(c, store, e.a, e.wmode);
    } else {
      FailedWriteExactly(c, store, e.s, e.err, e.rlen, e.junk);
    }
  }
}
