/** Lock tokens are conserved, and what that means for closing a session. */
module DiskCacheTokens {
  import opened DiskCacheModel
  import opened DiskCacheInvariant
  import opened DiskCacheSteps

  /** The lock tokens that clients hold on the listed blocks of the session with id `sid`. */
  ghost function TokenSum(blocks: map<Ref, DiskBlock>, refs: seq<Ref>, sid: nat): nat {
    if refs == [] then 0
    else (if refs[0] in blocks && blocks[refs[0]].key.sid == sid then Tokens(blocks[refs[0]]) else 0)
         + TokenSum(blocks, refs[1..], sid)
  }

  /** The client calls of session `s` that hold a lock on one of the listed blocks. */
  ghost function LockingCalls(acts: map<Act, Activity>, refs: seq<Ref>, s: SessionRef): set<Act> {
    set a | a in acts && acts[a].s == s && acts[a].held != NotHeld && acts[a].ref in refs
  }

  /** The client calls of session `s` that hold a lock but are not (or no longer) counted as a mapping. */
  ghost function CallsInProgress(acts: map<Act, Activity>, s: SessionRef): set<Act> {
    set a | a in acts && acts[a].s == s && acts[a].held != NotHeld && !CountsAsMapping(acts[a].phase)
  }

  ghost predicate NoDup(s: seq<Ref>) {
    forall i, j :: 0 <= i < j < |s| ==> s[i] != s[j]
  }

  lemma ListsNoDup(s: seq<Ref>, S: set<Ref>)
    requires Lists(s, S)
    ensures NoDup(s)
  {
    forall i, j | 0 <= i < j < |s| ensures s[i] != s[j] {
      assert s == s[..i] + [s[i]] + s[i + 1..j] + [s[j]] + s[j + 1..];
      assert multiset(s)[s[i]] <= 1;
    }
  }

  /** A block's holders are calls of the block's own session. */
  lemma HoldersOfSession(c: Cache, s: SessionRef, r: Ref)
    requires Inv(c) && IsOpen(c, s) && r in c.blocks
    ensures LockingCalls(c.acts, [r], s) ==
            if c.blocks[r].key.sid == c.sessions[s].sessionId then Holders(c.acts, r) else {}
  {
    forall a | a in Holders(c.acts, r)
      ensures c.acts[a].s == s <==> c.blocks[r].key.sid == c.sessions[s].sessionId {
      Localize(c, a);
      if c.blocks[r].key.sid == c.sessions[s].sessionId { assert SameId(c, c.acts[a].s, s); }
    }
  }

  lemma LockingSplit(acts: map<Act, Activity>, refs: seq<Ref>, s: SessionRef)
    requires refs != [] && NoDup(refs)
    ensures LockingCalls(acts, refs, s) == LockingCalls(acts, [refs[0]], s) + LockingCalls(acts, refs[1..], s)
    ensures LockingCalls(acts, [refs[0]], s) !! LockingCalls(acts, refs[1..], s)
  {
    assert refs == [refs[0]] + refs[1..];
  }

  lemma BlockTokens(c: Cache, s: SessionRef, r: Ref)
    requires Inv(c) && IsOpen(c, s) && r in c.blocks
    ensures |LockingCalls(c.acts, [r], s)| ==
            if c.blocks[r].key.sid == c.sessions[s].sessionId then Tokens(c.blocks[r]) else 0
  {
    HoldersOfSession(c, s, r);
    assert BlockInv(c.blocks[r], r, c.acts);
  }

  lemma {:induction false} TokensAreCalls(c: Cache, s: SessionRef, refs: seq<Ref>)
    requires Inv(c) && IsOpen(c, s) && NoDup(refs) && forall i :: 0 <= i < |refs| ==> refs[i] in c.blocks
    ensures TokenSum(c.blocks, refs, c.sessions[s].sessionId) == |LockingCalls(c.acts, refs, s)|
  {
    if refs != [] {
      TokensAreCalls(c, s, refs[1..]);
      BlockTokens(c, s, refs[0]);
      LockingSplit(c.acts, refs, s);
    } else {
      assert LockingCalls(c.acts, refs, s) == {};
    }
  }

  lemma CallsPartition(acts: map<Act, Activity>, lru: seq<Ref>, s: SessionRef)
    requires forall a :: a in acts ==>
               acts[a].ref in lru && (CountsAsMapping(acts[a].phase) ==> acts[a].held != NotHeld)
    ensures LockingCalls(acts, lru, s) == MappingsOf(acts, s) + CallsInProgress(acts, s)
    ensures MappingsOf(acts, s) !! CallsInProgress(acts, s)
  {
  }

  lemma CachedIsListed(c: Cache, r: Ref)
    requires IndexInv(c) && r in c.blocks
    ensures r in c.lru
  {
    ListsMember(c.lru, c.blocks.Keys, r);
  }

  lemma CallsIndexed(c: Cache, a: Act)
    requires Inv(c) && a in c.acts
    ensures c.acts[a].ref in c.lru && (CountsAsMapping(c.acts[a].phase) ==> c.acts[a].held != NotHeld)
  {
    Localize(c, a);
    MappingHolds(c, a);
    CachedIsListed(c, c.acts[a].ref);
  }

  lemma MappingHolds(c: Cache, a: Act)
    requires Local(c, a)
    ensures CountsAsMapping(c.acts[a].phase) ==> c.acts[a].held != NotHeld
  {
  }

  /**
   On every path, also the failing ones: the lock tokens on a session's blocks are its active
   mappings plus its calls that are still in progress.
   */
  lemma TokensConserved(c: Cache, s: SessionRef)
    requires Inv(c) && IsOpen(c, s)
    ensures TokenSum(c.blocks, c.lru, c.sessions[s].sessionId) ==
            c.sessions[s].activeMappingsCount + |CallsInProgress(c.acts, s)|
  {
    ListsNoDup(c.lru, c.blocks.Keys);
    forall i | 0 <= i < |c.lru| ensures c.lru[i] in c.blocks { ListsMember(c.lru, c.blocks.Keys, c.lru[i]); }
    TokensAreCalls(c, s, c.lru);
    forall a | a in c.acts
      ensures c.acts[a].ref in c.lru && (CountsAsMapping(c.acts[a].phase) ==> c.acts[a].held != NotHeld) {
      CallsIndexed(c, a);
    }
    CallsPartition(c.acts, c.lru, s);
    assert SessionOk(c, s);
  }

  /** A session that passes the loop of CloseSession holds no block iff none of its calls is in progress. */
  lemma ClosedSessionHoldsNothing(c: Cache, s: SessionRef)
    requires Inv(c) && CanClose(c, s)
    ensures TokenSum(c.blocks, c.lru, c.sessions[s].sessionId) == 0 <==> CallsInProgress(c.acts, s) == {}
  {
    TokensConserved(c, s);
  }

  // ---------------------------------------------------------------------------------------
  // Reachable states

  /** In every reachable state: the written lock and I/O rules, the index, the counters. */
  lemma ReachableStates(blockSize: nat, maxBlockCount: nat, es: seq<Event>)
    requires FairRun(Init(blockSize, maxBlockCount), es)
    ensures var c := EndOf(Init(blockSize, maxBlockCount), es);
            && IndexInv(c)
            && c.dirtyBlockCount == |DirtySet(c.blocks)|
            && (forall r :: r in c.blocks ==>
                  var b := c.blocks[r];
                  && (b.exclusive ==> b.shareCount == 0)
                  && (b.op == Read ==> b.exclusive)
                  && (b.op == Write ==> !b.exclusive && b.shareCount > 0)
                  && (b.isDirty ==> b.hasData))
            && (forall s :: IsOpen(c, s) ==>
                  TokenSum(c.blocks, c.lru, c.sessions[s].sessionId) ==
                  c.sessions[s].activeMappingsCount + |CallsInProgress(c.acts, s)|)
  {
    InitHolds(blockSize, maxBlockCount);
    RunKeepsInv(Init(blockSize, maxBlockCount), es);
    var c := EndOf(Init(blockSize, maxBlockCount), es);
    forall s | IsOpen(c, s)
      ensures TokenSum(c.blocks, c.lru, c.sessions[s].sessionId) ==
              c.sessions[s].activeMappingsCount + |CallsInProgress(c.acts, s)| {
      TokensConserved(c, s);
    }
    forall r | r in c.blocks ensures BlockInv(c.blocks[r], r, c.acts) {
    }
  }
}
