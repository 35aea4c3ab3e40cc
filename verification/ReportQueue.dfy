/** Terminal reports: messages that wait until a program reads them, and what becomes of every message. */
module ReportQueue {
  import opened Memory

  /** A message is a C string of at most 15 bytes. */
  type Message = seq<Byte>

  const MAX_MESSAGE_LENGTH := 16

  ghost predicate IsMessage(m: Message) {
    |m| + 1 < MAX_MESSAGE_LENGTH + 1 && forall i :: 0 <= i < |m| ==> m[i] != 0
  }

  /** The messages in the ring buffer, and the rest of the message that was read partially. */
  datatype Reports = Reports(queued: seq<Message>, pending: seq<Byte>)

  ghost predicate Ok(r: Reports, capacity: nat) {
    && (forall i :: 0 <= i < |r.queued| ==> IsMessage(r.queued[i]))
    && |Stored(r.queued)| <= capacity && |r.pending| < MAX_MESSAGE_LENGTH
  }

  /** The messages as they are stored, each one with a NUL behind it. */
  function Stored(ms: seq<Message>): seq<Byte> {
    if ms == [] then [] else ms[0] + [0] + Stored(ms[1..])
  }

  /** The messages as they are read. */
  function Text(ms: seq<Message>): seq<Byte> {
    if ms == [] then [] else ms[0] + Text(ms[1..])
  }

  lemma {:induction false} StoredMore(ms: seq<Message>, m: Message)
    ensures Stored(ms + [m]) == Stored(ms) + m + [0]
  {
    if ms == [] {
      assert ms + [m] == [m] && [m][1..] == [];
    } else {
      StoredMore(ms[1..], m);
      assert (ms + [m])[1..] == ms[1..] + [m];
      assert Stored(ms + [m]) == ms[0] + [0] + (Stored(ms[1..]) + m + [0]) == Stored(ms) + m + [0];
    }
  }

  // ---------------------------------------------------------------------------------------
  // Posting

  /** How many of the oldest messages have to go so that `n` bytes fit. */
  function Surplus(ms: seq<Message>, capacity: nat, n: nat): (k: nat)
    ensures k <= |ms|
  {
    if ms == [] || capacity - |Stored(ms)| >= n then 0 else 1 + Surplus(ms[1..], capacity, n)
  }

  function Posted(r: Reports, capacity: nat, m: Message): Reports {
    r.(queued := r.queued[Surplus(r.queued, capacity, |m| + 1)..] + [m])
  }

  /** Enough messages are dropped, and no more than necessary. */
  lemma {:induction false} SurplusIsLeast(ms: seq<Message>, capacity: nat, n: nat, k: nat)
    requires n <= capacity
    ensures |Stored(ms[Surplus(ms, capacity, n)..])| + n <= capacity
    ensures k < Surplus(ms, capacity, n) ==> |Stored(ms[k..])| + n > capacity
  {
    if ms != [] && capacity - |Stored(ms)| < n {
      SurplusIsLeast(ms[1..], capacity, n, if k > 0 then k - 1 else 0);
      assert ms[Surplus(ms, capacity, n)..] == ms[1..][Surplus(ms[1..], capacity, n)..];
      if k > 0 && k < Surplus(ms, capacity, n) { assert ms[k..] == ms[1..][k - 1..]; }
    }
    assert ms[0..] == ms;
  }

  lemma PostedIsOk(r: Reports, capacity: nat, m: Message)
    requires Ok(r, capacity) && IsMessage(m) && MAX_MESSAGE_LENGTH <= capacity
    ensures Ok(Posted(r, capacity, m), capacity)
  {
    var k := Surplus(r.queued, capacity, |m| + 1);
    SurplusIsLeast(r.queued, capacity, |m| + 1, 0);
    StoredMore(r.queued[k..], m);
  }

  // ---------------------------------------------------------------------------------------
  // Reading

  /** What a read of up to `n` bytes returns and what it leaves behind. */
  datatype Reading = Reading(bytes: seq<Byte>, left: Reports)

  function Read(r: Reports, n: nat): Reading
    decreases n, |r.queued|
  {
    if n == 0 then Reading([], r)
    else if r.pending != [] then
      var rest := Read(r.(pending := r.pending[1..]), n - 1);
      Reading([r.pending[0]] + rest.bytes, rest.left)
    else if r.queued != [] then Read(Reports(r.queued[1..], r.queued[0]), n)
    else Reading([], r)
  }

  lemma {:induction false} ReadLeavesSuffix(r: Reports, n: nat)
    ensures |Read(r, n).bytes| <= n
    ensures |Read(r, n).left.queued| <= |r.queued|
    ensures Read(r, n).left.queued == r.queued[|r.queued| - |Read(r, n).left.queued|..]
    decreases n, |r.queued|
  {
    if n > 0 {
      if r.pending != [] {
        ReadLeavesSuffix(r.(pending := r.pending[1..]), n - 1);
      } else if r.queued != [] {
        ReadLeavesSuffix(Reports(r.queued[1..], r.queued[0]), n);
      }
    }
  }

  lemma {:induction false} StoredSuffix(ms: seq<Message>, k: nat)
    requires k <= |ms|
    ensures |Stored(ms[k..])| <= |Stored(ms)|
  {
    if k > 0 {
      StoredSuffix(ms[1..], k - 1);
      assert ms[k..] == ms[1..][k - 1..];
    } else {
      assert ms[k..] == ms;
    }
  }

  lemma {:induction false} ReadIsOk(r: Reports, capacity: nat, n: nat)
    requires Ok(r, capacity)
    ensures Ok(Read(r, n).left, capacity)
    decreases n, |r.queued|
  {
    if n > 0 {
      if r.pending != [] {
        ReadIsOk(r.(pending := r.pending[1..]), capacity, n - 1);
      } else if r.queued != [] {
        StoredSuffix(r.queued, 1);
        assert IsMessage(r.queued[0]);
        ReadIsOk(Reports(r.queued[1..], r.queued[0]), capacity, n);
      }
    }
  }

  lemma {:induction false} ReadConservesAll(r: Reports, n: nat)
    ensures var got := Read(r, n);
            r.pending + Text(r.queued) == got.bytes + (got.left.pending + Text(got.left.queued))
    decreases n, |r.queued|
  {
    if n > 0 {
      if r.pending != [] {
        var s, first := r.(pending := r.pending[1..]), [r.pending[0]];
        ReadConservesAll(s, n - 1);
        var rest := Read(s, n - 1);
        Prefixed(first, s.pending, Text(r.queued), rest.bytes, rest.left.pending + Text(rest.left.queued));
        assert first + s.pending == r.pending;
      } else if r.queued != [] {
        ReadConservesAll(Reports(r.queued[1..], r.queued[0]), n);
      }
    }
  }

  lemma Prefixed(p: seq<Byte>, a: seq<Byte>, b: seq<Byte>, x: seq<Byte>, y: seq<Byte>)
    requires a + b == x + y
    ensures p + a + b == p + x + y
  {
    assert p + a + b == p + (a + b) && p + x + y == p + (x + y);
  }

  lemma Cancel(a: seq<Byte>, b: seq<Byte>, c: seq<Byte>)
    requires a + c == b + c
    ensures a == b
  {
    assert |a| == |b|;
    assert a == (a + c)[..|a|] && b == (b + c)[..|b|];
  }

  /** A read takes messages off the queue, one after the other, and returns their bytes. */
  lemma ReadConserves(r: Reports, n: nat, taken: seq<Message>)
    requires |Read(r, n).left.queued| <= |r.queued| && taken == r.queued[..|r.queued| - |Read(r, n).left.queued|]
    ensures r.pending + Text(taken) == Read(r, n).bytes + Read(r, n).left.pending
  {
    ReadLeavesSuffix(r, n);
    ReadConservesAll(r, n);
    var got := Read(r, n);
    var rest := Text(got.left.queued);
    assert r.queued == taken + got.left.queued;
    TextSplit(taken, got.left.queued);
    assert r.pending + Text(taken) + rest == r.pending + (Text(taken) + rest);
    assert got.bytes + got.left.pending + rest == got.bytes + (got.left.pending + rest);
    Cancel(r.pending + Text(taken), got.bytes + got.left.pending, rest);
  }

  lemma Grouped(a: seq<Byte>, b: seq<Byte>, c: seq<Byte>)
    ensures a + b + c == a + (b + c)
  {
  }

  lemma {:induction false} TextSplit(a: seq<Message>, b: seq<Message>)
    ensures Text(a + b) == Text(a) + Text(b)
  {
    if a == [] {
      assert a + b == b;
    } else {
      TextSplit(a[1..], b);
      assert (a + b)[1..] == a[1..] + b;
      Grouped(a[0], Text(a[1..]), Text(b));
    }
  }

  // ---------------------------------------------------------------------------------------
  // Runs

  datatype Event = Post(m: Message) | ReadBytes(n: nat)

  datatype Fate = Dropped | Delivered

  /** All messages ever posted, what became of those that left the queue, and the bytes that were read. */
  datatype History = History(posted: seq<Message>, fates: seq<Fate>, read: seq<Byte>)

  function After(r: Reports, capacity: nat, e: Event): Reports {
    match e
    case Post(m) => Posted(r, capacity, m)
    case ReadBytes(n) => Read(r, n).left
  }

  function Noted(r: Reports, capacity: nat, h: History, e: Event): History {
    match e
    case Post(m) => h.(posted := h.posted + [m],
                       fates := h.fates + Repeat(Dropped, Surplus(r.queued, capacity, |m| + 1)))
    case ReadBytes(n) =>
      ReadLeavesSuffix(r, n);
      h.(fates := h.fates + Repeat(Delivered, |r.queued| - |Read(r, n).left.queued|), read := h.read + Read(r, n).bytes)
  }

  /** The messages that were delivered, in the order in which they were posted. */
  function Kept(ms: seq<Message>, fates: seq<Fate>): seq<Message>
    requires |fates| <= |ms|
  {
    if fates == [] then []
    else
      var n := |fates| - 1;
      Kept(ms, fates[..n]) + if fates[n] == Delivered then [ms[n]] else []
  }

  /**
   The queue is what was posted last; the bytes that were read are the texts of whole delivered messages
   in posting order, up to the rest of the last one that is still pending.
   */
  ghost predicate Intact(r: Reports, h: History) {
    && |h.fates| <= |h.posted| && r.queued == h.posted[|h.fates|..]
    && Text(Kept(h.posted, h.fates)) == h.read + r.pending
  }

  lemma {:induction false} KeptPrefix(ms: seq<Message>, more: seq<Message>, fates: seq<Fate>)
    requires |fates| <= |ms|
    ensures Kept(ms + more, fates) == Kept(ms, fates)
  {
    if fates != [] { KeptPrefix(ms, more, fates[..|fates| - 1]); }
  }

  lemma {:induction false} KeptDropped(ms: seq<Message>, fates: seq<Fate>, n: nat)
    requires |fates| + n <= |ms|
    ensures Kept(ms, fates + Repeat(Dropped, n)) == Kept(ms, fates)
  {
    if n == 0 {
      assert fates + Repeat(Dropped, n) == fates;
    } else {
      KeptDropped(ms, fates, n - 1);
      var all := fates + Repeat(Dropped, n);
      assert all[..|all| - 1] == fates + Repeat(Dropped, n - 1);
    }
  }

  lemma {:induction false} KeptDelivered(ms: seq<Message>, fates: seq<Fate>, n: nat)
    requires |fates| + n <= |ms|
    ensures Kept(ms, fates + Repeat(Delivered, n)) == Kept(ms, fates) + ms[|fates|..|fates| + n]
  {
    var k := |fates|;
    if n == 0 {
      assert fates + Repeat(Delivered, n) == fates;
    } else {
      var m, last := n - 1, k + n - 1;
      KeptDelivered(ms, fates, m);
      var all := fates + Repeat(Delivered, n);
      assert all[..last] == fates + Repeat(Delivered, m) && all[last] == Delivered;
      assert ms[k..k + n] == ms[k..k + m] + [ms[last]];
    }
  }

  lemma PostKeepsIntact(r: Reports, capacity: nat, h: History, m: Message)
    requires Intact(r, h)
    ensures Intact(After(r, capacity, Post(m)), Noted(r, capacity, h, Post(m)))
  {
    var k := Surplus(r.queued, capacity, |m| + 1);
    var all := h.posted + [m];
    KeptPrefix(h.posted, [m], h.fates);
    KeptDropped(all, h.fates, k);
    assert all[|h.fates| + k..] == r.queued[k..] + [m];
  }

  lemma ReadKeepsIntact(r: Reports, capacity: nat, h: History, n: nat)
    requires Intact(r, h)
    ensures Intact(After(r, capacity, ReadBytes(n)), Noted(r, capacity, h, ReadBytes(n)))
  {
    var got := Read(r, n);
    ReadLeavesSuffix(r, n);
    var k := |r.queued| - |got.left.queued|;
    var taken, kept := r.queued[..k], Kept(h.posted, h.fates);
    ReadConserves(r, n, taken);
    KeptDelivered(h.posted, h.fates, k);
    assert h.posted[|h.fates|..|h.fates| + k] == taken;
    assert got.left.queued == r.queued[k..];
    TextSplit(kept, taken);
    Prefixed(h.read, r.pending, Text(taken), got.bytes, got.left.pending);
    assert h.posted[|h.fates| + k..] == r.queued[k..];
  }

  function RunReports(r: Reports, capacity: nat, es: seq<Event>): Reports {
    if es == [] then r else After(RunReports(r, capacity, es[..|es| - 1]), capacity, es[|es| - 1])
  }

  function RunHistory(r: Reports, capacity: nat, h: History, es: seq<Event>): History {
    if es == [] then h
    else
      var front := es[..|es| - 1];
      Noted(RunReports(r, capacity, front), capacity, RunHistory(r, capacity, h, front), es[|es| - 1])
  }

  const EMPTY := Reports([], [])
  const NOTHING := History([], [], [])

  ghost predicate Wellformed(es: seq<Event>) {
    forall i :: 0 <= i < |es| && es[i].Post? ==> IsMessage(es[i].m)
  }

  /** Integrity of the report stream: over any interleaving of posts and reads of any size. */
  lemma {:induction false} StreamIsIntact(capacity: nat, es: seq<Event>)
    requires Wellformed(es) && MAX_MESSAGE_LENGTH <= capacity
    ensures Ok(RunReports(EMPTY, capacity, es), capacity)
    ensures Intact(RunReports(EMPTY, capacity, es), RunHistory(EMPTY, capacity, NOTHING, es))
  {
    if es != [] {
      var front, e := es[..|es| - 1], es[|es| - 1];
      StreamIsIntact(capacity, front);
      var r, h := RunReports(EMPTY, capacity, front), RunHistory(EMPTY, capacity, NOTHING, front);
      match e
      case Post(m) =>
        PostedIsOk(r, capacity, m);
        PostKeepsIntact(r, capacity, h, m);
      case ReadBytes(n) =>
        ReadIsOk(r, capacity, n);
        ReadKeepsIntact(r, capacity, h, n);
    }
  }
}
