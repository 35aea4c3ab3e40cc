/** The console's side of terminal reports, in place: the ring buffer and the buffer for partial messages. */
module ConsoleReports {
  import opened Memory
  import opened RingBuffer
  import opened ReportQueue

  class ReportBuffer {
    const reportsQueue: CBuf
    /** `chb`: a message on its way to the reader. */
    const buffer: array<Byte>
    var count: nat
    var index: nat
    /** The messages that the ring buffer holds. */
    ghost var queued: seq<Message>

    ghost predicate Valid()
      reads this, reportsQueue, reportsQueue.data, buffer
    {
      && reportsQueue.Valid() && buffer.Length == MAX_MESSAGE_LENGTH <= reportsQueue.data.Length
      && buffer != reportsQueue.data
      && BufferOk()
      && reportsQueue.contents == Stored(queued)
      && forall i :: 0 <= i < |queued| ==> IsMessage(queued[i])
    }

    ghost predicate BufferOk()
      reads this
    {
      buffer.Length == MAX_MESSAGE_LENGTH && count < MAX_MESSAGE_LENGTH
        && (count > 0 ==> index + count <= buffer.Length)
    }

    function Pending(): (s: seq<Byte>)
      requires BufferOk()
      reads this, buffer
      ensures |s| == count
    {
      if count == 0 then [] else buffer[index..index + count]
    }

    ghost function State(): Reports
      requires BufferOk()
      reads this, buffer
    {
      Reports(queued, Pending())
    }

    constructor ()
      ensures Valid() && State() == EMPTY
      ensures fresh(reportsQueue) && fresh(reportsQueue.data) && fresh(buffer)
    {
      reportsQueue := new CBuf(128);
      buffer := new Byte[MAX_MESSAGE_LENGTH];
      count, index, queued := 0, 0, [];
    }

    /** Removes the oldest message. */
    method DropMessage()
      requires Valid() && queued != []
      modifies `queued, reportsQueue`readIdx, reportsQueue`contents
      ensures Valid() && queued == old(queued)[1..]
    {
      ghost var tail, rest := queued[0], Stored(queued[1..]);
      assert IsMessage(tail);
      var b: Byte := 1;
      while b != 0
        invariant reportsQueue.Valid() && NulFree(tail) && queued == old(queued)
        invariant reportsQueue.contents == if b == 0 then rest else tail + [0] + rest
        decreases if b == 0 then 0 else |tail| + 1
      {
        ghost var before := reportsQueue.contents;
        var _, c := reportsQueue.Get();
        NextOf(tail, rest, before, c, reportsQueue.contents);
        b := c;
        if b != 0 { tail := tail[1..]; }
      }
      queued := queued[1..];
    }

    /** `Console_PostReport` */
    method PostReport(msg: Message)
      requires Valid() && IsMessage(msg)
      modifies `queued, reportsQueue, reportsQueue.data
      ensures Valid() && State() == Posted(old(State()), reportsQueue.data.Length, msg)
    {
      var nBytesToWrite := |msg| + 1;
      ghost var all, k := queued, 0;
      assert all[0..] == all;
      while reportsQueue.Writable() < nBytesToWrite
        invariant Valid() && 0 <= k <= |all| && queued == all[k..]
        invariant Surplus(all, reportsQueue.data.Length, nBytesToWrite)
                    == k + Surplus(queued, reportsQueue.data.Length, nBytesToWrite)
        decreases |queued|
      {
        DropMessage();
        k := k + 1;
      }
      StoredMore(queued, msg);
      assert Stored(queued) + (msg + [0]) == Stored(queued) + msg + [0];
      var n := reportsQueue.Puts(msg + [0]);
      queued := queued + [msg];
    }

    /** Moves the oldest message from the ring buffer into the character buffer. */
    method FetchMessage()
      requires Valid() && count == 0 && queued != []
      modifies this, buffer, reportsQueue`readIdx, reportsQueue`contents
      ensures Valid() && queued == old(queued)[1..] && Pending() == old(queued)[0] && (count > 0 ==> index == 0)
    {
      ghost var m, tail, rest := queued[0], queued[0], Stored(queued[1..]);
      assert IsMessage(m);
      index := 0;
      while true
        invariant reportsQueue.Valid() && NulFree(tail) && index == 0 && queued == old(queued)
        invariant reportsQueue.contents == tail + [0] + rest && count + |tail| == |m| && buffer[..count] + tail == m
        decreases |tail|
      {
        ghost var before := reportsQueue.contents;
        var _, b := reportsQueue.Get();
        NextOf(tail, rest, before, b, reportsQueue.contents);
        if b == 0 {
          break;
        }
        buffer[count] := b;
        count := count + 1;
        tail := tail[1..];
      }
      queued := queued[1..];
    }

    /** Hands out up to `n` pending bytes. */
    method TakePending(n: nat) returns (bytes: seq<Byte>)
      requires BufferOk()
      modifies `count, `index
      ensures BufferOk() && |bytes| <= n && (|bytes| < n ==> count == 0)
      ensures old(Pending()) == bytes + Pending()
    {
      ghost var all, from := Pending(), index;
      bytes := [];
      while |bytes| < n && count > 0
        invariant BufferOk() && |bytes| <= n && |bytes| + count == |all| && (count > 0 ==> index == from + |bytes|)
        invariant bytes == all[..|bytes|]
        decreases count
      {
        bytes := bytes + [buffer[index]];
        index, count := index + 1, count - 1;
      }
      assert all[|bytes|..] == Pending();
    }

    /** `Console_ReadReports_NonBlocking` */
    method ReadReports(n: nat) returns (bytes: seq<Byte>)
      requires Valid() && (n > 0 ==> count == 0)
      modifies this, buffer, reportsQueue`readIdx, reportsQueue`contents
      ensures Valid() && Read(old(State()), n) == Reading(bytes, State())
    {
      bytes := [];
      NothingRead(Read(State(), n));
      while |bytes| < n
        invariant Valid() && |bytes| <= n && (|bytes| < n ==> count == 0)
        invariant Read(old(State()), n) == Prepend(bytes, Read(State(), n - |bytes|))
        decreases |queued|
      {
        EmptyIff(queued);
        if reportsQueue.Empty() {
          break;
        }
        ghost var before := State();
        FetchMessage();
        ghost var fetched := State();
        var more := TakePending(n - |bytes|);
        ReadTaken(before, fetched, n - |bytes|, more, State(), bytes);
        bytes := bytes + more;
        if count > 0 {
          break;
        }
      }
      EmptyIff(queued);
      NothingMore(State(), n - |bytes|, bytes);
    }

    /** `Console_Read` as far as reports are concerned. */
    method ReadBytes(n: nat) returns (bytes: seq<Byte>)
      requires Valid()
      modifies this, buffer, reportsQueue`readIdx, reportsQueue`contents
      ensures Valid() && Read(old(State()), n) == Reading(bytes, State())
    {
      ghost var before := State();
      bytes := TakePending(n);
      ReadPending(before, n, bytes, Pending());
      EmptyIff(queued);
      if !reportsQueue.Empty() {
        var more := ReadReports(n - |bytes|);
        bytes := bytes + more;
      } else {
        NothingMore(State(), n - |bytes|, bytes);
      }
    }
  }

  function Prepend(bytes: seq<Byte>, r: Reading): Reading {
    Reading(bytes + r.bytes, r.left)
  }

  lemma NothingRead(r: Reading)
    ensures Prepend([], r) == r
  {
    assert [] + r.bytes == r.bytes;
  }

  lemma PrependTwice(a: seq<Byte>, b: seq<Byte>, r: Reading)
    ensures Prepend(a, Prepend(b, r)) == Prepend(a + b, r)
  {
    assert a + (b + r.bytes) == a + b + r.bytes;
  }

  lemma EmptyIff(ms: seq<Message>)
    ensures Stored(ms) == [] <==> ms == []
  {
    if ms != [] { assert |Stored(ms)| >= 1; }
  }

  /** There is nothing more to read, or no more room for it. */
  lemma NothingMore(r: Reports, n: nat, bytes: seq<Byte>)
    requires n == 0 || (r.pending == [] && r.queued == [])
    ensures Prepend(bytes, Read(r, n)) == Reading(bytes, r)
  {
    assert bytes + [] == bytes;
  }

  /** Reading starts with the pending bytes. */
  lemma {:induction false} ReadPending(r: Reports, n: nat, bytes: seq<Byte>, rest: seq<Byte>)
    requires r.pending == bytes + rest && |bytes| <= n && (|bytes| < n ==> rest == [])
    ensures Read(r, n) == Prepend(bytes, Read(r.(pending := rest), n - |bytes|))
    decreases |bytes|
  {
    if bytes == [] {
      assert rest == r.pending;
      NothingRead(Read(r, n));
    } else {
      var s := r.(pending := r.pending[1..]);
      ReadPending(s, n - 1, bytes[1..], rest);
      assert s.(pending := rest) == r.(pending := rest);
      PrependTwice([bytes[0]], bytes[1..], Read(r.(pending := rest), n - |bytes|));
      assert [bytes[0]] + bytes[1..] == bytes;
    }
  }

  /** Then come the bytes of the oldest message. */
  lemma ReadTaken(before: Reports, fetched: Reports, n: nat, more: seq<Byte>, after: Reports, bytes: seq<Byte>)
    requires n > 0 && before.pending == [] && before.queued != []
    requires fetched == Reports(before.queued[1..], before.queued[0])
    requires fetched.pending == more + after.pending && after.queued == fetched.queued && |more| <= n
    requires (|more| < n ==> after.pending == [])
    ensures Prepend(bytes, Read(before, n)) == Prepend(bytes + more, Read(after, n - |more|))
  {
    ReadPending(fetched, n, more, after.pending);
    PrependTwice(bytes, more, Read(after, n - |more|));
  }

  /** The first byte of a stored message is its first character or, at its end, the NUL. */
  lemma NextOf(tail: Message, rest: seq<Byte>, before: seq<Byte>, b: Byte, after: seq<Byte>)
    requires NulFree(tail) && before == tail + [0] + rest && before == [b] + after
    ensures b == 0 ==> tail == [] && after == rest
    ensures b != 0 ==> tail != [] && b == tail[0] && after == tail[1..] + [0] + rest
  {
    assert b == before[0] && after == before[1..];
    assert before[0] == if tail == [] then 0 else tail[0];
  }
}
