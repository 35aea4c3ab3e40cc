/** The key table of the key map compiler: adding keys, sorting them, splitting them into ranges. */
module KeyMapSource {
  import opened Memory

  type Code = c: int | 0 <= c < 0x1_0000

  /** What a `key` statement of a .keys file says about one key. */
  datatype Meaning =
    | Chars(b0: Byte, b1: Byte, b2: Byte, b3: Byte) // unmodified, shift, alt, shift + alt
    | Text(s: seq<Byte>)

  datatype Entry = Entry(code: Code, meaning: Meaning)

  // ---------------------------------------------------------------------------------------
  // The compiler's own tables

  datatype KeyType = FourBytes | String

  function TypeNumber(t: KeyType): (n: nat) {
    match t
    case FourBytes => 0
    case String => 3
  }

  datatype KeyValue = Four(b0: Byte, b1: Byte, b2: Byte, b3: Byte) | StringIdx(idx: nat)

  datatype Key = Key(keyCode: Code, value: KeyValue)

  function TypeOf(k: Key): KeyType {
    if k.value.Four? then FourBytes else String
  }

  datatype KeyRange = KeyRange(keyType: KeyType, lowerKeyIndex: nat, upperKeyIndex: nat)

  ghost predicate ValidKey(k: Key, strings: seq<seq<Byte>>) {
    k.value.StringIdx? ==> k.value.idx < |strings|
  }

  function MeaningOf(k: Key, strings: seq<seq<Byte>>): Meaning
    requires ValidKey(k, strings)
  {
    match k.value
    case Four(b0, b1, b2, b3) => Chars(b0, b1, b2, b3)
    case StringIdx(i) => Text(strings[i])
  }

  ghost predicate Distinct(strings: seq<seq<Byte>>) {
    forall i, j :: 0 <= i < j < |strings| ==> strings[i] != strings[j]
  }

  /** The table with the string, which is added if the table does not have it yet. */
  function WithString(strings: seq<seq<Byte>>, str: seq<Byte>): seq<seq<Byte>> {
    if str in strings then strings else strings + [str]
  }

  /** Where the string stands in the table. */
  function IndexOf(table: seq<seq<Byte>>, str: seq<Byte>): nat {
    if table == [] || table[0] == str then 0 else 1 + IndexOf(table[1..], str)
  }

  lemma {:induction false} IndexOfIs(table: seq<seq<Byte>>, str: seq<Byte>, i: nat)
    requires i < |table| && table[i] == str && str !in table[..i]
    ensures IndexOf(table, str) == i
  {
    if i > 0 {
      assert table[0] == table[..i][0];
      assert table[1..][..i - 1] == table[..i][1..];
      IndexOfIs(table[1..], str, i - 1);
    }
  }

  /** Returns the index of the string, which is added if the table does not have it yet. */
  method AddAndUniqueString(strings: seq<seq<Byte>>, str: seq<Byte>) returns (table: seq<seq<Byte>>, idx: nat)
    requires Distinct(strings)
    ensures idx < |table| && table[idx] == str && Distinct(table)
    ensures table == WithString(strings, str) && idx == IndexOf(table, str)
  {
    for i := 0 to |strings|
      invariant str !in strings[..i]
    {
      if strings[i] == str {
        IndexOfIs(strings, str, i);
        return strings, i;
      }
      assert strings[..i + 1] == strings[..i] + [strings[i]];
    }
    assert strings[..|strings|] == strings && (strings + [str])[..|strings|] == strings;
    IndexOfIs(strings + [str], str, |strings|);
    return strings + [str], |strings|;
  }

  /** The key says what the statement says. */
  ghost predicate KeyFor(k: Key, strings: seq<seq<Byte>>, e: Entry) {
    ValidKey(k, strings) && k.keyCode == e.code && MeaningOf(k, strings) == e.meaning
  }

  /** Every string of the table is the text of one of the statements. */
  ghost predicate StringsOf(strings: seq<seq<Byte>>, entries: seq<Entry>) {
    forall j :: 0 <= j < |strings| ==> HasText(entries, strings[j])
  }

  ghost predicate HasText(entries: seq<Entry>, s: seq<Byte>) {
    exists e :: e in entries && e.meaning == Text(s)
  }

  /** The strings of the first `n` statements, in the order of their first use. */
  function StringsFor(entries: seq<Entry>, n: nat): seq<seq<Byte>>
    requires n <= |entries|
  {
    if n == 0 then []
    else if entries[n - 1].meaning.Text? then WithString(StringsFor(entries, n - 1), entries[n - 1].meaning.s)
    else StringsFor(entries, n - 1)
  }

  /** The key for a statement, next to a table that has its string. */
  function KeyOf(table: seq<seq<Byte>>, e: Entry): Key {
    match e.meaning
    case Text(s) => Key(e.code, StringIdx(IndexOf(table, s)))
    case Chars(b0, b1, b2, b3) => Key(e.code, Four(b0, b1, b2, b3))
  }

  /** The keys of the first `n` statements. */
  function KeysFor(entries: seq<Entry>, n: nat): (keys: seq<Key>)
    requires n <= |entries|
    ensures |keys| == n
  {
    if n == 0 then [] else KeysFor(entries, n - 1) + [KeyOf(StringsFor(entries, n), entries[n - 1])]
  }

  /** Parsing one `key` statement. */
  method AddKey(strings: seq<seq<Byte>>, e: Entry) returns (table: seq<seq<Byte>>, key: Key)
    requires Distinct(strings)
    ensures Distinct(table) && strings <= table && KeyFor(key, table, e) && key == KeyOf(table, e)
    ensures table == if e.meaning.Text? then WithString(strings, e.meaning.s) else strings
    ensures forall j :: |strings| <= j < |table| ==> e.meaning == Text(table[j])
  {
    match e.meaning
    case Text(s) =>
      var idx;
      table, idx := AddAndUniqueString(strings, s);
      key := Key(e.code, StringIdx(idx));
    case Chars(b0, b1, b2, b3) =>
      table := strings;
      key := Key(e.code, Four(b0, b1, b2, b3));
  }

  lemma KeyForExtended(k: Key, strings: seq<seq<Byte>>, table: seq<seq<Byte>>, e: Entry)
    requires KeyFor(k, strings, e) && strings <= table
    ensures KeyFor(k, table, e)
  {
  }

  lemma StringsExtended(strings: seq<seq<Byte>>, table: seq<seq<Byte>>, entries: seq<Entry>, e: Entry)
    requires StringsOf(strings, entries) && strings <= table
    requires forall j :: |strings| <= j < |table| ==> e.meaning == Text(table[j])
    ensures StringsOf(table, entries + [e])
  {
    forall j | 0 <= j < |table| ensures HasText(entries + [e], table[j]) {
      if j < |strings| {
        assert HasText(entries, strings[j]);
        var x :| x in entries && x.meaning == Text(strings[j]);
        assert x in entries + [e];
      } else {
        assert e in entries + [e];
      }
    }
  }

  ghost predicate KeysSay(keys: seq<Key>, strings: seq<seq<Byte>>, entries: seq<Entry>, n: nat)
    requires n <= |entries|
  {
    |keys| == n && forall i :: 0 <= i < n ==> KeyFor(keys[i], strings, entries[i])
  }

  lemma OneKeyMore(keys: seq<Key>, strings: seq<seq<Byte>>, entries: seq<Entry>, n: nat, table: seq<seq<Byte>>,
                   key: Key)
    requires n < |entries| && KeysSay(keys, strings, entries, n) && strings <= table && KeyFor(key, table, entries[n])
    ensures KeysSay(keys + [key], table, entries, n + 1)
  {
    forall i | 0 <= i < n ensures KeyFor(keys[i], table, entries[i]) {
      KeyForExtended(keys[i], strings, table, entries[i]);
    }
  }

  lemma OneStringMore(strings: seq<seq<Byte>>, table: seq<seq<Byte>>, entries: seq<Entry>, n: nat)
    requires n < |entries| && StringsOf(strings, entries[..n]) && strings <= table
    requires forall j :: |strings| <= j < |table| ==> entries[n].meaning == Text(table[j])
    ensures StringsOf(table, entries[..n + 1])
  {
    StringsExtended(strings, table, entries[..n], entries[n]);
    assert entries[..n] + [entries[n]] == entries[..n + 1];
  }

  /** The table that parsing a .keys file builds: one key per statement, strings stored once. */
  method BuildTable(entries: seq<Entry>) returns (keys: seq<Key>, strings: seq<seq<Byte>>)
    ensures Distinct(strings) && StringsOf(strings, entries) && KeysSay(keys, strings, entries, |entries|)
    ensures keys == KeysFor(entries, |entries|) && strings == StringsFor(entries, |entries|)
  {
    keys, strings := [], [];
    for n := 0 to |entries|
      invariant Distinct(strings) && StringsOf(strings, entries[..n]) && KeysSay(keys, strings, entries, n)
      invariant keys == KeysFor(entries, n) && strings == StringsFor(entries, n)
    {
      var table, key := AddKey(strings, entries[n]);
      OneKeyMore(keys, strings, entries, n, table, key);
      OneStringMore(strings, table, entries, n);
      keys, strings := keys + [key], table;
    }
    assert entries[..|entries|] == entries;
  }

  // ---------------------------------------------------------------------------------------
  // Sorting

  ghost predicate DistinctCodes(keys: seq<Key>) {
    forall i, j :: 0 <= i < j < |keys| ==> keys[i].keyCode != keys[j].keyCode
  }

  ghost predicate StrictlySorted(keys: seq<Key>) {
    forall i, j :: 0 <= i < j < |keys| ==> keys[i].keyCode < keys[j].keyCode
  }

  ghost predicate Sorted(keys: seq<Key>) {
    forall i, j :: 0 <= i < j < |keys| ==> keys[i].keyCode <= keys[j].keyCode
  }

  function Insert(k: Key, sorted: seq<Key>): (r: seq<Key>)
    ensures multiset(r) == multiset(sorted) + multiset{k}
  {
    if sorted == [] || k.keyCode <= sorted[0].keyCode then [k] + sorted
    else
      assert sorted == [sorted[0]] + sorted[1..];
      [sorted[0]] + Insert(k, sorted[1..])
  }

  /** What `qsort` with `keyCodeSorter` does. */
  function SortByCode(keys: seq<Key>): (r: seq<Key>)
    ensures multiset(r) == multiset(keys)
  {
    if keys == [] then []
    else
      assert keys == [keys[0]] + keys[1..];
      Insert(keys[0], SortByCode(keys[1..]))
  }

  lemma SameMembers(a: seq<Key>, b: seq<Key>, k: Key)
    requires multiset(a) == multiset(b)
    ensures k in a <==> k in b
  {
    assert k in multiset(a) <==> k in multiset(b);
  }

  lemma {:induction false} InsertSorted(k: Key, sorted: seq<Key>)
    requires Sorted(sorted)
    ensures Sorted(Insert(k, sorted))
  {
    if sorted != [] && sorted[0].keyCode < k.keyCode {
      InsertSorted(k, sorted[1..]);
      var rest := Insert(k, sorted[1..]);
      forall j | 0 <= j < |rest| ensures sorted[0].keyCode <= rest[j].keyCode {
        InsertMember(k, sorted[1..], rest[j]);
      }
    }
  }

  /** The table is sorted, whether its codes are distinct or not. */
  lemma {:induction false} SortSorts(keys: seq<Key>)
    ensures Sorted(SortByCode(keys)) && |SortByCode(keys)| == |keys|
  {
    assert |multiset(SortByCode(keys))| == |multiset(keys)|;
    if keys != [] {
      SortSorts(keys[1..]);
      InsertSorted(keys[0], SortByCode(keys[1..]));
    }
  }

  lemma {:induction false} InsertStrict(k: Key, sorted: seq<Key>)
    requires StrictlySorted(sorted) && forall j :: 0 <= j < |sorted| ==> sorted[j].keyCode != k.keyCode
    ensures StrictlySorted(Insert(k, sorted))
  {
    if sorted != [] && sorted[0].keyCode < k.keyCode {
      InsertStrict(k, sorted[1..]);
      var rest := Insert(k, sorted[1..]);
      forall j | 0 <= j < |rest| ensures sorted[0].keyCode < rest[j].keyCode {
        InsertMember(k, sorted[1..], rest[j]);
      }
      ConsStrict(sorted[0], rest);
    }
  }

  lemma InsertMember(k: Key, sorted: seq<Key>, x: Key)
    requires x in Insert(k, sorted)
    ensures x == k || x in sorted
  {
    assert x in multiset(Insert(k, sorted));
  }

  lemma ConsStrict(k: Key, rest: seq<Key>)
    requires StrictlySorted(rest) && forall j :: 0 <= j < |rest| ==> k.keyCode < rest[j].keyCode
    ensures StrictlySorted([k] + rest)
  {
  }

  lemma {:induction false} SortStrict(keys: seq<Key>)
    requires DistinctCodes(keys)
    ensures StrictlySorted(SortByCode(keys))
  {
    if keys != [] {
      var rest := SortByCode(keys[1..]);
      SortStrict(keys[1..]);
      forall j | 0 <= j < |rest| ensures rest[j].keyCode != keys[0].keyCode {
        SameMembers(rest, keys[1..], rest[j]);
      }
      InsertStrict(keys[0], rest);
    }
  }

  /** The sorted table has the same keys, and is strictly increasing if their codes are distinct. */
  lemma SortedTable(keys: seq<Key>)
    ensures Sorted(SortByCode(keys)) && |SortByCode(keys)| == |keys|
    ensures DistinctCodes(keys) ==> StrictlySorted(SortByCode(keys))
    ensures forall k :: k in keys <==> k in SortByCode(keys)
  {
    SortSorts(keys);
    if DistinctCodes(keys) { SortStrict(keys); }
    forall k ensures k in keys <==> k in SortByCode(keys) {
      SameMembers(keys, SortByCode(keys), k);
    }
  }

  // ---------------------------------------------------------------------------------------
  // Ranges

  /** A range ends in front of key `i`. */
  predicate Breaks(keys: seq<Key>, i: nat)
    requires i < |keys|
  {
    i == 0 || keys[i].keyCode - keys[i - 1].keyCode > 1 || TypeOf(keys[i]) != TypeOf(keys[i - 1])
  }

  /** Range `r` starts where the previous one ended, is broken off in front, and is not broken inside. */
  ghost predicate RangeOk(keys: seq<Key>, ranges: seq<KeyRange>, r: nat, n: nat)
    requires n <= |keys| && r < |ranges|
  {
    var x := ranges[r];
    && x.lowerKeyIndex <= x.upperKeyIndex < n
    && x.lowerKeyIndex == (if r == 0 then 0 else ranges[r - 1].upperKeyIndex + 1)
    && x.keyType == TypeOf(keys[x.lowerKeyIndex])
    && Breaks(keys, x.lowerKeyIndex)
    && forall i :: x.lowerKeyIndex < i <= x.upperKeyIndex ==> !Breaks(keys, i)
  }

  /** Adjacent index intervals that cover the first `n` keys, split exactly where the keys break. */
  ghost predicate Partition(keys: seq<Key>, ranges: seq<KeyRange>, n: nat)
    requires n <= |keys|
  {
    && (ranges == [] <==> n == 0)
    && (forall r :: 0 <= r < |ranges| ==> RangeOk(keys, ranges, r, n))
    && (ranges != [] ==> ranges[|ranges| - 1].upperKeyIndex == n - 1)
  }

  lemma ExtendRange(keys: seq<Key>, ranges: seq<KeyRange>, i: nat)
    requires i < |keys| && ranges != [] && Partition(keys, ranges, i) && !Breaks(keys, i)
    ensures Partition(keys, Closed(ranges, i), i + 1)
  {
    var closed, n := Closed(ranges, i), i + 1;
    forall r | 0 <= r < |closed| ensures RangeOk(keys, closed, r, n) {
      assert RangeOk(keys, ranges, r, i);
    }
  }

  lemma NewRange(keys: seq<Key>, ranges: seq<KeyRange>, i: nat)
    requires i < |keys| && Partition(keys, ranges, i) && Breaks(keys, i)
    ensures Partition(keys, ranges + [KeyRange(TypeOf(keys[i]), i, i)], i + 1)
  {
    var more, n := ranges + [KeyRange(TypeOf(keys[i]), i, i)], i + 1;
    forall r | 0 <= r < |more| ensures RangeOk(keys, more, r, n) {
      if r < |ranges| { assert RangeOk(keys, ranges, r, i); }
    }
  }

  /** The ranges with the upper bound of the last one filled in. */
  function Closed(ranges: seq<KeyRange>, upper: nat): seq<KeyRange> {
    if ranges == [] then []
    else ranges[|ranges| - 1 := ranges[|ranges| - 1].(upperKeyIndex := upper)]
  }

  /** The ranges of the first `n` keys. */
  function RangesFor(keys: seq<Key>, n: nat): seq<KeyRange>
    requires n <= |keys|
  {
    if n == 0 then []
    else if Breaks(keys, n - 1) then RangesFor(keys, n - 1) + [KeyRange(TypeOf(keys[n - 1]), n - 1, n - 1)]
    else Closed(RangesFor(keys, n - 1), n - 1)
  }

  method CalculateKeyRanges(keys: seq<Key>) returns (ranges: seq<KeyRange>)
    ensures Partition(keys, ranges, |keys|) && ranges == RangesFor(keys, |keys|)
  {
    ranges := [];
    for i := 0 to |keys|
      invariant ranges == [] <==> i == 0
      // the upper bound of the last range is only set when the next range starts
      invariant Partition(keys, Closed(ranges, if i == 0 then 0 else i - 1), i)
      invariant Closed(ranges, if i == 0 then 0 else i - 1) == RangesFor(keys, i)
    {
      var isEndOfRange := false;
      if i == 0 || keys[i].keyCode - keys[i - 1].keyCode > 1 || TypeOf(keys[i]) != TypeOf(keys[i - 1]) {
        isEndOfRange := true;
      }
      if isEndOfRange {
        if |ranges| > 0 {
          ranges := ranges[|ranges| - 1 := ranges[|ranges| - 1].(upperKeyIndex := i - 1)];
        }
        NewRange(keys, ranges, i);
        ranges := ranges + [KeyRange(TypeOf(keys[i]), i, i)];
        assert Closed(ranges, i) == ranges;
      } else {
        ExtendRange(keys, Closed(ranges, i - 1), i);
        assert Closed(Closed(ranges, i - 1), i) == Closed(ranges, i);
      }
    }
    if |ranges| > 0 {
      ranges := ranges[|ranges| - 1 := ranges[|ranges| - 1].(upperKeyIndex := |keys| - 1)];
    }
  }

  /** Inside a range the type is the same and no code is left out. */
  lemma {:induction false} RangeIsUniform(keys: seq<Key>, ranges: seq<KeyRange>, r: nat, i: nat)
    requires Sorted(keys) && r < |ranges| && RangeOk(keys, ranges, r, |keys|)
    requires ranges[r].lowerKeyIndex <= i <= ranges[r].upperKeyIndex
    ensures TypeOf(keys[i]) == ranges[r].keyType
    ensures keys[i].keyCode <= keys[ranges[r].lowerKeyIndex].keyCode + (i - ranges[r].lowerKeyIndex)
    ensures StrictlySorted(keys) ==> keys[i].keyCode
                                       == keys[ranges[r].lowerKeyIndex].keyCode + (i - ranges[r].lowerKeyIndex)
    decreases i
  {
    if i > ranges[r].lowerKeyIndex {
      RangeIsUniform(keys, ranges, r, i - 1);
      assert !Breaks(keys, i);
    }
  }

  lemma {:induction false} LowersIncrease(keys: seq<Key>, ranges: seq<KeyRange>, r: nat, q: nat)
    requires Partition(keys, ranges, |keys|) && r < q < |ranges|
    ensures ranges[r].upperKeyIndex < ranges[q].lowerKeyIndex
    decreases q
  {
    assert RangeOk(keys, ranges, q, |keys|) && RangeOk(keys, ranges, q - 1, |keys|);
    if r < q - 1 {
      LowersIncrease(keys, ranges, r, q - 1);
    }
  }

  /** Every key lies in a range. */
  lemma {:induction false} EveryKeyHasARange(keys: seq<Key>, ranges: seq<KeyRange>, i: nat, n: nat) returns (r: nat)
    requires Partition(keys, ranges, |keys|) && i < |keys| && n < |ranges| && i <= ranges[n].upperKeyIndex
    ensures r <= n && ranges[r].lowerKeyIndex <= i <= ranges[r].upperKeyIndex
    decreases n
  {
    assert RangeOk(keys, ranges, n, |keys|);
    if ranges[n].lowerKeyIndex <= i {
      r := n;
    } else {
      r := EveryKeyHasARange(keys, ranges, i, n - 1);
    }
  }

  /** The ranges' code intervals are apart: a key code lies between the bounds of at most one range. */
  lemma RangesDisjoint(keys: seq<Key>, ranges: seq<KeyRange>, r: nat, q: nat, code: Code)
    requires StrictlySorted(keys) && Partition(keys, ranges, |keys|) && r < q < |ranges|
    ensures RangeOk(keys, ranges, r, |keys|) && RangeOk(keys, ranges, q, |keys|)
    ensures code <= keys[ranges[r].upperKeyIndex].keyCode ==> code < keys[ranges[q].lowerKeyIndex].keyCode
  {
    LowersIncrease(keys, ranges, r, q);
    assert RangeOk(keys, ranges, r, |keys|) && RangeOk(keys, ranges, q, |keys|);
  }
}
