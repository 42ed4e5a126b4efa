/** The bounded cache of large responses and its slices (apps/host/src/response-chunks.ts). */
module ResponseChunks {
  import opened Basics
  import J = CanonicalJson
  import E = EventPages

  type Text = J.Text
  type DeviceId = Text

  const INLINE_LIMIT := 128_000
  const BODY_LIMIT := 64 * 1024 * 1024
  const CACHE_LIMIT := 128 * 1024 * 1024
  const LIFETIME := 10 * 60_000
  const SLICE := 24_000

  /** The digest is the text it digests. */
  datatype Key = Key(device: DeviceId, sha256: Text)
  datatype Entry = Entry(key: Key, text: Text, bytes: nat, accessedAt: int)

  datatype Wrapped = Body(text: Text) | Reference(sha256: Text, length: nat) | BodyTooLarge
  datatype Problem = InvalidRange | Expired | OutsideBody
  datatype Slice = Slice(sha256: Text, offset: int, length: nat, text: Text)

  function Total(entries: seq<Entry>): nat {
    if entries == [] then 0 else entries[0].bytes + Total(entries[1..])
  }

  predicate Stale(e: Entry, now: int) { now - e.accessedAt > LIFETIME }

  /** The entries that survive a sweep, in their order. */
  function Fresh(entries: seq<Entry>, now: int): seq<Entry> {
    if entries == [] then []
    else if Stale(entries[0], now) then Fresh(entries[1..], now)
    else [entries[0]] + Fresh(entries[1..], now)
  }

  ghost predicate DistinctKeys(entries: seq<Entry>) {
    forall i, j :: 0 <= i < j < |entries| ==> entries[i].key != entries[j].key
  }

  predicate EntryOk(e: Entry) {
    e.text == e.key.sha256 && e.bytes == E.Bytes(e.text) && INLINE_LIMIT < e.bytes <= BODY_LIMIT
  }

  predicate Holds(entries: seq<Entry>, key: Key) {
    exists i | 0 <= i < |entries| :: entries[i].key == key
  }

  lemma {:induction false} TotalOfAppend(a: seq<Entry>, b: seq<Entry>)
    ensures Total(a + b) == Total(a) + Total(b)
  {
    if a == [] {
      assert a + b == b;
    } else {
      assert (a + b)[1..] == a[1..] + b;
      TotalOfAppend(a[1..], b);
    }
  }

  lemma TotalWithout(entries: seq<Entry>, i: nat)
    requires i < |entries|
    ensures Total(entries[..i] + entries[i + 1..]) == Total(entries) - entries[i].bytes
  {
    TotalOfAppend(entries[..i], entries[i + 1..]);
    TotalOfAppend(entries[..i], entries[i..]);
    assert entries == entries[..i] + entries[i..];
  }

  lemma {:induction false} FreshOfAppend(a: seq<Entry>, b: seq<Entry>, now: int)
    ensures Fresh(a + b, now) == Fresh(a, now) + Fresh(b, now)
  {
    if a == [] {
      assert a + b == b;
    } else {
      assert (a + b)[1..] == a[1..] + b;
      FreshOfAppend(a[1..], b, now);
    }
  }

  /** A sweep keeps exactly the entries that were used within the last ten minutes. */
  lemma {:induction false} FreshKeeps(entries: seq<Entry>, now: int, e: Entry)
    ensures e in Fresh(entries, now) <==> e in entries && now - e.accessedAt <= 600_000
  {
    if entries != [] {
      FreshKeeps(entries[1..], now, e);
    }
  }

  /** One entry looked at by the sweep: it goes, or is passed over. */
  lemma SweepOne(entries: seq<Entry>, now: int, i: nat)
    requires i < |entries|
    ensures Stale(entries[i], now) ==>
      var rest := entries[..i] + entries[i + 1..];
      rest[..i] + Fresh(rest[i..], now) == entries[..i] + Fresh(entries[i..], now)
    ensures !Stale(entries[i], now) ==>
      entries[..i + 1] + Fresh(entries[i + 1..], now) == entries[..i] + Fresh(entries[i..], now)
  {
    assert entries[i..][1..] == entries[i + 1..];
    var rest := entries[..i] + entries[i + 1..];
    assert rest[..i] == entries[..i] && rest[i..] == entries[i + 1..];
    assert entries[..i + 1] == entries[..i] + [entries[i]];
  }

  class Cache {
    var entries: seq<Entry>
    var bytes: int

    ghost predicate Valid()
      reads this
    {
      && DistinctKeys(entries)
      && (forall e :: e in entries ==> EntryOk(e))
      && bytes == Total(entries)
      && bytes <= CACHE_LIMIT
    }

    constructor ()
      ensures Valid() && entries == []
    {
      entries, bytes := [], 0;
    }

    method Find(key: Key) returns (at: Option<nat>)
      ensures at.Some? ==> at.value < |entries| && entries[at.value].key == key
      ensures at.None? ==> !Holds(entries, key)
    {
      for i := 0 to |entries|
        invariant forall j :: 0 <= j < i ==> entries[j].key != key
      {
        if entries[i].key == key { return Some(i); }
      }
      return None;
    }

    /** `#remove` of a key that is present. */
    method Remove(i: nat)
      requires Valid() && i < |entries|
      modifies this
      ensures Valid()
      ensures entries == old(entries)[..i] + old(entries)[i + 1..]
    {
      TotalWithout(entries, i);
      bytes := bytes - entries[i].bytes;
      entries := entries[..i] + entries[i + 1..];
    }

    /** `#sweep`. */
    method Sweep(now: int)
      requires Valid()
      modifies this
      ensures Valid() && entries == Fresh(old(entries), now)
    {
      var i := 0;
      assert entries[..0] == [];
      while i < |entries|
        invariant Valid()
        invariant i <= |entries|
        invariant entries[..i] + Fresh(entries[i..], now) == Fresh(old(entries), now)
        decreases |entries| - i
      {
        SweepOne(entries, now, i);
        if Stale(entries[i], now) {
          Remove(i);
        } else {
          i := i + 1;
        }
      }
    }

    /** The eviction loop: the oldest entries go until the new one fits. */
    method MakeRoom(size: nat)
      requires Valid() && size <= BODY_LIMIT
      modifies this
      ensures Valid() && bytes + size <= CACHE_LIMIT
      ensures OldestWent(old(entries), entries, size)
    {
      ghost var n := 0;
      while bytes + size > CACHE_LIMIT && |entries| > 0
        invariant Valid()
        invariant n <= |old(entries)| && entries == old(entries)[n..]
        invariant n > 0 ==> Total(old(entries)[n - 1..]) + size > CACHE_LIMIT
        decreases |entries|
      {
        Remove(0);
        n := n + 1;
      }
    }

    method Add(e: Entry)
      requires Valid() && EntryOk(e) && bytes + e.bytes <= CACHE_LIMIT
      requires forall i :: 0 <= i < |entries| ==> entries[i].key != e.key
      modifies this
      ensures Valid() && entries == old(entries) + [e]
    {
      TotalOfAppend(entries, [e]);
      entries := entries + [e];
      bytes := bytes + e.bytes;
    }

    /** `wrap`: small bodies pass, larger ones are cached and answered by a reference. */
    method Wrap(device: DeviceId, text: Text, now: int) returns (r: Wrapped)
      requires Valid()
      modifies this
      ensures Valid()
      ensures E.Bytes(text) <= 128_000 ==> r == Body(text) && entries == old(entries)
      ensures E.Bytes(text) > 67_108_864 ==> r == BodyTooLarge && entries == old(entries)
      ensures 128_000 < E.Bytes(text) <= 67_108_864 ==>
        && r == Reference(text, |text|)
        && Wraps(Fresh(old(entries), now), entries, Entry(Key(device, text), text, E.Bytes(text), now))
    {
      var size := E.Bytes(text);
      if size <= INLINE_LIMIT { return Body(text); }
      if size > BODY_LIMIT { return BodyTooLarge; }
      var key := Key(device, text);
      Sweep(now);
      var at := Find(key);
      if at.None? {
        MakeRoom(size);
        Add(Entry(key, text, size, now));
      }
      return Reference(text, |text|);
    }

    /** `read`. */
    method Read(device: DeviceId, sha256: Text, offset: int, now: int) returns (r: Result<Slice, Problem>)
      requires Valid()
      modifies this
      ensures Valid()
      ensures offset < 0 ==> r == Failure(InvalidRange) && entries == old(entries)
      ensures offset >= 0 && !Holds(Fresh(old(entries), now), Key(device, sha256)) ==>
        r == Failure(Expired) && entries == Fresh(old(entries), now)
      ensures offset >= 0 && Holds(Fresh(old(entries), now), Key(device, sha256)) && offset >= |sha256| ==>
        r == Failure(OutsideBody) && entries == Fresh(old(entries), now)
      ensures 0 <= offset < |sha256| && Holds(Fresh(old(entries), now), Key(device, sha256)) ==>
        && r == Success(Slice(sha256, offset, |sha256|, sha256[offset..End(offset, |sha256|)]))
        && Touched(Fresh(old(entries), now), entries, Key(device, sha256), now)
    {
      if offset < 0 { return Failure(InvalidRange); }
      Sweep(now);
      var at := Find(Key(device, sha256));
      if at.None? { return Failure(Expired); }
      var entry := entries[at.value];
      assert entry in entries;
      if offset >= |entry.text| { return Failure(OutsideBody); }
      ghost var swept := entries;
      entries := entries[at.value := entry.(accessedAt := now)];
      TouchedKeepsTotal(swept, entries, entry.key, now);
      return Success(Slice(sha256, offset, |entry.text|, entry.text[offset..End(offset, |entry.text|)]));
    }
  }

  /** Where a slice that starts at `offset` ends. */
  function End(offset: int, length: nat): int {
    if offset + SLICE < length then offset + SLICE else length
  }

  /** No more entries were evicted than a new one of this size needs, oldest first. */
  ghost predicate OldestWent(a: seq<Entry>, b: seq<Entry>, size: nat) {
    exists n :: 0 <= n <= |a| && b == a[n..] && (n > 0 ==> Total(a[n - 1..]) + size > CACHE_LIMIT)
  }

  /** The cache after a wrap: the entry is there, and otherwise only the oldest entries went. */
  ghost predicate Wraps(swept: seq<Entry>, entries: seq<Entry>, e: Entry) {
    if Holds(swept, e.key) then entries == swept
    else |entries| > 0 && entries[|entries| - 1] == e && OldestWent(swept, entries[..|entries| - 1], e.bytes)
  }

  /** Only the access time of one entry changed. */
  ghost predicate Touched(a: seq<Entry>, b: seq<Entry>, key: Key, now: int) {
    |a| == |b| && forall i :: 0 <= i < |a| ==> b[i] == if a[i].key == key then a[i].(accessedAt := now) else a[i]
  }

  /** A new entry goes to the end, behind the newest of the others; no more of the oldest go than it needs room for. */
  lemma OldestMakeRoom(swept: seq<Entry>, entries: seq<Entry>, e: Entry)
    requires Wraps(swept, entries, e) && forall x :: x in swept ==> x.key != e.key
    ensures exists n :: 0 <= n <= |swept| && entries == swept[n..] + [e] && (n > 0 ==> Total(swept[n - 1..]) + e.bytes > 134_217_728)
    ensures Total([]) == 0 && Total([e]) == e.bytes
  {
    var before := entries[..|entries| - 1];
    var n :| 0 <= n <= |swept| && before == swept[n..] && (n > 0 ==> Total(swept[n - 1..]) + e.bytes > CACHE_LIMIT);
    assert entries == swept[n..] + [e];
  }

  /** After a wrap that answers with a reference, the text behind it is in the cache. */
  lemma WrappedTextIsHeld(swept: seq<Entry>, entries: seq<Entry>, e: Entry)
    requires Wraps(swept, entries, e)
    ensures Holds(entries, e.key)
  {
    if !Holds(swept, e.key) {
      assert entries[|entries| - 1] == e;
    }
  }

  // ------------------------------------------------------ a client among others

  /** There is an entry of this key, used at this time or later. */
  ghost predicate HeldSince(entries: seq<Entry>, key: Key, since: int) {
    exists e :: e in entries && e.key == key && e.accessedAt >= since
  }

  /** A call of any client. */
  datatype Call = Wrapping(device: DeviceId, text: Text, now: int) | Reading(device: DeviceId, sha256: Text, offset: int, now: int)

  /** The bytes for which a call may have to make room. */
  function Need(c: Call): nat {
    if c.Wrapping? && INLINE_LIMIT < E.Bytes(c.text) <= BODY_LIMIT then E.Bytes(c.text) else 0
  }

  function Demand(calls: seq<Call>): nat {
    if calls == [] then 0 else Need(calls[0]) + Demand(calls[1..])
  }

  function DemandFrom(others: seq<seq<Call>>, i: nat): nat
    requires i <= |others|
    decreases |others| - i
  {
    if i == |others| then 0 else Demand(others[i]) + DemandFrom(others, i + 1)
  }

  lemma FreshIsHeld(entries: seq<Entry>, key: Key, since: int, now: int)
    requires HeldSince(entries, key, since) && now <= since + LIFETIME
    ensures HeldSince(Fresh(entries, now), key, since) && Holds(Fresh(entries, now), key)
  {
    var e :| e in entries && e.key == key && e.accessedAt >= since;
    FreshKeeps(entries, now, e);
  }

  lemma {:induction false} FreshIsSmaller(entries: seq<Entry>, now: int)
    ensures Total(Fresh(entries, now)) <= Total(entries)
  {
    if entries != [] {
      FreshIsSmaller(entries[1..], now);
    }
  }

  lemma SuffixIsSmaller(entries: seq<Entry>, n: nat)
    requires n <= |entries|
    ensures Total(entries[n..]) <= Total(entries)
  {
    TotalOfAppend(entries[..n], entries[n..]);
    assert entries == entries[..n] + entries[n..];
  }

  /** Nothing is evicted while there is room. */
  lemma OldestWentOnlyWhenFull(a: seq<Entry>, b: seq<Entry>, size: nat)
    requires OldestWent(a, b, size)
    ensures Total(b) <= Total(a) && (Total(a) + size <= CACHE_LIMIT ==> b == a)
  {
    var n :| 0 <= n <= |a| && b == a[n..] && (n > 0 ==> Total(a[n - 1..]) + size > CACHE_LIMIT);
    SuffixIsSmaller(a, n);
    if n > 0 {
      SuffixIsSmaller(a, n - 1);
    }
  }

  /** A wrap adds no more than its entry, and keeps the others while there is room. */
  lemma WrapsBounded(swept: seq<Entry>, entries: seq<Entry>, e: Entry)
    requires Wraps(swept, entries, e)
    ensures Total(entries) <= Total(swept) + e.bytes
    ensures Total(swept) + e.bytes <= CACHE_LIMIT ==> swept <= entries
  {
    if !Holds(swept, e.key) {
      var before := entries[..|entries| - 1];
      OldestWentOnlyWhenFull(swept, before, e.bytes);
      TotalOfAppend(before, [e]);
      assert entries == before + [e] && Total([e]) == e.bytes;
    }
  }

  lemma TouchedIsHeld(a: seq<Entry>, b: seq<Entry>, touched: Key, now: int, key: Key, since: int)
    requires Touched(a, b, touched, now) && HeldSince(a, key, since) && since <= now
    ensures HeldSince(b, key, since)
  {
    var i :| 0 <= i < |a| && a[i].key == key && a[i].accessedAt >= since;
    assert b[i] in b && b[i].key == key && b[i].accessedAt >= since;
  }

  lemma ReadIsHeld(a: seq<Entry>, b: seq<Entry>, key: Key, now: int)
    requires Touched(a, b, key, now) && Holds(a, key)
    ensures HeldSince(b, key, now)
  {
    var i :| 0 <= i < |a| && a[i].key == key;
    assert b[i] in b && b[i].key == key && b[i].accessedAt >= now;
  }

  lemma {:induction false} TouchedKeepsTotal(a: seq<Entry>, b: seq<Entry>, key: Key, now: int)
    requires Touched(a, b, key, now)
    ensures Total(b) == Total(a)
    decreases |a|
  {
    if a != [] {
      assert Touched(a[1..], b[1..], key, now);
      TouchedKeepsTotal(a[1..], b[1..], key, now);
    }
  }

  lemma ExtendedIsHeld(a: seq<Entry>, b: seq<Entry>, key: Key, since: int)
    requires a <= b && HeldSince(a, key, since)
    ensures HeldSince(b, key, since)
  {
  }

  /** What any calls leave: the bytes they need at most are added, and nothing fresh goes while there is room. */
  ghost predicate Leaves(a: seq<Entry>, b: seq<Entry>, calls: seq<Call>) {
    && Total(b) <= Total(a) + Demand(calls)
    && (Total(a) + Demand(calls) <= CACHE_LIMIT ==>
          forall key, since :: HeldSince(a, key, since) && Within(calls, since) ==> HeldSince(b, key, since))
  }

  ghost predicate Within(calls: seq<Call>, since: int) {
    forall c :: c in calls ==> since <= c.now <= since + LIFETIME
  }

  /** One call of another client. */
  method Perform(cache: Cache, c: Call)
    requires cache.Valid()
    modifies cache
    ensures cache.Valid() && Leaves(old(cache.entries), cache.entries, [c])
  {
    ghost var before := cache.entries;
    ghost var swept := Fresh(before, c.now);
    FreshIsSmaller(before, c.now);
    assert c in [c] && Demand([c]) == Need(c);
    match c {
      case Wrapping(device, text, now) =>
        var _ := cache.Wrap(device, text, now);
        if INLINE_LIMIT < E.Bytes(text) <= BODY_LIMIT {
          WrapsBounded(swept, cache.entries, Entry(Key(device, text), text, E.Bytes(text), now));
        }
        SweptLeaves(before, cache.entries, c);
      case Reading(device, sha256, offset, now) =>
        var _ := cache.Read(device, sha256, offset, now);
        if cache.entries != before && cache.entries != swept {
          TouchedKeepsTotal(swept, cache.entries, Key(device, sha256), now);
          TouchedLeaves(before, cache.entries, c);
        } else {
          SweptLeaves(before, cache.entries, c);
        }
    }
  }

  lemma SweptLeaves(a: seq<Entry>, b: seq<Entry>, c: Call)
    requires Total(b) <= Total(a) + Need(c)
    requires b == a || (Total(a) + Need(c) <= CACHE_LIMIT ==> Fresh(a, c.now) <= b)
    ensures Leaves(a, b, [c])
  {
    assert Demand([c]) == Need(c) && c in [c];
    forall key, since | Total(a) + Need(c) <= CACHE_LIMIT && HeldSince(a, key, since) && Within([c], since) ensures HeldSince(b, key, since) {
      if b != a {
        FreshIsHeld(a, key, since, c.now);
        ExtendedIsHeld(Fresh(a, c.now), b, key, since);
      }
    }
  }

  lemma TouchedLeaves(a: seq<Entry>, b: seq<Entry>, c: Call)
    requires c.Reading? && Touched(Fresh(a, c.now), b, Key(c.device, c.sha256), c.now) && Total(b) <= Total(a)
    ensures Leaves(a, b, [c])
  {
    assert c in [c];
    forall key, since | HeldSince(a, key, since) && Within([c], since) ensures HeldSince(b, key, since) {
      FreshIsHeld(a, key, since, c.now);
      TouchedIsHeld(Fresh(a, c.now), b, Key(c.device, c.sha256), c.now, key, since);
    }
  }

  lemma LeavesCompose(a: seq<Entry>, b: seq<Entry>, d: seq<Entry>, calls: seq<Call>)
    requires calls != [] && Leaves(a, b, [calls[0]]) && Leaves(b, d, calls[1..])
    ensures Leaves(a, d, calls)
  {
    assert Demand([calls[0]]) == Need(calls[0]);
    forall key, since | Total(a) + Demand(calls) <= CACHE_LIMIT && HeldSince(a, key, since) && Within(calls, since)
      ensures HeldSince(d, key, since)
    {
      assert Within([calls[0]], since) && Within(calls[1..], since);
      assert HeldSince(b, key, since);
    }
  }

  method PerformAll(cache: Cache, calls: seq<Call>)
    requires cache.Valid()
    modifies cache
    ensures cache.Valid() && Leaves(old(cache.entries), cache.entries, calls)
    decreases |calls|
  {
    if calls != [] {
      ghost var before := cache.entries;
      Perform(cache, calls[0]);
      ghost var between := cache.entries;
      PerformAll(cache, calls[1..]);
      LeavesCompose(before, between, cache.entries, calls);
    }
  }

  /** When the reference was last used before read `i`. */
  function Since(start: int, clock: seq<int>, i: nat): int
    requires i <= |clock|
  {
    if i == 0 then start else clock[i - 1]
  }

  /** Nothing that happens between the reads can take the entry away: it stays fresh, and there is room for all. */
  ghost predicate Undisturbed(entries: seq<Entry>, key: Key, start: int, clock: seq<int>, others: seq<seq<Call>>)
    requires |clock| == |others|
  {
    && HeldSince(entries, key, start)
    && Total(entries) + DemandFrom(others, 0) <= CACHE_LIMIT
    && forall i :: 0 <= i < |clock| ==> InTime(Since(start, clock, i), clock[i], others[i])
  }

  /** The read comes at most ten minutes after the one before, and other calls in between are between. */
  ghost predicate InTime(since: int, now: int, calls: seq<Call>) {
    now <= since + LIFETIME && Within(calls, since)
  }

  /** The entry is there until the read, whatever these calls do. */
  ghost predicate Secured(entries: seq<Entry>, key: Key, since: int, now: int, calls: seq<Call>) {
    InTime(since, now, calls) && HeldSince(entries, key, since) && Total(entries) + Demand(calls) <= CACHE_LIMIT
  }

  /** The next slice, after some calls of other clients. */
  method ReadNext(cache: Cache, device: DeviceId, sha256: Text, offset: nat, now: int, calls: seq<Call>)
    returns (r: Result<Text, Problem>)
    requires cache.Valid() && offset < |sha256|
    modifies cache
    ensures cache.Valid()
    ensures r == Success(sha256[offset..End(offset, |sha256|)]) || r == Failure(Expired)
    ensures Total(cache.entries) <= Total(old(cache.entries)) + Demand(calls)
    ensures r.Success? ==> HeldSince(cache.entries, Key(device, sha256), now)
    ensures forall since :: Secured(old(cache.entries), Key(device, sha256), since, now, calls) ==> r.Success?
  {
    var key := Key(device, sha256);
    ghost var before := cache.entries;
    PerformAll(cache, calls);
    ghost var entries := cache.entries;
    FreshIsSmaller(entries, now);
    forall since | HeldSince(entries, key, since) && now <= since + LIFETIME ensures Holds(Fresh(entries, now), key) {
      FreshIsHeld(entries, key, since, now);
    }
    var slice := cache.Read(device, sha256, offset, now);
    if slice.Failure? { return Failure(slice.error); }
    ReadIsHeld(Fresh(entries, now), cache.entries, key, now);
    TouchedKeepsTotal(Fresh(entries, now), cache.entries, key, now);
    r := Success(slice.value.text);
  }

  /**
    Reading a reference in steps from 0, with any calls of other clients between the reads (`others`):
    the text rebuilt is exactly the one that was wrapped, or the reference has expired.  It does not
    expire when reads are at most ten minutes apart and all that the others wrap fits beside it.
  */
  method Rebuild(cache: Cache, device: DeviceId, reference: Wrapped, start: int, clock: seq<int>, others: seq<seq<Call>>)
    returns (r: Result<Text, Problem>)
    requires cache.Valid() && reference.Reference? && reference.length == |reference.sha256| > 0
    requires |clock| == |others| == (reference.length + SLICE - 1) / SLICE
    modifies cache
    ensures cache.Valid()
    ensures r == Success(reference.sha256) || r == Failure(Expired)
    ensures Undisturbed(old(cache.entries), Key(device, reference.sha256), start, clock, others) ==> r.Success?
  {
    var text: Text := [];
    ghost var key := Key(device, reference.sha256);
    ghost var calm := Undisturbed(cache.entries, key, start, clock, others);
    var i := 0;
    while |text| < reference.length
      invariant cache.Valid() && i <= |clock|
      invariant |text| <= reference.length && text == reference.sha256[..|text|]
      invariant |text| < reference.length ==> |text| == i * SLICE && i < |clock|
      invariant calm ==> HeldSince(cache.entries, key, Since(start, clock, i))
      invariant calm ==> Total(cache.entries) + DemandFrom(others, i) <= CACHE_LIMIT
      decreases reference.length - |text|
    {
      assert calm ==> Secured(cache.entries, key, Since(start, clock, i), clock[i], others[i]);
      var slice := ReadNext(cache, device, reference.sha256, |text|, clock[i], others[i]);
      if slice.Failure? { return slice; }
      text := text + slice.value;
      i := i + 1;
    }
    assert text == reference.sha256;
    r := Success(text);
  }

  /**
    A large text that was not in the cache, wrapped and read back by the device it was wrapped for: exactly
    that text, when the reads come in time and what others wrap fits beside it.
  */
  method WrapAndRebuild(cache: Cache, device: DeviceId, text: Text, now: int, clock: seq<int>, others: seq<seq<Call>>)
    returns (r: Result<Text, Problem>)
    requires cache.Valid() && 128_000 < E.Bytes(text) <= 67_108_864
    requires forall e :: e in cache.entries && e.key == Key(device, text) ==> now - e.accessedAt > 600_000
    requires |clock| == |others| == (|text| + 23_999) / 24_000
    requires forall i :: 0 <= i < |clock| ==> InTime(Since(now, clock, i), clock[i], others[i])
    requires Total(cache.entries) + E.Bytes(text) + DemandFrom(others, 0) <= 134_217_728
    modifies cache
    ensures cache.Valid() && r == Success(text)
  {
    ghost var before := cache.entries;
    ghost var swept := Fresh(before, now);
    ghost var e := Entry(Key(device, text), text, E.Bytes(text), now);
    FreshIsSmaller(before, now);
    NotHeld(before, now, Key(device, text));
    E.BytesBoundLength(text);
    var wrapped := cache.Wrap(device, text, now);
    WrapsBounded(swept, cache.entries, e);
    assert cache.entries[|cache.entries| - 1] == e && e in cache.entries && e.key == Key(device, text) && e.accessedAt >= now;
    assert Undisturbed(cache.entries, Key(device, text), now, clock, others);
    r := Rebuild(cache, device, wrapped, now, clock, others);
  }

  lemma NotHeld(entries: seq<Entry>, now: int, key: Key)
    requires forall e :: e in entries && e.key == key ==> now - e.accessedAt > 600_000
    ensures !Holds(Fresh(entries, now), key)
  {
    var kept := Fresh(entries, now);
    forall i | 0 <= i < |kept| ensures kept[i].key != key {
      FreshKeeps(entries, now, kept[i]);
    }
  }
}
