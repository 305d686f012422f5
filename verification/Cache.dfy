/** The response cache: an LRU whose entries age their stored copy lazily, once per whole second. */
module ResponseCache {
  import opened Prelude
  import opened Names
  import opened Questions
  import opened Records
  import opened Ageing
  import opened QueryMetadata
  import opened CacheTtls
  import opened Truncation

  /** TTLs in `response` and `ttl` are relative to the whole-second boundary `agedAt` (in nanoseconds). */
  datatype Entry = Entry(response: Bytes, agedAt: nat, ttl: nat)

  datatype Slot = Slot(key: QueryKey, entry: Entry)

  /** Most recently used first. */
  type Store = seq<Slot>

  function IndexOf(s: Store, key: QueryKey): (r: Option<nat>)
    ensures r.Some? ==> r.value < |s| && s[r.value].key == key
    ensures r.None? ==> forall i | 0 <= i < |s| :: s[i].key != key
  {
    if s == [] then None
    else if s[0].key == key then Some(0)
    else
      match IndexOf(s[1..], key)
      case None => None
      case Some(i) => Some(i + 1)
  }

  function Drop(s: Store, i: nat): Store
    requires i < |s|
  {
    s[..i] + s[i + 1..]
  }

  function WholeSeconds(from: nat, now: nat): nat {
    SatSub(now, from) / NANOS
  }

  datatype Outcome = Outcome(hit: Option<Bytes>, store: Store)

  /** The entry after catching up to `elapsed` whole seconds; None when its buffer no longer parses. */
  function CatchUp(e: Entry, elapsed: nat): Option<Entry>
    requires elapsed < e.ttl
  {
    if elapsed == 0 then Some(e)
    else
      var aged := AdjustTtls(e.response, elapsed);
      if !aged.ok then None else Some(Entry(aged.bytes, e.agedAt + elapsed * NANOS, e.ttl - elapsed))
  }

  /** The client's copy under its own ID; stored responses always have the two octets. */
  function Stamped(m: Bytes, id0: byte, id1: byte): Bytes {
    if |m| < 2 then m else WithId(m, id0, id1)
  }

  function Get(s: Store, key: QueryKey, id0: byte, id1: byte, now: nat): Outcome {
    match IndexOf(s, key)
    case None => Outcome(None, s)
    case Some(i) =>
      var e := s[i].entry;
      var elapsed := WholeSeconds(e.agedAt, now);
      if elapsed >= e.ttl || CatchUp(e, elapsed).None? then Outcome(None, Drop(s, i))
      else
        var current := CatchUp(e, elapsed).value;
        Outcome(Some(Stamped(current.response, id0, id1)), [Slot(key, current)] + Drop(s, i))
  }

  /** Store under `key`, replacing, else evicting the least recently used entry when full. */
  function Put(s: Store, capacity: nat, key: QueryKey, e: Entry): Store
    requires capacity >= 1
  {
    var rest := match IndexOf(s, key) case None => s case Some(i) => Drop(s, i);
    [Slot(key, e)] + if |rest| < capacity then rest else rest[..capacity - 1]
  }

  function Insert(s: Store, capacity: nat, key: QueryKey, response: Bytes, now: nat): Store
    requires capacity >= 1
  {
    match CacheTtl(response, key.qtype)
    case None => s
    case Some(ttl) => Put(s, capacity, key, Entry(WithId(response, 0, 0), now, ttl))
  }

  ghost predicate UniqueKeys(s: Store) {
    forall i, j | 0 <= i < j < |s| :: s[i].key != s[j].key
  }

  lemma DropFacts(s: Store, i: nat)
    requires i < |s| && UniqueKeys(s)
    ensures UniqueKeys(Drop(s, i)) && |Drop(s, i)| == |s| - 1
    ensures forall x :: x in Drop(s, i) <==> x in s && x.key != s[i].key
  {
    var d := Drop(s, i);
    forall x ensures x in d <==> x in s && x.key != s[i].key {
      if x in s && x.key != s[i].key {
        var j :| 0 <= j < |s| && s[j] == x;
        assert d[if j < i then j else j - 1] == x;
      }
      if x in d {
        var j :| 0 <= j < |d| && d[j] == x;
        assert s[if j < i then j else j + 1] == x;
      }
    }
  }

  /** Every slot of the store is in force: `P` in all of them, one slot per key. */
  lemma GetFacts(s: Store, key: QueryKey, id0: byte, id1: byte, now: nat)
    requires UniqueKeys(s)
    ensures var o := Get(s, key, id0, id1, now);
            UniqueKeys(o.store) && |o.store| <= |s|
            && (forall x | x in o.store && x.key != key :: x in s)
            && (forall x | x in s && x.key != key :: x in o.store)
            && (o.hit.None? ==> IndexOf(o.store, key).None?)
  {
    if IndexOf(s, key).Some? {
      DropFacts(s, IndexOf(s, key).value);
    }
  }

  lemma PutFacts(s: Store, capacity: nat, key: QueryKey, e: Entry)
    requires capacity >= 1 && UniqueKeys(s) && |s| <= capacity
    ensures var t := Put(s, capacity, key, e);
            UniqueKeys(t) && |t| <= capacity && Slot(key, e) in t
            && (forall x | x in t && x.key != key :: x in s)
            && (forall x | x in t && x.key == key :: x == Slot(key, e))
            && (|s| < capacity || IndexOf(s, key).Some? ==> forall x | x in s && x.key != key :: x in t)
  {
    if IndexOf(s, key).Some? {
      DropFacts(s, IndexOf(s, key).value);
    }
    var t := Put(s, capacity, key, e);
    assert t[0] == Slot(key, e);
  }

  // ---- The simple store: what was inserted, and when --------------------------------------------

  /** One call on the cache: a client query, the response forwarded for it or a lookup, and the time. */
  datatype Op = Inserted(query: Bytes, response: Bytes, at: nat) | Looked(query: Bytes, at: nat)

  datatype Original = Original(query: Bytes, response: Bytes, at: nat, ttl: nat)

  /** Queries that bypass the cache leave it alone. */
  function Step(s: Store, capacity: nat, op: Op): Store
    requires capacity >= 1
  {
    match QueryMetaOf(op.query)
    case None => s
    case Some(meta) =>
      (match op
       case Inserted(_, response, at) => Insert(s, capacity, meta.key, response, at)
       case Looked(query, at) => Get(s, meta.key, query[0], query[1], at).store)
  }

  function Run(capacity: nat, ops: seq<Op>): Store
    requires capacity >= 1
  {
    if ops == [] then [] else Step(Run(capacity, ops[..|ops| - 1]), capacity, ops[|ops| - 1])
  }

  /** The reference: the last cacheable response inserted under `key`, with its insertion instant. */
  function LastInserted(ops: seq<Op>, key: QueryKey): Option<Original> {
    if ops == [] then None
    else
      var op := ops[|ops| - 1];
      if op.Inserted? && QueryMetaOf(op.query).Some? && QueryMetaOf(op.query).value.key == key
         && CacheTtl(op.response, key.qtype).Some?
      then Some(Original(op.query, op.response, op.at, CacheTtl(op.response, key.qtype).value))
      else LastInserted(ops[..|ops| - 1], key)
  }

  ghost predicate NonDecreasing(ops: seq<Op>, now: nat) {
    (forall i, j | 0 <= i <= j < |ops| :: ops[i].at <= ops[j].at) && (ops != [] ==> ops[|ops| - 1].at <= now)
  }

  /** Byte for byte: `response` with the given ID and every non-OPT TTL reduced by `elapsed`, stopping at zero. */
  ghost predicate IsServedCopy(response: Bytes, elapsed: nat, id0: byte, id1: byte, copy: Bytes)
    requires |response| >= HEADER_LEN && CacheableRecords(response).Some?
  {
    IsAged(WithId(response, id0, id1), copy, CacheableRecords(response).value, elapsed)
  }

  lemma ServedCopyUnique(response: Bytes, elapsed: nat, id0: byte, id1: byte, a: Bytes, b: Bytes)
    requires |response| >= HEADER_LEN && CacheableRecords(response).Some?
    requires IsServedCopy(response, elapsed, id0, id1, a) && IsServedCopy(response, elapsed, id0, id1, b)
    ensures a == b
  {
    IsAgedUnique(WithId(response, id0, id1), a, b, CacheableRecords(response).value, elapsed);
  }

  // ---- The invariant -------------------------------------------------------------------------------

  /** A stored buffer `b` is the cleared response aged by `k` seconds, laid out as it was. */
  ghost predicate AgedCopy(response: Bytes, q: nat, records: seq<Record>, k: nat, b: Bytes) {
    FullyParsed(response, q, records) && IsAged(WithId(response, 0, 0), b, records, k)
    && IsLayout(b, q, AgedRecords(records, k)) && |b| >= HEADER_LEN && TotalCount(b) == |records|
  }

  /** Entry `e` is the original, `k` whole seconds later: agedAt + ttl never moves. */
  ghost predicate EntryFollows(e: Entry, o: Original, queryType: u16, k: nat) {
    CacheTtl(o.response, queryType) == Some(o.ttl)
    && k < o.ttl && e.agedAt == o.at + k * NANOS && e.ttl == o.ttl - k
    && AgedCopy(o.response, QuestionsEnd(o.response).value, CacheableRecords(o.response).value, k, e.response)
  }

  ghost predicate Follows(e: Entry, o: Original, queryType: u16, now: nat) {
    exists k: nat :: EntryFollows(e, o, queryType, k) && e.agedAt <= now
  }

  lemma FreshEntryFollows(o: Original, queryType: u16, now: nat)
    requires CacheTtl(o.response, queryType) == Some(o.ttl) && o.at <= now
    ensures Follows(Entry(WithId(o.response, 0, 0), o.at, o.ttl), o, queryType, now)
  {
    var q, records := CacheableIsFullyParsed(o.response, queryType);
    FreshCopy(o.response, q, records);
    assert EntryFollows(Entry(WithId(o.response, 0, 0), o.at, o.ttl), o, queryType, 0);
  }

  lemma FreshCopy(response: Bytes, q: nat, records: seq<Record>)
    requires FullyParsed(response, q, records)
    ensures AgedCopy(response, q, records, 0, WithId(response, 0, 0))
  {
    var z := WithId(response, 0, 0);
    ClearedIdStaysClean(response, q, records);
    FullyParsedIsLayout(z, q, records);
    SkipQuestionsBounds(z, HEADER_LEN, QdCount(z));
    UnagedRecords(z, q, records);
  }

  lemma UnagedRecords(m: Bytes, q: nat, records: seq<Record>)
    requires IsLayout(m, q, records) && q <= |m|
    ensures AgedRecords(records, 0) == records && IsAged(m, m, records, 0)
  {
    forall k | 0 <= k < |records| ensures ReadU32(m, records[k].ttlOffset) == Some(records[k].ttl) {
      RecordBounds(m, StartOf(q, records, k), records[k]);
    }
  }

  lemma AgedCopyMovesOn(response: Bytes, q: nat, records: seq<Record>, k: nat, b: Bytes, d: nat)
    requires AgedCopy(response, q, records, k, b) && AdjustTtls(b, d).ok
    ensures AgedCopy(response, q, records, k + d, AdjustTtls(b, d).bytes)
  {
    var z := WithId(response, 0, 0);
    ClearedIdStaysClean(response, q, records);
    FullyParsedIsLayout(z, q, records);
    var q1, later := AdjustTtlsExact(b, d);
    SameQuestionsEnd(z, b, q, records, k);
    LayoutUnique(b, q, AgedRecords(records, k), later);
    AgedTwice(z, b, AdjustTtls(b, d).bytes, records, k, d);
    AgedRecordsTwice(records, k, d);
  }

  lemma AgedRecordsTwice(records: seq<Record>, k: nat, d: nat)
    ensures AgedRecords(AgedRecords(records, k), d) == AgedRecords(records, k + d)
  {
  }

  lemma WholeSecondsExactly(from: nat, now: nat)
    requires from <= now
    ensures from + WholeSeconds(from, now) * 1_000_000_000 <= now < from + (WholeSeconds(from, now) + 1) * 1_000_000_000
  {
  }

  lemma {:induction false} InsertedEarlier(ops: seq<Op>, key: QueryKey, now: nat)
    requires NonDecreasing(ops, now) && LastInserted(ops, key).Some?
    ensures LastInserted(ops, key).value.at <= now
    decreases |ops|
  {
    var before := ops[..|ops| - 1];
    if LastInserted(ops, key) == LastInserted(before, key) && LastInserted(before, key).Some? {
      InsertedEarlier(before, key, now);
    }
  }

  lemma ElapsedFromOrigin(at: nat, k: nat, now: nat)
    requires at + k * NANOS <= now
    ensures WholeSeconds(at, now) == k + WholeSeconds(at + k * NANOS, now)
  {
    var d := (now - at - k * NANOS) / NANOS;
    assert (now - at) / NANOS == k + d;
  }

  lemma CaughtUpCopy(e: Entry, response: Bytes, q: nat, records: seq<Record>, k: nat, d: nat, age: nat)
    requires AgedCopy(response, q, records, k, e.response) && d < e.ttl && CatchUp(e, d).Some? && age == k + d
    ensures AgedCopy(response, q, records, age, CatchUp(e, d).value.response)
    ensures CatchUp(e, d).value.agedAt == e.agedAt + d * NANOS && CatchUp(e, d).value.ttl == e.ttl - d
  {
    if d > 0 {
      AgedCopyMovesOn(response, q, records, k, e.response, d);
    }
  }

  lemma CaughtUpEntry(e: Entry, o: Original, queryType: u16, k: nat, d: nat, age: nat)
    requires EntryFollows(e, o, queryType, k) && d < e.ttl && CatchUp(e, d).Some? && age == k + d
    ensures EntryFollows(CatchUp(e, d).value, o, queryType, age)
  {
    CaughtUpCopy(e, o.response, QuestionsEnd(o.response).value, CacheableRecords(o.response).value, k, d, age);
  }

  /** An entry `k` seconds behind its original and `d` behind the clock: the simple store's age is k + d. */
  lemma AgeOfEntry(e: Entry, o: Original, queryType: u16, now: nat) returns (k: nat, d: nat)
    requires Follows(e, o, queryType, now)
    ensures EntryFollows(e, o, queryType, k) && e.agedAt + d * NANOS <= now
    ensures d == WholeSeconds(e.agedAt, now) && k + d == WholeSeconds(o.at, now) && (d < e.ttl <==> k + d < o.ttl)
  {
    k :| EntryFollows(e, o, queryType, k) && e.agedAt <= now;
    ElapsedFromOrigin(o.at, k, now);
    d := WholeSeconds(e.agedAt, now);
  }

  lemma CaughtUpFollows(e: Entry, o: Original, queryType: u16, now: nat)
    requires Follows(e, o, queryType, now) && WholeSeconds(e.agedAt, now) < e.ttl
    requires CatchUp(e, WholeSeconds(e.agedAt, now)).Some?
    ensures Follows(CatchUp(e, WholeSeconds(e.agedAt, now)).value, o, queryType, now)
  {
    var k, d := AgeOfEntry(e, o, queryType, now);
    CaughtUpEntry(e, o, queryType, k, d, k + d);
  }

  ghost predicate Tracks(s: Store, ops: seq<Op>, now: nat) {
    UniqueKeys(s) && forall x | x in s ::
      LastInserted(ops, x.key).Some? && Follows(x.entry, LastInserted(ops, x.key).value, x.key.qtype, now)
  }

  lemma FollowsLater(e: Entry, o: Original, queryType: u16, now: nat, later: nat)
    requires Follows(e, o, queryType, now) && now <= later
    ensures Follows(e, o, queryType, later)
  {
    var k: nat :| EntryFollows(e, o, queryType, k) && e.agedAt <= now;
    assert EntryFollows(e, o, queryType, k) && e.agedAt <= later;
  }

  ghost predicate SameLast(before: seq<Op>, ops: seq<Op>, key: QueryKey) {
    LastInserted(ops, key) == LastInserted(before, key)
  }

  lemma InsertedTracks(s: Store, before: seq<Op>, ops: seq<Op>, capacity: nat, key: QueryKey, o: Original)
    requires capacity >= 1 && Tracks(s, before, o.at) && |s| <= capacity
    requires CacheTtl(o.response, key.qtype) == Some(o.ttl) && LastInserted(ops, key) == Some(o)
    requires forall other | other != key :: SameLast(before, ops, other)
    ensures Tracks(Put(s, capacity, key, Entry(WithId(o.response, 0, 0), o.at, o.ttl)), ops, o.at)
  {
    var e := Entry(WithId(o.response, 0, 0), o.at, o.ttl);
    PutFacts(s, capacity, key, e);
    FreshEntryFollows(o, key.qtype, o.at);
    forall x | x in Put(s, capacity, key, e)
      ensures LastInserted(ops, x.key).Some? && Follows(x.entry, LastInserted(ops, x.key).value, x.key.qtype, o.at)
    {
      if x.key != key {
        assert SameLast(before, ops, x.key);
      }
    }
  }

  lemma LookedTracks(s: Store, before: seq<Op>, ops: seq<Op>, key: QueryKey, id0: byte, id1: byte, now: nat)
    requires Tracks(s, before, now) && forall other :: SameLast(before, ops, other)
    ensures Tracks(Get(s, key, id0, id1, now).store, ops, now)
  {
    GetFacts(s, key, id0, id1, now);
    forall x | x in Get(s, key, id0, id1, now).store
      ensures LastInserted(ops, x.key).Some? && Follows(x.entry, LastInserted(ops, x.key).value, x.key.qtype, now)
    {
      assert SameLast(before, ops, x.key);
      if x.key == key {
        GetKeepsEntry(s, key, id0, id1, now, x);
        CaughtUpFollows(s[IndexOf(s, key).value].entry, LastInserted(before, key).value, key.qtype, now);
      }
    }
  }

  lemma GetKeepsEntry(s: Store, key: QueryKey, id0: byte, id1: byte, now: nat, x: Slot)
    requires UniqueKeys(s) && x in Get(s, key, id0, id1, now).store && x.key == key
    ensures IndexOf(s, key).Some?
    ensures var e := s[IndexOf(s, key).value].entry;
            WholeSeconds(e.agedAt, now) < e.ttl && CatchUp(e, WholeSeconds(e.agedAt, now)) == Some(x.entry)
  {
    if IndexOf(s, key).Some? {
      DropFacts(s, IndexOf(s, key).value);
    }
  }

  lemma StepTracks(s: Store, before: seq<Op>, op: Op, capacity: nat)
    requires capacity >= 1 && Tracks(s, before, op.at) && |s| <= capacity
    ensures Tracks(Step(s, capacity, op), before + [op], op.at) && |Step(s, capacity, op)| <= capacity
  {
    var ops := before + [op];
    assert ops[..|ops| - 1] == before;
    if QueryMetaOf(op.query).Some? {
      var key := QueryMetaOf(op.query).value.key;
      match op
      case Inserted(query, response, at) =>
        if CacheTtl(response, key.qtype).Some? {
          var o := Original(query, response, at, CacheTtl(response, key.qtype).value);
          PutFacts(s, capacity, key, Entry(WithId(response, 0, 0), at, o.ttl));
          InsertedTracks(s, before, ops, capacity, key, o);
        }
      case Looked(query, at) =>
        GetFacts(s, key, query[0], query[1], at);
        LookedTracks(s, before, ops, key, query[0], query[1], at);
    }
  }

  lemma TracksLater(s: Store, ops: seq<Op>, now: nat, later: nat)
    requires Tracks(s, ops, now) && now <= later
    ensures Tracks(s, ops, later)
  {
    forall x | x in s ensures Follows(x.entry, LastInserted(ops, x.key).value, x.key.qtype, later) {
      FollowsLater(x.entry, LastInserted(ops, x.key).value, x.key.qtype, now, later);
    }
  }

  lemma NonDecreasingBefore(before: seq<Op>, op: Op, now: nat)
    requires NonDecreasing(before + [op], now)
    ensures NonDecreasing(before, op.at) && op.at <= now
  {
    var ops := before + [op];
    assert forall i | 0 <= i < |before| :: before[i] == ops[i];
    assert ops[|before|] == op;
  }

  /** Over every run the LRU holds nothing but entries that follow the simple store. */
  lemma {:induction false} RunTracks(capacity: nat, ops: seq<Op>, now: nat)
    requires capacity >= 1 && NonDecreasing(ops, now)
    ensures Tracks(Run(capacity, ops), ops, now) && |Run(capacity, ops)| <= capacity
    decreases |ops|
  {
    if ops != [] {
      var before, op := ops[..|ops| - 1], ops[|ops| - 1];
      assert before + [op] == ops;
      NonDecreasingBefore(before, op, now);
      RunTracks(capacity, before, op.at);
      StepTracks(Run(capacity, before), before, op, capacity);
      TracksLater(Run(capacity, ops), ops, op.at, now);
    }
  }

  // ---- Every hit of every run -----------------------------------------------------------------------

  lemma StampedRest(response: Bytes, b: Bytes, records: seq<Record>, k: nat, id0: byte, id1: byte)
    requires |response| >= HEADER_LEN && IsAged(WithId(response, 0, 0), b, records, k)
    ensures forall i | 0 <= i < |b| && !InTtl(records, i) :: Stamped(b, id0, id1)[i] == WithId(response, id0, id1)[i]
  {
    forall i | 0 <= i < |b| && !InTtl(records, i) ensures Stamped(b, id0, id1)[i] == WithId(response, id0, id1)[i] {
      assert i >= 2 ==> b[i] == WithId(response, 0, 0)[i];
    }
  }

  lemma StampedTtl(response: Bytes, q: nat, records: seq<Record>, b: Bytes, id0: byte, id1: byte, j: nat)
    requires FullyParsed(response, q, records) && |b| == |response| && j < |records|
    ensures |b| >= 2 && ReadU32(Stamped(b, id0, id1), records[j].ttlOffset) == ReadU32(b, records[j].ttlOffset)
  {
    FullyParsedIsLayout(response, q, records);
    SkipQuestionsBounds(response, HEADER_LEN, QdCount(response));
    LayoutOrdered(response, q, records, 0, j);
    RecordBounds(response, StartOf(q, records, j), records[j]);
  }

  lemma StampedCopy(response: Bytes, q: nat, records: seq<Record>, k: nat, b: Bytes, id0: byte, id1: byte)
    requires AgedCopy(response, q, records, k, b)
    ensures |b| >= 2 && IsAged(WithId(response, id0, id1), Stamped(b, id0, id1), records, k)
  {
    StampedRest(response, b, records, k, id0, id1);
    forall j | 0 <= j < |records| && records[j].kind != TYPE_OPT
      ensures ReadU32(Stamped(b, id0, id1), records[j].ttlOffset) == Some(SatSub(records[j].ttl, k))
    {
      StampedTtl(response, q, records, b, id0, id1, j);
    }
  }

  function Answer(capacity: nat, ops: seq<Op>, query: Bytes, now: nat): Option<Bytes>
    requires capacity >= 1
  {
    if QueryMetaOf(query).None? then None
    else Get(Run(capacity, ops), QueryMetaOf(query).value.key, query[0], query[1], now).hit
  }

  lemma EntryStamped(e: Entry, o: Original, queryType: u16, k: nat, id0: byte, id1: byte)
    requires EntryFollows(e, o, queryType, k)
    ensures |o.response| >= HEADER_LEN && CacheableRecords(o.response).Some?
    ensures IsServedCopy(o.response, k, id0, id1, Stamped(e.response, id0, id1))
  {
    StampedCopy(o.response, QuestionsEnd(o.response).value, CacheableRecords(o.response).value, k, e.response,
                id0, id1);
  }

  lemma EntryServesCopy(e: Entry, o: Original, queryType: u16, now: nat, id0: byte, id1: byte)
    requires Follows(e, o, queryType, now) && WholeSeconds(e.agedAt, now) < e.ttl
    requires CatchUp(e, WholeSeconds(e.agedAt, now)).Some?
    ensures |o.response| >= HEADER_LEN && CacheableRecords(o.response).Some?
    ensures WholeSeconds(o.at, now) < o.ttl && CacheTtl(o.response, queryType) == Some(o.ttl)
    ensures IsServedCopy(o.response, WholeSeconds(o.at, now), id0, id1,
                         Stamped(CatchUp(e, WholeSeconds(e.agedAt, now)).value.response, id0, id1))
  {
    var k, d := AgeOfEntry(e, o, queryType, now);
    CaughtUpEntry(e, o, queryType, k, d, WholeSeconds(o.at, now));
    EntryStamped(CatchUp(e, d).value, o, queryType, WholeSeconds(o.at, now), id0, id1);
  }

  /** Every hit is the simple store's answer, byte for byte, served only within the original lifetime. */
  lemma HitIsServedCopy(capacity: nat, ops: seq<Op>, query: Bytes, now: nat)
    requires capacity >= 1 && NonDecreasing(ops, now) && Answer(capacity, ops, query, now).Some?
    ensures var last := LastInserted(ops, QueryMetaOf(query).value.key);
            last.Some? && WholeSeconds(last.value.at, now) < last.value.ttl
            && CacheTtl(last.value.response, QueryMetaOf(query).value.key.qtype) == Some(last.value.ttl)
            && IsServedCopy(last.value.response, WholeSeconds(last.value.at, now), query[0], query[1],
                            Answer(capacity, ops, query, now).value)
    ensures var o := LastInserted(ops, QueryMetaOf(query).value.key).value;
            o.at + WholeSeconds(o.at, now) * 1_000_000_000 <= now < o.at + (WholeSeconds(o.at, now) + 1) * 1_000_000_000
  {
    var key := QueryMetaOf(query).value.key;
    var s := Run(capacity, ops);
    RunTracks(capacity, ops, now);
    InsertedEarlier(ops, key, now);
    WholeSecondsExactly(LastInserted(ops, key).value.at, now);
    var slot := s[IndexOf(s, key).value];
    assert slot in s;
    EntryServesCopy(slot.entry, LastInserted(ops, key).value, key.qtype, now, query[0], query[1]);
  }

  /** Record `k` of a positive response lies in its answer or authority section and carries a TTL. */
  ghost predicate PositiveRecord(response: Bytes, queryType: u16, k: nat) {
    |response| >= HEADER_LEN && CacheableRecords(response).Some?
    && var records := CacheableRecords(response).value;
       var answers, both := Answers(response), Answers(response) + Authorities(response);
       k < both <= |records| && records[k].kind != TYPE_OPT
       && !Negative(response, records[..answers], records[answers..both], queryType)
  }

  /** In a positive response every answer and authority TTL is at least the lifetime of its cache entry. */
  lemma LifetimeWithinTtl(response: Bytes, queryType: u16, ttl: nat, k: nat)
    requires PositiveRecord(response, queryType, k) && CacheTtl(response, queryType) == Some(ttl)
    ensures CacheableRecords(response).value[k].ttl >= ttl
  {
    LongestSafe(response, queryType, ttl);
    var records := CacheableRecords(response).value;
    var both := records[..Answers(response) + Authorities(response)];
    assert WithinTtls(both, ttl) && both[k] == records[k];
  }

  lemma ServedTtl(response: Bytes, records: seq<Record>, elapsed: nat, copy: Bytes, k: nat)
    requires IsAged(response, copy, records, elapsed) && k < |records| && records[k].kind != TYPE_OPT
    ensures ReadU32(copy, records[k].ttlOffset) == Some(SatSub(records[k].ttl, elapsed))
  {
  }

  /** No hit on a positive answer serves a zero or saturated TTL in its answer or authority section. */
  lemma PositiveHitsServeLiveTtls(capacity: nat, ops: seq<Op>, query: Bytes, now: nat, o: Original, k: nat)
    requires capacity >= 1 && NonDecreasing(ops, now) && Answer(capacity, ops, query, now).Some?
    requires LastInserted(ops, QueryMetaOf(query).value.key) == Some(o)
    requires PositiveRecord(o.response, QueryMetaOf(query).value.key.qtype, k)
    ensures var rr := CacheableRecords(o.response).value[k];
            rr.ttl > WholeSeconds(o.at, now)
            && ReadU32(Answer(capacity, ops, query, now).value, rr.ttlOffset) == Some(rr.ttl - WholeSeconds(o.at, now))
  {
    HitIsServedCopy(capacity, ops, query, now);
    LifetimeWithinTtl(o.response, QueryMetaOf(query).value.key.qtype, o.ttl, k);
    ServedTtl(WithId(o.response, query[0], query[1]), CacheableRecords(o.response).value, WholeSeconds(o.at, now),
              Answer(capacity, ops, query, now).value, k);
  }

  // ---- End-to-end validity -----------------------------------------------------------------------------

  lemma {:induction false} LastInsertedIsOp(ops: seq<Op>, key: QueryKey)
    requires LastInserted(ops, key).Some?
    ensures var o := LastInserted(ops, key).value;
            Inserted(o.query, o.response, o.at) in ops
            && QueryMetaOf(o.query).Some? && QueryMetaOf(o.query).value.key == key
    decreases |ops|
  {
    var before, op := ops[..|ops| - 1], ops[|ops| - 1];
    if LastInserted(ops, key) == LastInserted(before, key) && LastInserted(before, key).Some? {
      LastInsertedIsOp(before, key);
    }
  }

  /** The question's walk reads neither the ID nor a TTL, so ageing and stamping leave it alone. */
  ghost predicate QuestionIsSettled(m: Bytes, records: seq<Record>) {
    forall p {:trigger Touches(m, HEADER_LEN, 0, 0, p)} | Touches(m, HEADER_LEN, 0, 0, p) ::
      p >= 2 && !InTtl(records, p)
  }

  /** An uncompressed question is settled. */
  lemma UncompressedIsSettled(m: Bytes, q: nat, records: seq<Record>)
    requires FullyParsed(m, q, records) && QdCount(m) == 1 && Uncompressed(m, HEADER_LEN)
    ensures QuestionIsSettled(m, records)
  {
    var x := UncompressedQuestionIsShort(m);
    FullyParsedIsLayout(m, q, records);
    OneQuestionEnd(m, q);
    forall p | Touches(m, HEADER_LEN, 0, 0, p) ensures p >= 2 && !InTtl(records, p) {
      QuestionsBeforeRecords(m, q, records, p);
    }
  }

  lemma OneQuestionEnd(m: Bytes, q: nat)
    requires |m| >= HEADER_LEN && QdCount(m) == 1 && QuestionsEnd(m) == Some(q)
    ensures Walk(m, HEADER_LEN, 0, 0).Some? && Walk(m, HEADER_LEN, 0, 0).value.end + 4 == q <= |m|
  {
    assert SkipQuestions(m, HEADER_LEN, 1) == Some(q);
    var end := Walk(m, HEADER_LEN, 0, 0).value.end;
    assert SkipQuestions(m, end + 4, 0) == Some(end + 4);
  }

  /** A served copy validates exactly as the response it was made from. */
  lemma ServedCopyValidates(query: Bytes, response: Bytes, q: nat, records: seq<Record>, elapsed: nat,
                            id0: byte, id1: byte, copy: Bytes)
    requires FullyParsed(response, q, records) && QuestionIsSettled(response, records)
    requires IsAged(WithId(response, id0, id1), copy, records, elapsed)
    requires |query| >= HEADER_LEN && QdCount(query) == 1 && QdCount(response) == 1
    ensures |copy| >= HEADER_LEN && copy[0] == id0 && copy[1] == id1 && copy[2] == response[2] && copy[3] == response[3]
    ensures ValidateResponse(query, copy) == ValidateResponse(query, response)
  {
    FullyParsedIsLayout(response, q, records);
    OneQuestionEnd(response, q);
    WalkEndIsInline(response, HEADER_LEN, 0, 0);
    forall i | 0 <= i < q ensures copy[i] == WithId(response, id0, id1)[i] {
      QuestionsBeforeRecords(response, q, records, i);
    }
    forall i | 0 <= i < |response| && Touches(response, HEADER_LEN, 0, 0, i) ensures copy[i] == response[i] {
      assert !InTtl(records, i);
    }
    WalkReadsOnlyTouched(response, copy, HEADER_LEN, 0, 0);
    var end := Walk(response, HEADER_LEN, 0, 0).value.end;
    assert copy[end..end + 4] == response[end..end + 4];
    ValidationSees(query, response, copy, end);
  }

  /** What the forwarder guarantees of a response it hands to the cache: it answers the query it was fetched for. */
  ghost predicate GoodOriginal(o: Original) {
    ValidateResponse(o.query, o.response) == Accepted
  }

  /** The question of a cached response reads neither the ID nor a TTL. */
  ghost predicate SettledOriginal(o: Original) {
    |o.response| >= HEADER_LEN && CacheableRecords(o.response).Some?
    && QuestionIsSettled(o.response, CacheableRecords(o.response).value)
  }

  /** Whoever asked first, every hit answers the requester: its ID, its question, NOERROR or NXDOMAIN, untruncated. */
  lemma EveryHitValidates(capacity: nat, ops: seq<Op>, query: Bytes, now: nat, o: Original)
    requires capacity >= 1 && NonDecreasing(ops, now) && Answer(capacity, ops, query, now).Some?
    requires LastInserted(ops, QueryMetaOf(query).value.key) == Some(o) && GoodOriginal(o) && SettledOriginal(o)
    ensures var hit := Answer(capacity, ops, query, now).value;
            ValidateResponse(query, hit) == Accepted && hit[0] == query[0] && hit[1] == query[1]
            && QrSet(hit) && !TcSet(hit) && (Rcode(hit) == 0 || Rcode(hit) == 3)
  {
    HitIsServedCopy(capacity, ops, query, now);
    var key := QueryMetaOf(query).value.key;
    LastInsertedIsOp(ops, key);
    var q, records := CacheableIsFullyParsed(o.response, key.qtype);
    var hit := Answer(capacity, ops, query, now).value;
    ServedCopyValidates(query, o.response, q, records, WholeSeconds(o.at, now), query[0], query[1], hit);
    EqualKeysValidateAlike(o.query, query, o.response);
  }
}
