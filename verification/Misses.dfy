/** Why a cached response is not served: eviction, expiry or a buffer that no longer ages, and nothing else. */
module CacheMisses {
  import opened Prelude
  import opened Names
  import opened Questions
  import opened Ageing
  import Records
  import opened QueryMetadata
  import opened CacheTtls
  import opened ResponseCache
  import opened Recency

  // ---- The store as a list of keys -----------------------------------------------------------------

  function KeysOf(s: Store): seq<QueryKey> {
    if s == [] then [] else [s[0].key] + KeysOf(s[1..])
  }

  lemma {:induction false} KeysOfIndex(s: Store, key: QueryKey)
    ensures IndexOf(s, key).Some? <==> key in KeysOf(s)
    decreases |s|
  {
    if s != [] {
      KeysOfIndex(s[1..], key);
    }
  }

  lemma {:induction false} KeysOfDrop(s: Store, key: QueryKey)
    ensures IndexOf(s, key).Some? ==> KeysOf(Drop(s, IndexOf(s, key).value)) == Removed(KeysOf(s), key)
    ensures IndexOf(s, key).None? ==> KeysOf(s) == Removed(KeysOf(s), key)
    decreases |s|
  {
    if s != [] && s[0].key == key {
      assert Drop(s, 0) == s[1..];
    } else if s != [] {
      KeysOfDrop(s[1..], key);
      if IndexOf(s, key).Some? {
        var i := IndexOf(s[1..], key).value;
        assert Drop(s, i + 1) == [s[0]] + Drop(s[1..], i);
        assert Drop(s, i + 1)[1..] == Drop(s[1..], i);
      }
    }
  }

  lemma {:induction false} KeysOfTake(s: Store, n: nat)
    requires n <= |s|
    ensures |KeysOf(s)| == |s| && KeysOf(s[..n]) == KeysOf(s)[..n]
    decreases |s|
  {
    if s != [] {
      KeysOfTake(s[1..], if n == 0 then 0 else n - 1);
      assert n > 0 ==> s[..n][1..] == s[1..][..n - 1];
    }
  }

  // ---- What each call does to the recency order ---------------------------------------------------------

  function EffectOf(s: Store, op: Op): Effect {
    match QueryMetaOf(op.query)
    case None => Nothing
    case Some(meta) =>
      (match op
       case Inserted(_, response, _) => if CacheTtl(response, meta.key.qtype).Some? then Used(meta.key) else Nothing
       case Looked(query, at) =>
         if Get(s, meta.key, query[0], query[1], at).hit.Some? then Used(meta.key) else Missed(meta.key))
  }

  function Effects(capacity: nat, ops: seq<Op>): seq<Effect>
    requires capacity >= 1
  {
    if ops == [] then []
    else Effects(capacity, ops[..|ops| - 1]) + [EffectOf(Run(capacity, ops[..|ops| - 1]), ops[|ops| - 1])]
  }

  lemma PutKeys(s: Store, capacity: nat, key: QueryKey, e: Entry)
    requires capacity >= 1
    ensures KeysOf(Put(s, capacity, key, e)) == Applied(KeysOf(s), capacity, Used(key))
  {
    KeysOfDrop(s, key);
    var rest := match IndexOf(s, key) case None => s case Some(i) => Drop(s, i);
    KeysOfTake(rest, if |rest| < capacity then |rest| else capacity - 1);
    assert rest[..|rest|] == rest;
    assert Put(s, capacity, key, e)[1..] == if |rest| < capacity then rest else rest[..capacity - 1];
  }

  lemma HitKeys(s: Store, capacity: nat, key: QueryKey, i: nat, front: Slot)
    requires capacity >= 1 && |s| <= capacity && IndexOf(s, key) == Some(i) && front.key == key
    ensures KeysOf([front] + Drop(s, i)) == Applied(KeysOf(s), capacity, Used(key))
  {
    var rest := Drop(s, i);
    KeysOfDrop(s, key);
    KeysOfTake(rest, |rest|);
    assert ([front] + rest)[1..] == rest;
  }

  lemma GetKeys(s: Store, capacity: nat, key: QueryKey, id0: byte, id1: byte, now: nat)
    requires capacity >= 1 && |s| <= capacity
    ensures var o := Get(s, key, id0, id1, now);
            KeysOf(o.store) == Applied(KeysOf(s), capacity, if o.hit.Some? then Used(key) else Missed(key))
  {
    var o := Get(s, key, id0, id1, now);
    if o.hit.Some? {
      HitKeys(s, capacity, key, IndexOf(s, key).value, o.store[0]);
    } else {
      KeysOfDrop(s, key);
    }
  }

  lemma StepKeys(s: Store, capacity: nat, op: Op)
    requires capacity >= 1 && |s| <= capacity
    ensures KeysOf(Step(s, capacity, op)) == Applied(KeysOf(s), capacity, EffectOf(s, op))
  {
    if QueryMetaOf(op.query).Some? {
      var key := QueryMetaOf(op.query).value.key;
      match op
      case Inserted(_, response, at) =>
        if CacheTtl(response, key.qtype).Some? {
          PutKeys(s, capacity, key, Entry(WithId(response, 0, 0), at, CacheTtl(response, key.qtype).value));
        }
      case Looked(query, at) => GetKeys(s, capacity, key, query[0], query[1], at);
    }
  }

  /** The LRU's keys, in order, are what the effects of the run leave. */
  lemma {:induction false} RunKeys(capacity: nat, ops: seq<Op>, now: nat)
    requires capacity >= 1 && NonDecreasing(ops, now)
    ensures KeysOf(Run(capacity, ops)) == Stack(capacity, Effects(capacity, ops))
    decreases |ops|
  {
    if ops != [] {
      var before, op := ops[..|ops| - 1], ops[|ops| - 1];
      assert before + [op] == ops;
      NonDecreasingBefore(before, op, now);
      RunKeys(capacity, before, op.at);
      RunTracks(capacity, before, op.at);
      StepKeys(Run(capacity, before), capacity, op);
      Snoc(Effects(capacity, before), EffectOf(Run(capacity, before), op));
    }
  }

  lemma {:induction false} InsertedIsUsed(capacity: nat, ops: seq<Op>, key: QueryKey)
    requires capacity >= 1 && LastInserted(ops, key).Some?
    ensures EverUsed(Effects(capacity, ops), key)
    decreases |ops|
  {
    var before, op := ops[..|ops| - 1], ops[|ops| - 1];
    if LastInserted(before, key).Some? {
      InsertedIsUsed(capacity, before, key);
    }
    var es := Effects(capacity, ops);
    assert es[|es| - 1] == EffectOf(Run(capacity, before), op);
  }

  // ---- Exactly when a lookup hits --------------------------------------------------------------------------

  /** The lifetime, counted in nanoseconds from the insertion, is not over. */
  ghost predicate Live(o: Original, now: nat) {
    now < o.at + o.ttl * 1_000_000_000
  }

  /** The entry of `key`, if it is there and within its lifetime, can be aged up to `now`. */
  ghost predicate Ages(s: Store, key: QueryKey, now: nat) {
    IndexOf(s, key).Some? ==>
      var e := s[IndexOf(s, key).value].entry;
      WholeSeconds(e.agedAt, now) < e.ttl ==> CatchUp(e, WholeSeconds(e.agedAt, now)).Some?
  }

  lemma PresentHits(s: Store, ops: seq<Op>, key: QueryKey, id0: byte, id1: byte, now: nat)
    requires Tracks(s, ops, now) && IndexOf(s, key).Some? && LastInserted(ops, key).Some?
    requires Live(LastInserted(ops, key).value, now) && Ages(s, key, now)
    ensures Get(s, key, id0, id1, now).hit.Some?
  {
    var slot := s[IndexOf(s, key).value];
    assert slot in s;
    var _, _ := AgeOfEntry(slot.entry, LastInserted(ops, key).value, key.qtype, now);
  }

  lemma KeptExactly(capacity: nat, ops: seq<Op>, key: QueryKey, now: nat)
    requires capacity >= 1 && NonDecreasing(ops, now) && LastInserted(ops, key).Some?
    ensures var es := Effects(capacity, ops);
            IndexOf(Run(capacity, ops), key).Some? <==> !Crowded(es, capacity, key) && !LostSince(es, key)
  {
    RunKeys(capacity, ops, now);
    HeldExactly(capacity, Effects(capacity, ops), key);
    InsertedIsUsed(capacity, ops, key);
    KeysOfIndex(Run(capacity, ops), key);
  }

  /**
   * Over every run and for every capacity: a lookup hits exactly when the simple store has a live response that was not
   * crowded out, was not lost to a failed lookup and can still be aged.
   */
  lemma HitsExactly(capacity: nat, ops: seq<Op>, query: Bytes, now: nat)
    requires capacity >= 1 && NonDecreasing(ops, now) && QueryMetaOf(query).Some?
    ensures Answer(capacity, ops, query, now).Some? <==>
            var key := QueryMetaOf(query).value.key;
            var last, es := LastInserted(ops, key), Effects(capacity, ops);
            last.Some? && Live(last.value, now) && !Crowded(es, capacity, key) && !LostSince(es, key)
            && Ages(Run(capacity, ops), key, now)
  {
    var key := QueryMetaOf(query).value.key;
    if Answer(capacity, ops, query, now).Some? {
      HitIsServedCopy(capacity, ops, query, now);
    }
    if LastInserted(ops, key).Some? {
      KeptExactly(capacity, ops, key, now);
      RunTracks(capacity, ops, now);
      if IndexOf(Run(capacity, ops), key).Some? && Live(LastInserted(ops, key).value, now) &&
         Ages(Run(capacity, ops), key, now)
      {
        PresentHits(Run(capacity, ops), ops, key, query[0], query[1], now);
      }
    }
  }

  // ---- Clean responses ----------------------------------------------------------------------------------------

  /** None of the response's names runs through its TTLs. */
  ghost predicate CleanOriginal(o: Original) {
    |o.response| >= HEADER_LEN && QuestionsEnd(o.response).Some? && CacheableRecords(o.response).Some?
    && NamesAvoidTtls(o.response, QuestionsEnd(o.response).value, CacheableRecords(o.response).value)
  }

  /** A clean entry always catches up. */
  lemma CleanCatchesUp(e: Entry, o: Original, queryType: u16, now: nat)
    requires Follows(e, o, queryType, now) && WholeSeconds(e.agedAt, now) < e.ttl && CleanOriginal(o)
    ensures CatchUp(e, WholeSeconds(e.agedAt, now)).Some?
  {
    var k: nat :| EntryFollows(e, o, queryType, k) && e.agedAt <= now;
    var q, records := CacheableIsFullyParsed(o.response, queryType);
    ClearedIdStaysClean(o.response, q, records);
    AgedAgrees(WithId(o.response, 0, 0), e.response, q, records, k);
    CleanMessageAges(e.response, q, Records.AgedRecords(records, k), WholeSeconds(e.agedAt, now));
  }

  lemma CleanAges(s: Store, ops: seq<Op>, key: QueryKey, now: nat)
    requires Tracks(s, ops, now) && LastInserted(ops, key).Some? && CleanOriginal(LastInserted(ops, key).value)
    ensures Ages(s, key, now)
  {
    if IndexOf(s, key).Some? {
      var slot := s[IndexOf(s, key).value];
      assert slot in s;
      if WholeSeconds(slot.entry.agedAt, now) < slot.entry.ttl {
        CleanCatchesUp(slot.entry, LastInserted(ops, key).value, key.qtype, now);
      }
    }
  }

  lemma LiveEarlier(o: Original, at: nat, now: nat)
    requires Live(o, now) && at <= now
    ensures Live(o, at)
  {
    assert SatSub(at, o.at) <= SatSub(now, o.at);
  }

  /** A lookup of a clean, live response fails only after it was crowded out. */
  lemma {:induction false} CleanLostIsCrowded(capacity: nat, ops: seq<Op>, key: QueryKey, now: nat, o: Original)
    requires capacity >= 1 && NonDecreasing(ops, now) && LastInserted(ops, key) == Some(o)
    requires CleanOriginal(o) && Live(o, now) && LostSince(Effects(capacity, ops), key)
    ensures Crowded(Effects(capacity, ops), capacity, key)
    decreases |ops|
  {
    var before, op := ops[..|ops| - 1], ops[|ops| - 1];
    assert before + [op] == ops;
    NonDecreasingBefore(before, op, now);
    LiveEarlier(o, op.at, now);
    var s := Run(capacity, before);
    Snoc(Effects(capacity, before), EffectOf(s, op));
    if LostSince(Effects(capacity, before), key) {
      CleanLostIsCrowded(capacity, before, key, op.at, o);
    } else {
      CleanMissIsCrowded(capacity, before, op, key, o);
    }
  }

  lemma CleanMissIsCrowded(capacity: nat, before: seq<Op>, op: Op, key: QueryKey, o: Original)
    requires capacity >= 1 && NonDecreasing(before, op.at) && LastInserted(before, key) == Some(o)
    requires CleanOriginal(o) && Live(o, op.at) && EffectOf(Run(capacity, before), op) == Missed(key)
    requires !LostSince(Effects(capacity, before), key)
    ensures Crowded(Effects(capacity, before), capacity, key)
  {
    var s := Run(capacity, before);
    RunTracks(capacity, before, op.at);
    CleanAges(s, before, key, op.at);
    KeptExactly(capacity, before, key, op.at);
    if IndexOf(s, key).Some? {
      PresentHits(s, before, key, op.query[0], op.query[1], op.at);
    }
  }

  /**
   * Over every run and for every capacity, a lookup whose own last response is clean hits exactly when the simple store
   * has it live and it was not crowded out: eviction is the only other miss.
   */
  lemma HitIffSimpleStoreHits(capacity: nat, ops: seq<Op>, query: Bytes, now: nat)
    requires capacity >= 1 && NonDecreasing(ops, now) && QueryMetaOf(query).Some?
    requires var last := LastInserted(ops, QueryMetaOf(query).value.key); last.Some? ==> CleanOriginal(last.value)
    ensures Answer(capacity, ops, query, now).Some? <==>
            var key := QueryMetaOf(query).value.key;
            var last := LastInserted(ops, key);
            last.Some? && Live(last.value, now) && !Crowded(Effects(capacity, ops), capacity, key)
  {
    var key := QueryMetaOf(query).value.key;
    HitsExactly(capacity, ops, query, now);
    if LastInserted(ops, key).Some? {
      RunTracks(capacity, ops, now);
      CleanAges(Run(capacity, ops), ops, key, now);
      if Live(LastInserted(ops, key).value, now) && LostSince(Effects(capacity, ops), key) {
        CleanLostIsCrowded(capacity, ops, key, now, LastInserted(ops, key).value);
      }
    }
  }

  /**
   * A live, clean response is missed only after `capacity` distinct other keys were inserted or hit since it was; if no
   * lookup has failed since then, it is missed exactly when they were.
   */
  lemma MissNeedsOthers(capacity: nat, ops: seq<Op>, query: Bytes, now: nat, o: Original)
    requires capacity >= 1 && NonDecreasing(ops, now) && QueryMetaOf(query).Some?
    requires LastInserted(ops, QueryMetaOf(query).value.key) == Some(o) && CleanOriginal(o) && Live(o, now)
    ensures var key, es := QueryMetaOf(query).value.key, Effects(capacity, ops);
            (Answer(capacity, ops, query, now).None? ==> |UsedSince(es, key)| >= capacity)
            && (NoMissSince(es, key) ==>
                  (Answer(capacity, ops, query, now).None? <==> |UsedSince(es, key)| >= capacity))
  {
    var key, es := QueryMetaOf(query).value.key, Effects(capacity, ops);
    HitIffSimpleStoreHits(capacity, ops, query, now);
    CrowdedByOthers(es, capacity, key);
    if NoMissSince(es, key) {
      CrowdedIffEnoughOthers(es, capacity, key);
    }
  }

  // ---- Room for every key ----------------------------------------------------------------------------------------

  ghost function KeysInserted(ops: seq<Op>): set<QueryKey> {
    set op | op in ops && op.Inserted? && QueryMetaOf(op.query).Some? :: QueryMetaOf(op.query).value.key
  }

  lemma LastInsertedKey(ops: seq<Op>, key: QueryKey)
    requires LastInserted(ops, key).Some?
    ensures key in KeysInserted(ops)
  {
    LastInsertedIsOp(ops, key);
    var o := LastInserted(ops, key).value;
    assert QueryMetaOf(Inserted(o.query, o.response, o.at).query).value.key == key;
  }

  lemma UsedKeyWasInserted(capacity: nat, before: seq<Op>, op: Op, key: QueryKey)
    requires capacity >= 1 && NonDecreasing(before, op.at) && EffectOf(Run(capacity, before), op) == Used(key)
    ensures key in KeysInserted(before + [op])
  {
    if op.Inserted? {
      assert op in before + [op];
    } else {
      HitIsServedCopy(capacity, before, op.query, op.at);
      LastInsertedKey(before, key);
      assert KeysInserted(before) <= KeysInserted(before + [op]);
    }
  }

  lemma OthersNext(capacity: nat, before: seq<Op>, op: Op, key: QueryKey, others: set<QueryKey>)
    requires capacity >= 1 && NonDecreasing(before, op.at)
    requires others <= KeysInserted(before) - {key}
    ensures var e := EffectOf(Run(capacity, before), op);
            KeysInserted(before) <= KeysInserted(before + [op])
            && (e.Used? && e.key != key ==> others + {e.key} <= KeysInserted(before + [op]) - {key})
  {
    var e := EffectOf(Run(capacity, before), op);
    if e.Used? {
      UsedKeyWasInserted(capacity, before, op, e.key);
    }
  }

  lemma OthersSnoc(capacity: nat, before: seq<Op>, op: Op, key: QueryKey, es: seq<Effect>, e: Effect)
    requires capacity >= 1 && NonDecreasing(before, op.at) && e == EffectOf(Run(capacity, before), op)
    requires UsedSince(es, key) <= KeysInserted(before) - {key}
    ensures UsedSince(es + [e], key) <= KeysInserted(before + [op]) - {key}
  {
    OthersNext(capacity, before, op, key, UsedSince(es, key));
    SinceSnoc(es, e, key);
  }

  lemma {:induction false} OthersWereInserted(capacity: nat, ops: seq<Op>, key: QueryKey, now: nat)
    requires capacity >= 1 && NonDecreasing(ops, now)
    ensures UsedSince(Effects(capacity, ops), key) <= KeysInserted(ops) - {key}
    decreases |ops|
  {
    if ops != [] {
      var before, op := ops[..|ops| - 1], ops[|ops| - 1];
      assert before + [op] == ops;
      NonDecreasingBefore(before, op, now);
      OthersWereInserted(capacity, before, key, op.at);
      OthersSnoc(capacity, before, op, key, Effects(capacity, before), EffectOf(Run(capacity, before), op));
    }
  }

  /** With room for every key nothing is evicted: clean responses hit exactly as long as they live. */
  lemma RoomyCacheNeverEvicts(capacity: nat, ops: seq<Op>, query: Bytes, now: nat)
    requires capacity >= 1 && NonDecreasing(ops, now) && QueryMetaOf(query).Some? && |KeysInserted(ops)| <= capacity
    requires var last := LastInserted(ops, QueryMetaOf(query).value.key); last.Some? ==> CleanOriginal(last.value)
    ensures Answer(capacity, ops, query, now).Some? <==>
            var last := LastInserted(ops, QueryMetaOf(query).value.key);
            last.Some? && Live(last.value, now)
  {
    var key, es := QueryMetaOf(query).value.key, Effects(capacity, ops);
    HitIffSimpleStoreHits(capacity, ops, query, now);
    if LastInserted(ops, key).Some? {
      LastInsertedKey(ops, key);
      OthersWereInserted(capacity, ops, key, now);
      CrowdedByOthers(es, capacity, key);
      SubsetCard(UsedSince(es, key), KeysInserted(ops) - {key});
    }
  }

  // ---- Why the others are not simply counted ---------------------------------------------------------------------

  /** A query for the root name and QTYPE `t`. */
  function RootQuery(t: byte): Bytes {
    [0, 0, 1, 0, 0, 1, 0, 0, 0, 0, 0, 0, 0, 0, t, 0, 1]
  }

  /** Its answer: one record of that type. */
  function RootAnswer(t: byte, ttl: byte): Bytes {
    [0, 0, 0x81, 0x80, 0, 1, 0, 1, 0, 0, 0, 0, 0, 0, t, 0, 1, 0, 0, t, 0, 1, 0, 0, 0, ttl, 0, 0]
  }

  lemma RootWalk(m: Bytes, at: nat)
    requires at < |m| && m[at] == 0
    ensures Walk(m, at, 0, 0) == Some(Walked([[0]], at + 1))
    ensures forall p {:trigger Touches(m, at, 0, 0, p)} | Touches(m, at, 0, 0, p) :: p == at
  {
  }

  lemma OneQuestion(m: Bytes, at: nat)
    requires at + 5 <= |m| && m[at] == 0
    ensures SkipQuestions(m, at, 1) == Some(at + 5) && QuestionStarts(m, at, 1) == [at]
  {
    RootWalk(m, at);
    assert SkipQuestions(m, at + 5, 0) == Some(at + 5) && QuestionStarts(m, at + 5, 0) == [];
  }

  lemma OneRecord(m: Bytes, start: nat, rr: Records.Record)
    requires Records.ParseRR(m, start) == Some(rr)
    ensures ParsePrefix(m, start, 1) == Some([rr])
  {
    assert ParsePrefix(m, start, 0) == Some([]) && Records.LayoutEnd(start, []) == start && [] + [rr] == [rr];
  }

  lemma RootQueryKey(t: byte)
    ensures QueryMetaOf(RootQuery(t)).Some? && QueryMetaOf(RootQuery(t)).value.key.qtype == t
  {
    var m := RootQuery(t);
    RootWalk(m, HEADER_LEN);
    assert SkipRecords(m, 17, 0) == Some(17) && TakeOpts(m, FreshEdns(17), 0) == Some(FreshEdns(17));
  }

  function RootRecord(t: byte, ttl: byte): Records.Record {
    Records.Record(t, 1, ttl, 22, 28, 0, 28)
  }

  /** A message that is laid out as RootAnswer is. */
  ghost predicate IsRootAnswer(m: Bytes, t: byte, ttl: byte) {
    |m| == 28 && QrSet(m) && !TcSet(m) && Rcode(m) == 0 && QdCount(m) == 1 && Answers(m) == 1 && Authorities(m) == 0
    && Records.TotalCount(m) == 1 && m[12] == 0 && m[17] == 0 && Records.RecordAt(m, 18) == Some(RootRecord(t, ttl))
  }

  lemma RootAnswerParses(m: Bytes, t: byte, ttl: byte)
    requires IsRootAnswer(m, t, ttl)
    ensures QuestionsEnd(m) == Some(17) && CacheableRecords(m) == Some([RootRecord(t, ttl)])
  {
    OneQuestion(m, HEADER_LEN);
    RootWalk(m, 17);
    OneRecord(m, 17, RootRecord(t, ttl));
  }

  lemma OneTtl(rr: Records.Record)
    ensures MinTtl([rr]) == Some(rr.ttl)
  {
    assert [rr][..0] == [] && MinTtl([]) == None;
  }

  lemma RootAnswerIsCached(m: Bytes, t: byte, ttl: byte)
    requires IsRootAnswer(m, t, ttl) && ttl > 0
    ensures CacheTtl(m, t) == Some(ttl)
  {
    var records := [RootRecord(t, ttl)];
    RootAnswerParses(m, t, ttl);
    assert records[1..1 + 0] == [] && records[..1] == records && records[..1 + 0] == records;
    OneTtl(RootRecord(t, ttl));
    assert SoaFloor(m, []) == None;
  }

  lemma RootAnswerIsClean(m: Bytes, t: byte, ttl: byte)
    requires IsRootAnswer(m, t, ttl)
    ensures NamesAvoidTtls(m, 17, [RootRecord(t, ttl)])
  {
    var records := [RootRecord(t, ttl)];
    OneQuestion(m, HEADER_LEN);
    RootWalk(m, 12);
    RootWalk(m, 17);
    assert RecordStarts(17, records) == [17];
  }

  lemma RootOriginal(query: Bytes, m: Bytes, t: byte, ttl: byte)
    requires IsRootAnswer(m, t, ttl) && ttl > 0
    ensures CacheTtl(m, t) == Some(ttl) && CleanOriginal(Original(query, m, 0, ttl))
  {
    RootAnswerParses(m, t, ttl);
    RootAnswerIsCached(m, t, ttl);
    RootAnswerIsClean(m, t, ttl);
  }

  lemma RootAnswerShape(t: byte, ttl: byte)
    ensures IsRootAnswer(RootAnswer(t, ttl), t, ttl)
  {
  }

  /** A query with its key, and a response that is cached under it for `ttl` seconds. */
  ghost predicate Cacheable(query: Bytes, response: Bytes, key: QueryKey, ttl: nat) {
    QueryMetaOf(query).Some? && QueryMetaOf(query).value.key == key && CacheTtl(response, key.qtype) == Some(ttl)
  }

  lemma InsertedEffect(capacity: nat, before: seq<Op>, op: Op, key: QueryKey, ttl: nat, other: QueryKey)
    requires capacity >= 1 && op.Inserted? && Cacheable(op.query, op.response, key, ttl)
    ensures Effects(capacity, before + [op]) == Effects(capacity, before) + [Used(key)]
    ensures LastInserted(before + [op], other)
              == if other == key then Some(Original(op.query, op.response, op.at, ttl)) else LastInserted(before, other)
  {
    assert (before + [op])[..|before|] == before;
  }

  lemma ExpiredEffect(capacity: nat, before: seq<Op>, op: Op, key: QueryKey, other: QueryKey)
    requires capacity >= 1 && NonDecreasing(before, op.at) && op.Looked?
    requires QueryMetaOf(op.query).Some? && QueryMetaOf(op.query).value.key == key
    requires LastInserted(before, key).Some? && !Live(LastInserted(before, key).value, op.at)
    ensures Effects(capacity, before + [op]) == Effects(capacity, before) + [Missed(key)]
    ensures LastInserted(before + [op], other) == LastInserted(before, other)
  {
    assert (before + [op])[..|before|] == before;
    if Answer(capacity, before, op.query, op.at).Some? {
      HitIsServedCopy(capacity, before, op.query, op.at);
    }
  }

  lemma TwoInserted(one: Op, two: Op, a: QueryKey, b: QueryKey)
    requires one.Inserted? && Cacheable(one.query, one.response, a, 60) && a != b
    requires two.Inserted? && Cacheable(two.query, two.response, b, 1)
    ensures Effects(2, [one, two]) == [Used(a), Used(b)]
    ensures LastInserted([one, two], a) == Some(Original(one.query, one.response, one.at, 60))
    ensures LastInserted([one, two], b) == Some(Original(two.query, two.response, two.at, 1))
  {
    assert [] + [one] == [one] && [one] + [two] == [one, two];
    InsertedEffect(2, [], one, a, 60, a);
    InsertedEffect(2, [one], two, b, 1, a);
    InsertedEffect(2, [one], two, b, 1, b);
  }

  /** `b` is looked up once it has expired, and `c` inserted. */
  lemma ThenRefilled(before: seq<Op>, look: Op, three: Op, a: QueryKey, b: QueryKey, c: QueryKey)
    requires NonDecreasing(before, look.at) && LastInserted(before, a).Some? && a != c
    requires look.Looked? && QueryMetaOf(look.query).Some? && QueryMetaOf(look.query).value.key == b
    requires LastInserted(before, b).Some? && !Live(LastInserted(before, b).value, look.at)
    requires three.Inserted? && Cacheable(three.query, three.response, c, 60)
    ensures Effects(2, before + [look] + [three]) == Effects(2, before) + [Missed(b)] + [Used(c)]
    ensures LastInserted(before + [look] + [three], a) == LastInserted(before, a)
  {
    ExpiredEffect(2, before, look, b, a);
    InsertedEffect(2, before + [look], three, c, 60, a);
  }

  lemma InOrder(one: Op, two: Op, look: Op, three: Op)
    requires one.at == two.at == 0 && look.at == three.at == NANOS
    ensures NonDecreasing([one, two], NANOS) && NonDecreasing([one, two] + [look] + [three], NANOS)
  {
  }

  /** One response for a minute and one for a second; a second later the second is looked up and a third inserted. */
  lemma RoomScenario(one: Op, two: Op, look: Op, three: Op, a: QueryKey, b: QueryKey, c: QueryKey)
    requires one.Inserted? && Cacheable(one.query, one.response, a, 60) && a != b && b != c && a != c
    requires two.Inserted? && Cacheable(two.query, two.response, b, 1) && look == Looked(two.query, NANOS)
    requires three.Inserted? && Cacheable(three.query, three.response, c, 60)
    requires one.at == two.at == 0 && NonDecreasing([one, two], NANOS)
    ensures Effects(2, [one, two] + [look] + [three]) == [Used(a), Used(b), Missed(b), Used(c)]
    ensures LastInserted([one, two] + [look] + [three], a) == Some(Original(one.query, one.response, 0, 60))
  {
    TwoInserted(one, two, a, b);
    ThenRefilled([one, two], look, three, a, b, c);
  }

  /**
   * Two slots, two other keys used since, and still a hit: the lookup that found one of them expired emptied its slot.
   * Only while no lookup fails do the others count one for one.
   */
  lemma ExpiredOthersMakeRoom() returns (ops: seq<Op>, query: Bytes)
    ensures NonDecreasing(ops, NANOS) && QueryMetaOf(query).Some? && Answer(2, ops, query, NANOS).Some?
    ensures |UsedSince(Effects(2, ops), QueryMetaOf(query).value.key)| == 2
  {
    var a, b, c := RootQuery(1), RootQuery(2), RootQuery(3);
    RootQueryKey(1);
    RootQueryKey(2);
    RootQueryKey(3);
    query := a;
    RootAnswerShape(1, 60);
    RootAnswerShape(2, 1);
    RootAnswerShape(3, 60);
    ops := ScenarioHits(a, b, c, RootAnswer(1, 60), RootAnswer(2, 1), RootAnswer(3, 60));
  }

  lemma ScenarioHits(a: Bytes, b: Bytes, c: Bytes, ra: Bytes, rb: Bytes, rc: Bytes) returns (ops: seq<Op>)
    requires QueryMetaOf(a).Some? && QueryMetaOf(a).value.key.qtype == 1 && IsRootAnswer(ra, 1, 60)
    requires QueryMetaOf(b).Some? && QueryMetaOf(b).value.key.qtype == 2 && IsRootAnswer(rb, 2, 1)
    requires QueryMetaOf(c).Some? && QueryMetaOf(c).value.key.qtype == 3 && IsRootAnswer(rc, 3, 60)
    ensures NonDecreasing(ops, NANOS) && Answer(2, ops, a, NANOS).Some?
    ensures |UsedSince(Effects(2, ops), QueryMetaOf(a).value.key)| == 2
  {
    var ka, kb, kc := QueryMetaOf(a).value.key, QueryMetaOf(b).value.key, QueryMetaOf(c).value.key;
    RootOriginal(a, ra, 1, 60);
    RootOriginal(b, rb, 2, 1);
    RootOriginal(c, rc, 3, 60);
    var one, two, three := Inserted(a, ra, 0), Inserted(b, rb, 0), Inserted(c, rc, NANOS);
    InOrder(one, two, Looked(b, NANOS), three);
    RoomScenario(one, two, Looked(b, NANOS), three, ka, kb, kc);
    ops := [one, two] + [Looked(b, NANOS)] + [three];
    FailedLookupsMakeRoom(ka, kb, kc);
    HitIffSimpleStoreHits(2, ops, a, NANOS);
  }
}
