/** What ageing a whole message means: exactness, composition, and when it cannot fail. */
module Ageing {
  import opened Prelude
  import opened Names
  import opened Questions
  import opened Records

  // ---- Exactness -----------------------------------------------------------------------------

  /** The section counts and every question octet come before the first TTL. */
  lemma QuestionsBeforeRecords(m: Bytes, q: nat, records: seq<Record>, i: int)
    requires |m| >= HEADER_LEN && QuestionsEnd(m) == Some(q) && IsLayout(m, q, records) && 0 <= i < q
    ensures HEADER_LEN <= q <= |m| && !InTtl(records, i)
  {
    SkipQuestionsBounds(m, HEADER_LEN, QdCount(m));
    forall k | 0 <= k < |records| ensures q < records[k].ttlOffset {
      LayoutOrdered(m, q, records, 0, k);
      RecordBounds(m, StartOf(q, records, k), records[k]);
    }
  }

  /** A successful ageing reduces exactly the non-OPT TTLs of the original layout and keeps that layout. */
  lemma AdjustTtlsExact(m: Bytes, elapsed: nat) returns (q: nat, records: seq<Record>)
    requires AdjustTtls(m, elapsed).ok
    ensures |m| >= HEADER_LEN && QuestionsEnd(m) == Some(q) && |records| == TotalCount(m)
    ensures IsLayout(m, q, records) && LayoutEnd(q, records) == |m|
    ensures IsAged(m, AdjustTtls(m, elapsed).bytes, records, elapsed)
    ensures IsLayout(AdjustTtls(m, elapsed).bytes, q, AgedRecords(records, elapsed))
    ensures TotalCount(AdjustTtls(m, elapsed).bytes) == TotalCount(m)
  {
    q := QuestionsEnd(m).value;
    SkipQuestionsBounds(m, HEADER_LEN, QdCount(m));
    var clamped: u32 := Min(elapsed, U32_MAX);
    var run := AgeFromRuns(m, q, TotalCount(m), clamped);
    var aged := AdjustTtls(m, elapsed).bytes;
    records := RunEffect(m, q, run, TotalCount(m), clamped, aged);
    ClampIsHarmless(m, aged, records, elapsed);
    HeaderUntouched(m, aged, q, records, elapsed);
  }

  lemma HeaderUntouched(m: Bytes, aged: Bytes, q: nat, records: seq<Record>, elapsed: nat)
    requires |m| >= HEADER_LEN && QuestionsEnd(m) == Some(q)
    requires IsLayout(m, q, records) && IsAged(m, aged, records, elapsed)
    ensures |aged| == |m| && forall i | 0 <= i < HEADER_LEN :: aged[i] == m[i]
    ensures TotalCount(aged) == TotalCount(m)
  {
    SkipQuestionsBounds(m, HEADER_LEN, QdCount(m));
    forall i | 0 <= i < HEADER_LEN ensures aged[i] == m[i] {
      QuestionsBeforeRecords(m, q, records, i);
    }
  }

  lemma ClampIsHarmless(m: Bytes, aged: Bytes, records: seq<Record>, elapsed: nat)
    requires IsAged(m, aged, records, Min(elapsed, U32_MAX))
    ensures IsAged(m, aged, records, elapsed)
    ensures AgedRecords(records, Min(elapsed, U32_MAX)) == AgedRecords(records, elapsed)
  {
    forall k | 0 <= k < |records|
      ensures SatSub(records[k].ttl, Min(elapsed, U32_MAX)) == SatSub(records[k].ttl, elapsed)
    {
    }
  }

  // ---- Composition ---------------------------------------------------------------------------

  /** Where the questions end does not depend on octets past that end. */
  lemma {:induction false} QuestionsEndIsLocal(a: Bytes, b: Bytes, offset: nat, count: nat)
    requires SkipQuestions(a, offset, count).Some? && SkipQuestions(b, offset, count).Some?
    requires |a| == |b| && offset <= |a|
    requires forall i | offset <= i < SkipQuestions(a, offset, count).value && i < |a| :: a[i] == b[i]
    ensures SkipQuestions(a, offset, count) == SkipQuestions(b, offset, count)
    decreases count
  {
    if count > 0 {
      WalkEndIsInline(a, offset, 0, 0);
      WalkEndIsInline(b, offset, 0, 0);
      var end := Walk(a, offset, 0, 0).value.end;
      SkipQuestionsBounds(a, end + 4, count - 1);
      InlineEndIsLocal(a, b, offset);
      QuestionsEndIsLocal(a, b, end + 4, count - 1);
    }
  }

  lemma AgedTwiceAt(twice: Bytes, records: seq<Record>, later: seq<Record>, e1: nat, e2: nat, k: nat)
    requires k < |records| == |later| && records[k].kind != TYPE_OPT && later[k] == AgedRecord(records[k], e1)
    requires later[k].kind != TYPE_OPT ==> ReadU32(twice, later[k].ttlOffset) == Some(SatSub(later[k].ttl, e2))
    ensures ReadU32(twice, records[k].ttlOffset) == Some(SatSub(records[k].ttl, e1 + e2))
  {
  }

  lemma AgedTwice(m: Bytes, once: Bytes, twice: Bytes, records: seq<Record>, e1: nat, e2: nat)
    requires IsAged(m, once, records, e1) && IsAged(once, twice, AgedRecords(records, e1), e2)
    ensures IsAged(m, twice, records, e1 + e2)
  {
    forall i | 0 <= i < |m| && !InTtl(records, i) ensures twice[i] == m[i] {
      SameTtlPositions(records, e1, i);
    }
    forall k | 0 <= k < |records| && records[k].kind != TYPE_OPT
      ensures ReadU32(twice, records[k].ttlOffset) == Some(SatSub(records[k].ttl, e1 + e2))
    {
      AgedTwiceAt(twice, records, AgedRecords(records, e1), e1, e2, k);
    }
  }

  lemma SameTtlPositions(records: seq<Record>, elapsed: nat, i: int)
    ensures InTtl(AgedRecords(records, elapsed), i) <==> InTtl(records, i)
  {
    var later := AgedRecords(records, elapsed);
    if InTtl(records, i) {
      var k :| 0 <= k < |records| && records[k].kind != TYPE_OPT &&
               records[k].ttlOffset <= i < records[k].ttlOffset + 4;
      assert later[k].kind != TYPE_OPT && later[k].ttlOffset == records[k].ttlOffset;
    }
    if InTtl(later, i) {
      var k :| 0 <= k < |later| && later[k].kind != TYPE_OPT && later[k].ttlOffset <= i < later[k].ttlOffset + 4;
      assert records[k].kind != TYPE_OPT && later[k].ttlOffset == records[k].ttlOffset;
    }
  }

  /** Ageing by e1 and then e2 is ageing by e1 + e2, clamp included, whenever the three calls succeed. */
  lemma AgeingComposes(m: Bytes, e1: nat, e2: nat)
    requires AdjustTtls(m, e1).ok && AdjustTtls(AdjustTtls(m, e1).bytes, e2).ok && AdjustTtls(m, e1 + e2).ok
    ensures AdjustTtls(AdjustTtls(m, e1).bytes, e2).bytes == AdjustTtls(m, e1 + e2).bytes
  {
    var once := AdjustTtls(m, e1).bytes;
    var twice := AdjustTtls(once, e2).bytes;
    var q, records := AdjustTtlsExact(m, e1);
    var q1, records1 := AdjustTtlsExact(once, e2);
    SameQuestionsEnd(m, once, q, records, e1);
    LayoutUnique(once, q, AgedRecords(records, e1), records1);
    AgedTwice(m, once, twice, records, e1, e2);
    var q2, records2 := AdjustTtlsExact(m, e1 + e2);
    LayoutUnique(m, q, records, records2);
    IsAgedUnique(m, twice, AdjustTtls(m, e1 + e2).bytes, records, e1 + e2);
  }

  lemma SameQuestionsEnd(m: Bytes, aged: Bytes, q: nat, records: seq<Record>, elapsed: nat)
    requires |m| >= HEADER_LEN && QuestionsEnd(m) == Some(q) && IsLayout(m, q, records)
    requires IsAged(m, aged, records, elapsed) && QuestionsEnd(aged).Some?
    ensures QuestionsEnd(aged) == Some(q)
  {
    forall i | 0 <= i < q ensures i < |m| && aged[i] == m[i] {
      QuestionsBeforeRecords(m, q, records, i);
    }
    SkipQuestionsBounds(m, HEADER_LEN, QdCount(m));
    QuestionsEndIsLocal(m, aged, HEADER_LEN, QdCount(m));
  }

  // ---- When ageing cannot fail -----------------------------------------------------------------

  /** Every question and every record parses, and nothing is left over. */
  ghost predicate FullyParsed(m: Bytes, q: nat, records: seq<Record>) {
    |m| >= HEADER_LEN && QuestionsEnd(m) == Some(q) && |records| == TotalCount(m) && LayoutEnd(q, records) == |m|
    && forall k {:trigger StartOf(q, records, k)} | 0 <= k < |records| ::
         ParseRR(m, StartOf(q, records, k)) == Some(records[k])
  }

  function RecordStarts(q: nat, records: seq<Record>): seq<nat> {
    seq(|records|, k requires 0 <= k < |records| => StartOf(q, records, k))
  }

  /** Where the question names and the owner names begin. */
  ghost function NameStarts(m: Bytes, q: nat, records: seq<Record>): seq<nat>
    requires |m| >= HEADER_LEN
  {
    QuestionStarts(m, HEADER_LEN, QdCount(m)) + RecordStarts(q, records)
  }

  /** No name's walk passes through the TTL of a record that ages. */
  ghost predicate NamesAvoidTtls(m: Bytes, q: nat, records: seq<Record>)
    requires |m| >= HEADER_LEN
  {
    forall s: nat, i {:trigger Touches(m, s, 0, 0, i)} | s in NameStarts(m, q, records) && InTtl(records, i) ::
      !Touches(m, s, 0, 0, i)
  }

  lemma FullyParsedIsLayout(m: Bytes, q: nat, records: seq<Record>)
    requires FullyParsed(m, q, records)
    ensures IsLayout(m, q, records)
  {
    forall k | 0 <= k < |records| ensures InlineRR(m, StartOf(q, records, k)) == Some(records[k]) {
      ParseIsInline(m, StartOf(q, records, k));
    }
  }

  /** Outside its own TTL, a record's octets belong to no TTL. */
  lemma TtlsAreDisjoint(m: Bytes, q: nat, records: seq<Record>, k: nat, i: int)
    requires IsLayout(m, q, records) && q <= |m| && k < |records|
    requires StartOf(q, records, k) <= i < records[k].end && InTtl(records, i)
    ensures records[k].kind != TYPE_OPT && records[k].ttlOffset <= i < records[k].ttlOffset + 4
  {
    var j :| 0 <= j < |records| && records[j].kind != TYPE_OPT && records[j].ttlOffset <= i < records[j].ttlOffset + 4;
    RecordBounds(m, StartOf(q, records, j), records[j]);
    RecordBounds(m, StartOf(q, records, k), records[k]);
    if j < k {
      LayoutOrdered(m, q, records, j + 1, k);
    } else if k < j {
      LayoutOrdered(m, q, records, k + 1, j);
    }
  }

  ghost predicate AgreeOutsideTtls(m: Bytes, b: Bytes, records: seq<Record>) {
    |b| == |m| && forall i {:trigger InTtl(records, i)} | 0 <= i < |m| && !InTtl(records, i) :: b[i] == m[i]
  }

  lemma RecordStartIsName(m: Bytes, q: nat, records: seq<Record>, k: nat)
    requires |m| >= HEADER_LEN && k < |records|
    ensures StartOf(q, records, k) in NameStarts(m, q, records)
  {
    assert RecordStarts(q, records)[k] == StartOf(q, records, k);
    assert StartOf(q, records, k) in RecordStarts(q, records);
  }

  /** Every name of a parsed message walks. */
  lemma NamesWalk(m: Bytes, q: nat, records: seq<Record>, s: nat)
    requires FullyParsed(m, q, records) && s in NameStarts(m, q, records)
    ensures s >= HEADER_LEN && Walk(m, s, 0, 0).Some?
  {
    SkipQuestionsBounds(m, HEADER_LEN, QdCount(m));
    if s in QuestionStarts(m, HEADER_LEN, QdCount(m)) {
      QuestionStartsParse(m, HEADER_LEN, QdCount(m), s);
    } else {
      var k :| 0 <= k < |records| && RecordStarts(q, records)[k] == s;
      FullyParsedIsLayout(m, q, records);
      LayoutOrdered(m, q, records, 0, k);
      assert ParseRR(m, StartOf(q, records, k)) == Some(records[k]);
    }
  }

  /** In a partly aged buffer each record still parses, to the same fields but for its TTL. */
  lemma StillParses(m: Bytes, b: Bytes, q: nat, records: seq<Record>, k: nat)
    requires FullyParsed(m, q, records) && NamesAvoidTtls(m, q, records) && AgreeOutsideTtls(m, b, records)
    requires k < |records|
    ensures ParseRR(b, StartOf(q, records, k)).Some?
    ensures ParseRR(b, StartOf(q, records, k)).value == records[k].(ttl := ParseRR(b, StartOf(q, records, k)).value.ttl)
  {
    FullyParsedIsLayout(m, q, records);
    SkipQuestionsBounds(m, HEADER_LEN, QdCount(m));
    var start := StartOf(q, records, k);
    RecordStartIsName(m, q, records, k);
    WalkReadsOnlyTouched(m, b, start, 0, 0);
    WalkEndIsInline(m, start, 0, 0);
    RecordBounds(m, start, records[k]);
    var nameEnd := Walk(m, start, 0, 0).value.end;
    forall i | start <= i < records[k].end && !(nameEnd + 4 <= i < nameEnd + 8) ensures b[i] == m[i] {
      if InTtl(records, i) {
        TtlsAreDisjoint(m, q, records, k, i);
      }
    }
  }

  lemma TurnSucceeds(m: Bytes, b: Bytes, q: nat, records: seq<Record>, k: nat, elapsed: u32) returns (next: Bytes)
    requires FullyParsed(m, q, records) && NamesAvoidTtls(m, q, records) && AgreeOutsideTtls(m, b, records)
    requires k < |records|
    ensures AgeTurn(b, StartOf(q, records, k), elapsed) == Moved(next, StartOf(q, records, k + 1))
    ensures AgreeOutsideTtls(m, next, records)
  {
    StillParses(m, b, q, records, k);
    var rr := ParseRR(b, StartOf(q, records, k)).value;
    FullyParsedIsLayout(m, q, records);
    RecordBounds(m, StartOf(q, records, k), records[k]);
    AgeOneEffect(b, rr, elapsed);
    next := AgeOne(b, rr, elapsed);
    TurnStaysOutside(m, b, next, records, k, rr, elapsed);
  }

  ghost predicate TurnKeeps(inv: Bytes -> bool, b: Bytes, offset: nat, next: nat, elapsed: u32) {
    match AgeTurn(b, offset, elapsed)
    case Stuck => false
    case Moved(c, end) => end == next && inv(c)
  }

  /** The ageing loop ends well when an invariant carries each turn to the next start. */
  lemma {:induction false} AgeLoopSucceeds(inv: Bytes -> bool, starts: seq<nat>, b: Bytes, k: nat, count: nat,
                                           elapsed: u32)
    requires k + count + 1 == |starts| && inv(b)
    requires forall c, j {:trigger inv(c), starts[j]} | 0 <= j < |starts| - 1 && inv(c) ::
               TurnKeeps(inv, c, starts[j], starts[j + 1], elapsed)
    requires forall c | inv(c) :: |c| == starts[|starts| - 1]
    ensures AgeFrom(b, starts[k], count, elapsed).ok
    decreases count
  {
    if count > 0 {
      assert TurnKeeps(inv, b, starts[k], starts[k + 1], elapsed);
      AgeLoopSucceeds(inv, starts, AgeTurn(b, starts[k], elapsed).bytes, k + 1, count - 1, elapsed);
    }
  }

  lemma TurnStaysOutside(m: Bytes, b: Bytes, next: Bytes, records: seq<Record>, k: nat, rr: Record, elapsed: nat)
    requires AgreeOutsideTtls(m, b, records) && AgedOnce(b, next, rr, elapsed)
    requires k < |records| && rr.ttlOffset == records[k].ttlOffset && rr.kind == records[k].kind
    ensures AgreeOutsideTtls(m, next, records)
  {
    forall i | 0 <= i < |m| && !InTtl(records, i) ensures next[i] == m[i] {
      assert !(records[k].kind != TYPE_OPT && records[k].ttlOffset <= i < records[k].ttlOffset + 4);
    }
  }

  /** A message whose names stay clear of its TTLs always ages. */
  lemma CleanMessageAges(m: Bytes, q: nat, records: seq<Record>, elapsed: nat)
    requires FullyParsed(m, q, records) && NamesAvoidTtls(m, q, records)
    ensures AdjustTtls(m, elapsed).ok
  {
    var clamped: u32 := Min(elapsed, U32_MAX);
    var starts := RecordStarts(q, records) + [|m|];
    ghost var inv := (b: Bytes) => AgreeOutsideTtls(m, b, records);
    forall b, k | 0 <= k < |records| && inv(b) ensures TurnKeeps(inv, b, starts[k], starts[k + 1], clamped) {
      var next := TurnSucceeds(m, b, q, records, k, clamped);
      assert starts[k + 1] == StartOf(q, records, k + 1);
    }
    assert starts[0] == q;
    AgeLoopSucceeds(inv, starts, m, 0, |records|, clamped);
  }

  /** ... and stays that way, so it can be aged again and again. */
  lemma CleanStaysClean(m: Bytes, q: nat, records: seq<Record>, elapsed: nat)
    requires FullyParsed(m, q, records) && NamesAvoidTtls(m, q, records)
    ensures AdjustTtls(m, elapsed).ok
    ensures FullyParsed(AdjustTtls(m, elapsed).bytes, q, AgedRecords(records, elapsed))
    ensures NamesAvoidTtls(AdjustTtls(m, elapsed).bytes, q, AgedRecords(records, elapsed))
  {
    CleanMessageAges(m, q, records, elapsed);
    FullyParsedIsLayout(m, q, records);
    var q', records' := AdjustTtlsExact(m, elapsed);
    LayoutUnique(m, q, records, records');
    AgedAgrees(m, AdjustTtls(m, elapsed).bytes, q, records, elapsed);
  }

  /** The name at `s` ends alike in both buffers, and reads no new positions in `b`. */
  ghost predicate WalksAlike(m: Bytes, b: Bytes, s: nat) {
    Walk(m, s, 0, 0).Some? && Walk(b, s, 0, 0).Some? && Walk(b, s, 0, 0).value.end == Walk(m, s, 0, 0).value.end
    && forall p | Touches(b, s, 0, 0, p) :: Touches(m, s, 0, 0, p)
  }

  lemma {:induction false} SameQuestionWalks(m: Bytes, b: Bytes, offset: nat, count: nat)
    requires SkipQuestions(m, offset, count).Some? && |b| == |m|
    requires forall s: nat | s in QuestionStarts(m, offset, count) :: WalksAlike(m, b, s)
    ensures SkipQuestions(b, offset, count) == SkipQuestions(m, offset, count)
    ensures QuestionStarts(b, offset, count) == QuestionStarts(m, offset, count)
    decreases count
  {
    if count > 0 {
      var rest := QuestionStarts(m, Walk(m, offset, 0, 0).value.end + 4, count - 1);
      assert QuestionStarts(m, offset, count) == [offset] + rest;
      assert forall s | s in rest :: s in QuestionStarts(m, offset, count);
      assert offset in QuestionStarts(m, offset, count);
      SameQuestionWalks(m, b, Walk(m, offset, 0, 0).value.end + 4, count - 1);
    }
  }

  lemma ParsesAlike(m: Bytes, b: Bytes, q: nat, records: seq<Record>, later: seq<Record>, k: nat)
    requires |m| >= HEADER_LEN && k < |records| == |later| && RecordStarts(q, later) == RecordStarts(q, records)
    requires IsLayout(b, q, later) && WalksAlike(m, b, StartOf(q, records, k))
    ensures ParseRR(b, StartOf(q, later, k)) == Some(later[k])
  {
    assert RecordStarts(q, later)[k] == RecordStarts(q, records)[k];
    WalkEndIsInline(b, StartOf(q, later, k), 0, 0);
  }

  lemma SameCounts(m: Bytes, b: Bytes)
    requires |m| >= HEADER_LEN && |b| == |m| && forall i | 4 <= i < HEADER_LEN :: b[i] == m[i]
    ensures TotalCount(b) == TotalCount(m) && QdCount(b) == QdCount(m)
  {
  }

  lemma SameHeaderAlike(m: Bytes, b: Bytes, q: nat, records: seq<Record>)
    requires |m| >= HEADER_LEN && QuestionsEnd(m).Some? && |b| == |m|
    requires forall i | 4 <= i < HEADER_LEN :: b[i] == m[i]
    requires forall s: nat | s in NameStarts(m, q, records) :: WalksAlike(m, b, s)
    ensures QuestionsEnd(b) == QuestionsEnd(m) && TotalCount(b) == TotalCount(m) && QdCount(b) == QdCount(m)
    ensures QuestionStarts(b, HEADER_LEN, QdCount(b)) == QuestionStarts(m, HEADER_LEN, QdCount(m))
  {
    SameCounts(m, b);
    var starts := QuestionStarts(m, HEADER_LEN, QdCount(m));
    forall s: nat | s in starts ensures WalksAlike(m, b, s) {
      assert s in starts + RecordStarts(q, records);
    }
    SameQuestionWalks(m, b, HEADER_LEN, QdCount(m));
  }

  /** A buffer with the same counts whose walks run alike is parsed alike, and just as clean. */
  lemma ParsedAlike(m: Bytes, b: Bytes, q: nat, records: seq<Record>, later: seq<Record>)
    requires FullyParsed(m, q, records) && |b| == |m| && |later| == |records| && IsLayout(b, q, later)
    requires forall i | 4 <= i < HEADER_LEN :: b[i] == m[i]
    requires forall s: nat | s in NameStarts(m, q, records) :: WalksAlike(m, b, s)
    requires RecordStarts(q, later) == RecordStarts(q, records) && LayoutEnd(q, later) == LayoutEnd(q, records)
    requires forall i :: InTtl(later, i) ==> InTtl(records, i)
    ensures FullyParsed(b, q, later) && NameStarts(b, q, later) == NameStarts(m, q, records)
    ensures NamesAvoidTtls(m, q, records) ==> NamesAvoidTtls(b, q, later)
  {
    SameHeaderAlike(m, b, q, records);
    forall k | 0 <= k < |later| ensures ParseRR(b, StartOf(q, later, k)) == Some(later[k]) {
      RecordStartIsName(m, q, records, k);
      ParsesAlike(m, b, q, records, later, k);
    }
  }

  lemma AgedStarts(q: nat, records: seq<Record>, elapsed: nat)
    ensures RecordStarts(q, AgedRecords(records, elapsed)) == RecordStarts(q, records)
    ensures LayoutEnd(q, AgedRecords(records, elapsed)) == LayoutEnd(q, records)
  {
  }

  lemma AgedAgrees(m: Bytes, b: Bytes, q: nat, records: seq<Record>, elapsed: nat)
    requires FullyParsed(m, q, records) && NamesAvoidTtls(m, q, records)
    requires IsAged(m, b, records, elapsed) && IsLayout(b, q, AgedRecords(records, elapsed))
    ensures FullyParsed(b, q, AgedRecords(records, elapsed)) && NamesAvoidTtls(b, q, AgedRecords(records, elapsed))
  {
    FullyParsedIsLayout(m, q, records);
    SkipQuestionsBounds(m, HEADER_LEN, QdCount(m));
    forall i | 4 <= i < HEADER_LEN ensures b[i] == m[i] {
      QuestionsBeforeRecords(m, q, records, i);
    }
    forall i ensures InTtl(AgedRecords(records, elapsed), i) ==> InTtl(records, i) {
      SameTtlPositions(records, elapsed, i);
    }
    forall s: nat | s in NameStarts(m, q, records) ensures WalksAlike(m, b, s) {
      NamesWalk(m, q, records, s);
      WalkReadsOnlyTouched(m, b, s, 0, 0);
    }
    AgedStarts(q, records, elapsed);
    ParsedAlike(m, b, q, records, AgedRecords(records, elapsed));
  }

  // ---- Clearing the ID, as the cache does -------------------------------------------------------

  /** Clearing the ID keeps a message parsed, and cannot lead a name into a TTL. */
  lemma ClearedIdStaysClean(m: Bytes, q: nat, records: seq<Record>)
    requires FullyParsed(m, q, records)
    ensures FullyParsed(WithId(m, 0, 0), q, records)
    ensures NamesAvoidTtls(m, q, records) ==> NamesAvoidTtls(WithId(m, 0, 0), q, records)
  {
    var z := WithId(m, 0, 0);
    FullyParsedIsLayout(m, q, records);
    SkipQuestionsBounds(m, HEADER_LEN, QdCount(m));
    LayoutIsLocal(m, z, q, records);
    forall s: nat | s in NameStarts(m, q, records) ensures WalksAlike(m, z, s) {
      NamesWalk(m, q, records, s);
      ClearedIdKeepsWalk(m, s, 0, 0);
    }
    ParsedAlike(m, z, q, records, records);
  }

  lemma {:induction false} QuestionStartsParse(m: Bytes, offset: nat, count: nat, s: nat)
    requires s in QuestionStarts(m, offset, count)
    ensures Walk(m, s, 0, 0).Some? && s >= offset
    decreases count
  {
    WalkEndIsInline(m, offset, 0, 0);
    if s != offset {
      QuestionStartsParse(m, Walk(m, offset, 0, 0).value.end + 4, count - 1, s);
    }
  }
}
