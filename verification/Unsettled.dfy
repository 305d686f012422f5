/** Responses whose question reads its own message ID, and the requesters their cached copies do not answer. */
module UnsettledHits {
  import opened Prelude
  import opened Names
  import opened Questions
  import opened Ageing
  import opened Records
  import opened QueryMetadata
  import opened CacheTtls
  import opened ResponseCache
  import opened CacheMisses

  /** Neither a length nor a pointer: a name that reads it as its next octet cannot be walked. */
  const BAD_LENGTH: byte := 0x80

  /** Reading the ID, a walk begins a label or a pointer there, so an ID of such octets stops it. */
  lemma {:induction false} IdStopsWalk(m: Bytes, other: Bytes, at: nat, jumps: nat, used: nat, p: int)
    requires jumps <= MAX_JUMPS && used < MAX_NAME && |m| == |other| >= HEADER_LEN
    requires other[0] == other[1] == BAD_LENGTH
    requires forall i | 2 <= i < |m| && Touches(m, at, jumps, used, i) :: other[i] == m[i]
    requires Touches(m, at, jumps, used, p) && p < 2
    ensures Walk(other, at, jumps, used).None?
    decreases MAX_JUMPS - jumps + (MAX_NAME - used)
  {
    if at >= 2 {
      assert Touches(m, at, jumps, used, at);
      if m[at] >= 0xc0 {
        assert at + 1 < |m| && Touches(m, at, jumps, used, at + 1);
        IdStopsWalk(m, other, Target(m, at), jumps + 1, used, p);
      } else {
        IdStopsWalk(m, other, at + 1 + m[at], jumps, used + 1 + m[at], p);
      }
    }
  }

  /** The question of the cached response reads no TTL that ages; only its ID may still be in the way. */
  ghost predicate QuestionAvoidsTtls(o: Original) {
    |o.response| >= HEADER_LEN && CacheableRecords(o.response).Some?
    && forall i {:trigger Touches(o.response, HEADER_LEN, 0, 0, i)} | Touches(o.response, HEADER_LEN, 0, 0, i) ::
         !InTtl(CacheableRecords(o.response).value, i)
  }

  lemma UnsettledReadsId(o: Original) returns (p: int)
    requires QuestionAvoidsTtls(o) && !SettledOriginal(o)
    ensures Touches(o.response, HEADER_LEN, 0, 0, p) && p < 2
  {
    p :| Touches(o.response, HEADER_LEN, 0, 0, p) && !(p >= 2 && !InTtl(CacheableRecords(o.response).value, p));
  }

  /** A copy of an unsettled question, stamped with such an ID, has no question at all. */
  lemma UnsettledCopyFails(query: Bytes, o: Original, elapsed: nat, copy: Bytes)
    requires QuestionAvoidsTtls(o) && !SettledOriginal(o)
    requires |query| >= HEADER_LEN && QdCount(query) == 1
    requires IsAged(WithId(o.response, BAD_LENGTH, BAD_LENGTH), copy, CacheableRecords(o.response).value, elapsed)
    requires copy[0] == copy[1] == BAD_LENGTH
    ensures ValidateResponse(query, copy) != Accepted
  {
    var p := UnsettledReadsId(o);
    IdStopsWalk(o.response, copy, HEADER_LEN, 0, 0, p);
  }

  lemma CopyBearsId(response: Bytes, queryType: u16, elapsed: nat, id0: byte, id1: byte, copy: Bytes)
    requires CacheTtl(response, queryType).Some? && CacheableRecords(response).Some?
    requires IsAged(WithId(response, id0, id1), copy, CacheableRecords(response).value, elapsed)
    ensures |copy| >= 2 && copy[0] == id0 && copy[1] == id1
  {
    var q, records := CacheableIsFullyParsed(response, queryType);
    FullyParsedIsLayout(response, q, records);
    SkipQuestionsBounds(response, HEADER_LEN, QdCount(response));
    QuestionsBeforeRecords(response, q, records, 0);
    QuestionsBeforeRecords(response, q, records, 1);
  }

  /**
   * Among responses whose question reads no TTL, those whose question reads no octet of the ID either are exactly the
   * ones whose hits answer every requester: any other fails the requester with ID 0x8080.
   */
  lemma HitsAnswerEveryIdIffSettled(capacity: nat, ops: seq<Op>, query: Bytes, now: nat, o: Original)
    requires capacity >= 1 && NonDecreasing(ops, now) && Answer(capacity, ops, query, now).Some?
    requires LastInserted(ops, QueryMetaOf(query).value.key) == Some(o) && GoodOriginal(o) && QuestionAvoidsTtls(o)
    ensures SettledOriginal(o) ==> ValidateResponse(query, Answer(capacity, ops, query, now).value) == Accepted
    ensures query[0] == query[1] == BAD_LENGTH ==>
              (ValidateResponse(query, Answer(capacity, ops, query, now).value) == Accepted <==> SettledOriginal(o))
  {
    if SettledOriginal(o) {
      EveryHitValidates(capacity, ops, query, now, o);
    } else if query[0] == query[1] == BAD_LENGTH {
      HitIsServedCopy(capacity, ops, query, now);
      var elapsed, hit := WholeSeconds(o.at, now), Answer(capacity, ops, query, now).value;
      CopyBearsId(o.response, QueryMetaOf(query).value.key.qtype, elapsed, BAD_LENGTH, BAD_LENGTH, hit);
      UnsettledCopyFails(query, o, elapsed, hit);
    }
  }

  // ---- Such a response, and such a requester ---------------------------------------------------------------------

  /** A query for the root name and QTYPE 1, with ID `id`, `id`. */
  function RootQueryFrom(id: byte): Bytes {
    [id, id, 1, 0, 0, 1, 0, 0, 0, 0, 0, 0, 0, 0, 1, 0, 1]
  }

  /** Its answer with ID 0, 0, the question's name a pointer to the first octet of the ID. */
  const PointedAnswer: Bytes := [0, 0, 0x81, 0x80, 0, 1, 0, 1, 0, 0, 0, 0,
                                 0xc0, 0, 0, 1, 0, 1,
                                 0, 0, 1, 0, 1, 0, 0, 0, 60, 0, 0]

  const AnswerRecord: Record := Record(1, 1, 60, 23, 29, 0, 29)

  /** A message that is laid out as a query from RootQueryFrom is. */
  ghost predicate IsRootQuery(m: Bytes) {
    |m| == 17 && CacheableHeader(m) && AnswerAndAuthorityCount(m) == 0 && AdditionalCount(m) == 0 && m[3] == 0
    && m[12] == 0 && ReadU16(m, 13) == Some(1) && ReadU16(m, 15) == Some(1)
  }

  lemma RootQueryShape(id: byte)
    ensures IsRootQuery(RootQueryFrom(id))
  {
  }

  lemma RootQueryMeta(m: Bytes)
    requires IsRootQuery(m)
    ensures QueryMetaOf(m) == Some(QueryMeta(QueryKey([0], 1, 1, false, false, 0), MIN_UDP))
  {
    RootWalk(m, HEADER_LEN);
    var labels: seq<Bytes> := [[0]];
    assert labels[1..] == [] && Flatten([]) == [];
    assert Flatten(labels) == [0] && Fold([0]) == [0];
    assert NameAt(m, HEADER_LEN) == Some(Decoded([0], 13));
    assert SkipRecords(m, 17, 0) == Some(17) && TakeOpts(m, FreshEdns(17), 0) == Some(FreshEdns(17));
  }

  /** A message that is laid out as PointedAnswer is. */
  ghost predicate IsPointedAnswer(m: Bytes) {
    |m| == 29 && HasPointedHeader(m) && m[0] == 0 && m[12] == 0xc0 && m[13] == 0
    && ReadU16(m, 14) == Some(1) && ReadU16(m, 16) == Some(1) && m[18] == 0 && RecordAt(m, 19) == Some(AnswerRecord)
  }

  ghost predicate HasPointedHeader(m: Bytes)
    requires |m| >= HEADER_LEN
  {
    QrSet(m) && !TcSet(m) && Opcode(m) == 0 && Rcode(m) == 0 && QdCount(m) == 1
    && Answers(m) == 1 && Authorities(m) == 0 && TotalCount(m) == 1
  }

  lemma PointedHeader(m: Bytes)
    requires |m| == 29 && m == PointedAnswer
    ensures HasPointedHeader(m)
  {
  }

  lemma PointedRecord(m: Bytes)
    requires |m| == 29 && m == PointedAnswer
    ensures RecordAt(m, 19) == Some(AnswerRecord)
  {
  }

  lemma PointedAnswerShape()
    ensures IsPointedAnswer(PointedAnswer)
  {
    var m := PointedAnswer;
    PointedHeader(m);
    PointedRecord(m);
  }

  lemma PointedWalk(m: Bytes)
    requires |m| > 13 && m[0] == 0 && m[12] == 0xc0 && m[13] == 0
    ensures Walk(m, HEADER_LEN, 0, 0) == Some(Walked([[0]], 14))
    ensures forall p {:trigger Touches(m, HEADER_LEN, 0, 0, p)} | Touches(m, HEADER_LEN, 0, 0, p) ::
              p == 0 || p == 12 || p == 13
    ensures Touches(m, HEADER_LEN, 0, 0, 0)
  {
    assert Target(m, 12) == 0;
    assert Walk(m, 0, 1, 0) == Some(Walked([[0]], 1));
    assert forall p {:trigger Touches(m, 0, 1, 0, p)} :: Touches(m, 0, 1, 0, p) <==> p == 0;
  }

  lemma PointedAnswerParses(m: Bytes)
    requires IsPointedAnswer(m)
    ensures QuestionsEnd(m) == Some(18) && CacheableRecords(m) == Some([AnswerRecord])
    ensures QuestionStarts(m, HEADER_LEN, 1) == [HEADER_LEN]
  {
    PointedWalk(m);
    assert SkipQuestions(m, 18, 0) == Some(18) && QuestionStarts(m, 18, 0) == [];
    RootWalk(m, 18);
    OneRecord(m, 18, AnswerRecord);
  }

  lemma PointedAnswerIsCached(m: Bytes)
    requires IsPointedAnswer(m)
    ensures CacheTtl(m, 1) == Some(60)
  {
    var records := [AnswerRecord];
    PointedAnswerParses(m);
    assert records[1..1 + 0] == [] && records[..1] == records && records[..1 + 0] == records;
    OneTtl(AnswerRecord);
    assert SoaFloor(m, []) == None;
  }

  lemma PointedAnswerIsClean(m: Bytes)
    requires IsPointedAnswer(m)
    ensures NamesAvoidTtls(m, 18, [AnswerRecord])
  {
    PointedAnswerParses(m);
    PointedWalk(m);
    RootWalk(m, 18);
    assert RecordStarts(18, [AnswerRecord]) == [18];
  }

  lemma PointedAnswerIsUnsettled(query: Bytes, m: Bytes, o: Original)
    requires IsRootQuery(query) && IsPointedAnswer(m) && o == Original(query, m, 0, 60)
    ensures GoodOriginal(o) && CleanOriginal(o) && QuestionAvoidsTtls(o) && !SettledOriginal(o)
  {
    PointedAnswerParses(m);
    PointedAnswerIsClean(m);
    PointedWalk(m);
    RootWalk(query, HEADER_LEN);
    assert query[13..17] == m[14..18];
  }

  /** A response that answered its own query is served to a requester whose query it does not answer. */
  lemma UnsettledHitFails() returns (query: Bytes, response: Bytes, later: Bytes)
    ensures ValidateResponse(query, response) == Accepted
    ensures var ops := [Inserted(query, response, 0)];
            Answer(1, ops, later, 0).Some? && ValidateResponse(later, Answer(1, ops, later, 0).value) != Accepted
  {
    query, response, later := RootQueryFrom(0), PointedAnswer, RootQueryFrom(BAD_LENGTH);
    RootQueryShape(0);
    RootQueryShape(BAD_LENGTH);
    PointedAnswerShape();
    PointedHitFails(query, response, later);
  }

  lemma PointedHitFails(query: Bytes, response: Bytes, later: Bytes)
    requires IsRootQuery(query) && IsPointedAnswer(response)
    requires IsRootQuery(later) && later[0] == later[1] == BAD_LENGTH
    ensures ValidateResponse(query, response) == Accepted
    ensures var ops := [Inserted(query, response, 0)];
            Answer(1, ops, later, 0).Some? && ValidateResponse(later, Answer(1, ops, later, 0).value) != Accepted
  {
    var op, o := Inserted(query, response, 0), Original(query, response, 0, 60);
    RootQueryMeta(query);
    RootQueryMeta(later);
    PointedAnswerIsCached(response);
    PointedAnswerIsUnsettled(query, response, o);
    var key := QueryMetaOf(query).value.key;
    InsertedEffect(1, [], op, key, 60, key);
    assert [] + [op] == [op];
    HitIffSimpleStoreHits(1, [op], later, 0);
    HitsAnswerEveryIdIffSettled(1, [op], later, 0, o);
  }
}
