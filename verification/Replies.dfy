/** From cache, upstream or neither to the datagram a UDP client receives. */
module Replies {
  import opened Prelude
  import opened Names
  import opened Questions
  import opened Records
  import opened Ageing
  import opened QueryMetadata
  import opened CacheTtls
  import opened Truncation
  import opened ResponseCache

  /** A local FORMERR first, then a cache hit, then the upstream's answer, then SERVFAIL. */
  function Reply(query: Bytes, hit: Option<Bytes>, answer: Option<Bytes>): Bytes
    requires |query| >= HEADER_LEN
  {
    if IsMultiQuestionQuery(query) then Formerr(query)
    else if hit.Some? then hit.value
    else if answer.Some? then answer.value
    else Servfail(query)
  }

  function UdpLimit(query: Bytes): nat {
    match QueryMetaOf(query)
    case Some(meta) => meta.udpSize
    case None => UdpPayloadSize(query)
  }

  function Datagram(query: Bytes, hit: Option<Bytes>, answer: Option<Bytes>): Bytes
    requires |query| >= HEADER_LEN
  {
    Truncated(Reply(query, hit, answer), UdpLimit(query))
  }

  lemma {:induction false} FirstOptBounds(m: Bytes, offset: nat, count: nat)
    ensures MIN_UDP <= FirstOptSize(m, offset, count) <= MAX_UDP
    decreases count
  {
    if count > 0 && ParseRR(m, offset).Some? {
      FirstOptBounds(m, ParseRR(m, offset).value.end, count - 1);
    }
  }

  /** Whatever the query says, a datagram may hold at least 512 octets. */
  lemma UdpLimitBounds(query: Bytes)
    ensures UdpLimit(query) == UdpPayloadSize(query) && MIN_UDP <= UdpLimit(query) <= MAX_UDP
  {
    if QueryMetaOf(query).Some? {
      SizesAgree(query);
    } else if |query| >= HEADER_LEN {
      var q := QuestionsEnd(query);
      if q.Some? && SkipRecords(query, q.value, AnswerAndAuthorityCount(query)).Some? {
        FirstOptBounds(query, SkipRecords(query, q.value, AnswerAndAuthorityCount(query)).value,
                       AdditionalCount(query));
      }
    }
  }

  /** What may be sent: it fits, carries the client's ID and answers the client's question. */
  ghost predicate AnswersClient(query: Bytes, sent: Bytes) {
    |query| >= HEADER_LEN && |sent| >= HEADER_LEN && sent[0] == query[0] && sent[1] == query[1]
    && ValidateResponse(query, sent) == Accepted
  }

  /** Nothing is cut off, or the question can do without what is. */
  ghost predicate Survives(reply: Bytes, limit: nat) {
    |reply| <= limit || SelfContained(reply)
  }

  lemma TruncatedAnswersClient(query: Bytes, reply: Bytes, limit: nat)
    requires AnswersClient(query, reply) && QdCount(query) == 1 && Survives(reply, limit) && limit >= MIN_UDP
    ensures AnswersClient(query, Truncated(reply, limit)) && |Truncated(reply, limit)| <= limit
    ensures |reply| > limit ==> TcSet(Truncated(reply, limit))
  {
    if |reply| > limit {
      WalkEndBound(reply, HEADER_LEN, 0, 0);
      EmptiedFacts(reply);
    }
    TruncatedStillValidates(query, reply, limit);
    TruncatedFits(reply, limit);
  }

  /** A served copy's question reads what the stored one reads. */
  lemma CopySurvives(response: Bytes, q: nat, records: seq<Record>, elapsed: nat, id0: byte, id1: byte, copy: Bytes,
                     limit: nat)
    requires FullyParsed(response, q, records) && QuestionIsSettled(response, records) && Survives(response, limit)
    requires IsAged(WithId(response, id0, id1), copy, records, elapsed)
    ensures Survives(copy, limit)
  {
    forall i | 0 <= i < |response| && Touches(response, HEADER_LEN, 0, 0, i) ensures copy[i] == response[i] {
      assert !InTtl(records, i);
    }
    WalkReadsOnlyTouched(response, copy, HEADER_LEN, 0, 0);
  }

  lemma HitSurvives(capacity: nat, ops: seq<Op>, query: Bytes, now: nat, o: Original, limit: nat)
    requires capacity >= 1 && NonDecreasing(ops, now) && Answer(capacity, ops, query, now).Some?
    requires LastInserted(ops, QueryMetaOf(query).value.key) == Some(o)
    requires SettledOriginal(o) && Survives(o.response, limit)
    ensures Survives(Answer(capacity, ops, query, now).value, limit)
  {
    HitIsServedCopy(capacity, ops, query, now);
    var q, records := CacheableIsFullyParsed(o.response, QueryMetaOf(query).value.key.qtype);
    CopySurvives(o.response, q, records, WholeSeconds(o.at, now), query[0], query[1],
                 Answer(capacity, ops, query, now).value, limit);
  }

  /** What the reply is made from: a response that answered its own query, an upstream's answer, or the query. */
  ghost predicate SoundSource(capacity: nat, ops: seq<Op>, query: Bytes, now: nat, answer: Option<Bytes>)
    requires capacity >= 1 && |query| >= HEADER_LEN
  {
    var limit := UdpLimit(query);
    if Answer(capacity, ops, query, now).Some? then
      var last := LastInserted(ops, QueryMetaOf(query).value.key);
      last.Some? ==> GoodOriginal(last.value) && SettledOriginal(last.value) && Survives(last.value.response, limit)
    else if answer.Some? then AnswersClient(query, answer.value) && Survives(answer.value, limit)
    else SameQuestion(query, query).Some? && FlagsUnread(query) && Survives(query, limit)
  }

  /**
   * Over every run of the cache, every datagram sent for a one-question query fits the client's buffer, bears its ID
   * and validates against its question, whether it comes from the cache, an upstream or neither.
   */
  lemma EveryDatagramAnswers(capacity: nat, ops: seq<Op>, query: Bytes, now: nat, answer: Option<Bytes>)
    requires capacity >= 1 && NonDecreasing(ops, now) && |query| >= HEADER_LEN && QdCount(query) == 1
    requires SoundSource(capacity, ops, query, now, answer)
    ensures var sent := Datagram(query, Answer(capacity, ops, query, now), answer);
            AnswersClient(query, sent) && |sent| <= UdpPayloadSize(query)
    ensures var hit := Answer(capacity, ops, query, now);
            var source := if hit.Some? then hit.value else if answer.Some? then answer.value else Servfail(query);
            var sent := Datagram(query, hit, answer);
            if |source| <= UdpPayloadSize(query) then sent == source else TcSet(sent)
  {
    UdpLimitBounds(query);
    var hit := Answer(capacity, ops, query, now);
    if hit.Some? {
      HitIsServedCopy(capacity, ops, query, now);
      var o := LastInserted(ops, QueryMetaOf(query).value.key).value;
      EveryHitValidates(capacity, ops, query, now, o);
      HitSurvives(capacity, ops, query, now, o, UdpLimit(query));
    } else if answer.None? {
      ServfailAnswersItsQuery(query, 0);
      ServfailWalks(query);
    }
    TruncatedAnswersClient(query, Reply(query, hit, answer), UdpLimit(query));
  }

  /** A query with several questions gets a header-only FORMERR that is itself well formed, at any UDP limit. */
  lemma FormerrIsWellFormed(query: Bytes, hit: Option<Bytes>, answer: Option<Bytes>)
    requires |query| >= HEADER_LEN && query[2] < 8 && Pair(query, 4) > 1
    ensures var sent := Datagram(query, hit, answer);
            sent == query[..2] + [0x80 + query[2] % 2, 0x81, 0, 0, 0, 0, 0, 0, 0, 0] && !IsMultiQuestionQuery(sent)
  {
    UdpLimitBounds(query);
    MultiQuestionExactly(query);
  }
}
