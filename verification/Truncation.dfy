/** UDP truncation and the locally made error replies. */
module Truncation {
  import opened Prelude
  import opened Names
  import opened Questions
  import opened CacheTtls

  /** A question whose name is uncompressed ends by this offset. */
  const MAX_QUESTION_END: nat := HEADER_LEN + MAX_NAME + 4

  function SetTc(b: byte): byte {
    if b / 2 % 2 == 1 then b else b + 2
  }

  /** TC set, answer, authority and additional counts cleared. */
  function Emptied(m: Bytes): Bytes
    requires |m| >= HEADER_LEN
  {
    m[..2] + [SetTc(m[2])] + m[3..6] + [0, 0, 0, 0, 0, 0] + m[HEADER_LEN..]
  }

  function HeaderOnly(m: Bytes): Bytes
    requires |m| >= HEADER_LEN
  {
    m[..4] + [0, 0] + m[6..HEADER_LEN]
  }

  function Truncated(m: Bytes, limit: nat): Bytes {
    if |m| <= limit || |m| < HEADER_LEN then m
    else
      match QuestionsEnd(Emptied(m))
      case None => HeaderOnly(Emptied(m))
      case Some(end) => if end <= limit && end <= |m| then Emptied(m)[..end] else HeaderOnly(Emptied(m))
  }

  /** A growable message buffer. */
  class Message {
    var bytes: Bytes

    constructor (bytes: Bytes)
      ensures this.bytes == bytes
    {
      this.bytes := bytes;
    }

    /** Cut an oversized response to header and question, setting TC. */
    method TruncateTo(limit: nat)
      modifies this
      ensures bytes == Truncated(old(bytes), limit)
    {
      if |bytes| <= limit || |bytes| < HEADER_LEN {
        return;
      }
      ghost var before := bytes;
      bytes := bytes[2 := SetTc(bytes[2])];
      for i := 6 to HEADER_LEN
        invariant |bytes| == |before|
        invariant bytes == before[..2] + [SetTc(before[2])] + before[3..6] + seq(i - 6, _ => 0) + before[i..]
      {
        bytes := bytes[i := 0];
      }
      assert bytes == Emptied(before);
      var end := FindQuestionsEnd(bytes);
      if end.Some? && end.value <= limit && end.value <= |bytes| {
        bytes := bytes[..end.value];
      } else {
        bytes := bytes[4 := 0][5 := 0];
        bytes := bytes[..HEADER_LEN];
      }
    }
  }

  lemma EmptiedFacts(m: Bytes)
    requires |m| >= HEADER_LEN
    ensures var e := Emptied(m);
            |e| == |m| && TcSet(e) && QrSet(e) == QrSet(m) && Opcode(e) == Opcode(m) && QdCount(e) == QdCount(m)
            && (forall i | 0 <= i < |m| && i != 2 && !(6 <= i < HEADER_LEN) :: e[i] == m[i])
            && forall i | 6 <= i < HEADER_LEN :: e[i] == 0
  {
  }

  /** TC set and the three later counts cleared. */
  ghost predicate IsEmptied(m: Bytes, e: Bytes) {
    |e| == |m| >= HEADER_LEN && e[2] == m[2] + (if m[2] / 2 % 2 == 1 then 0 else 2)
    && (forall i | 6 <= i < 12 :: e[i] == 0) && forall i | 0 <= i < |m| && i != 2 && !(6 <= i < 12) :: e[i] == m[i]
  }

  /** What is left of an oversized message: header and questions, or the header alone, without a question. */
  lemma TruncatedExactly(m: Bytes, limit: nat, e: Bytes)
    requires IsEmptied(m, e)
    ensures |m| <= limit ==> Truncated(m, limit) == m
    ensures |m| > limit ==>
              Truncated(m, limit)
              == if QuestionsEnd(e).Some? && QuestionsEnd(e).value <= limit then e[..QuestionsEnd(e).value]
                 else e[..4] + [0, 0] + [0, 0, 0, 0, 0, 0]
  {
    assert e == Emptied(m);
    assert e[6..12] == [0, 0, 0, 0, 0, 0];
    if QuestionsEnd(e).Some? {
      SkipQuestionsBounds(e, HEADER_LEN, QdCount(e));
    }
  }

  /** Above the header size a reply always fits its limit. */
  lemma TruncatedFits(m: Bytes, limit: nat)
    requires limit >= HEADER_LEN
    ensures |Truncated(m, limit)| <= limit
  {
  }

  lemma HeaderOnlyIsStable(m: Bytes, limit: nat)
    requires |m| >= HEADER_LEN && limit < HEADER_LEN
    ensures Truncated(HeaderOnly(Emptied(m)), limit) == HeaderOnly(Emptied(m))
  {
    var h := HeaderOnly(Emptied(m));
    EmptiedFacts(m);
    EmptiedFacts(h);
    assert Emptied(h) == h;
    assert HeaderOnly(h) == h;
    if QuestionsEnd(h).Some? {
      assert QdCount(h) == 0;
      assert SkipQuestions(h, HEADER_LEN, 0) == Some(HEADER_LEN);
    }
  }

  /** Truncating twice is truncating once, whatever the limit. */
  lemma TruncationIsIdempotent(m: Bytes, limit: nat)
    ensures Truncated(Truncated(m, limit), limit) == Truncated(m, limit)
  {
    if limit >= HEADER_LEN {
      TruncatedFits(m, limit);
    } else if |m| > limit && |m| >= HEADER_LEN {
      if QuestionsEnd(Emptied(m)).Some? {
        EmptiedFacts(m);
        SkipQuestionsBounds(Emptied(m), HEADER_LEN, QdCount(m));
      }
      HeaderOnlyIsStable(m, limit);
    }
  }

  /** A question with an uncompressed name that fits the name bound ends by offset 271. */
  lemma UncompressedQuestionIsShort(m: Bytes) returns (x: Expansion)
    requires Uncompressed(m, HEADER_LEN) && Walk(m, HEADER_LEN, 0, 0).Some?
    ensures Walk(m, HEADER_LEN, 0, 0).value.end + 4 <= MAX_QUESTION_END
    ensures forall p | Touches(m, HEADER_LEN, 0, 0, p) :: HEADER_LEN <= p < Walk(m, HEADER_LEN, 0, 0).value.end
    ensures Expands(m, HEADER_LEN, x) && Jumps(x) == 0 && End(m, HEADER_LEN, x) == Walk(m, HEADER_LEN, 0, 0).value.end
  {
    x :| Expands(m, HEADER_LEN, x) && Jumps(x) == 0;
    UncompressedTouchesInline(m, HEADER_LEN, x, 0, 0);
    var y := WalkSound(m, HEADER_LEN, 0, 0);
    ExpansionUnique(m, HEADER_LEN, x, y);
  }

  lemma {:induction false} ExpansionUnique(m: Bytes, at: nat, x: Expansion, y: Expansion)
    requires Expands(m, at, x) && Expands(m, at, y)
    ensures x == y
    decreases x
  {
    match x
    case Root =>
    case Label(rest) => ExpansionUnique(m, at + 1 + m[at], rest, y.rest);
    case Pointer(to, rest) =>
      TargetIsPointedTo(m, at, to);
      TargetIsPointedTo(m, at, y.to);
      ExpansionUnique(m, to, rest, y.rest);
  }

  /** The question's walk stays inside the question: any pointer in it points into it. */
  ghost predicate SelfContained(m: Bytes) {
    Walk(m, HEADER_LEN, 0, 0).Some? &&
    forall p {:trigger Touches(m, HEADER_LEN, 0, 0, p)} | Touches(m, HEADER_LEN, 0, 0, p) ::
      HEADER_LEN <= p < Walk(m, HEADER_LEN, 0, 0).value.end
  }

  lemma UncompressedIsSelfContained(m: Bytes)
    requires Uncompressed(m, HEADER_LEN) && Walk(m, HEADER_LEN, 0, 0).Some?
    ensures SelfContained(m)
  {
    var _ := UncompressedQuestionIsShort(m);
  }

  lemma TruncatedQuestion(m: Bytes, limit: nat) returns (end: nat)
    requires |m| >= HEADER_LEN && |m| > limit && QdCount(m) == 1 && SelfContained(m)
    requires limit >= Walk(m, HEADER_LEN, 0, 0).value.end + 4
    ensures HEADER_LEN <= end && end + 4 <= |m| && Truncated(m, limit) == Emptied(m)[..end + 4]
    ensures Walk(m, HEADER_LEN, 0, 0).value.end == end
    ensures Walk(Emptied(m)[..end + 4], HEADER_LEN, 0, 0) == Walk(m, HEADER_LEN, 0, 0)
  {
    var e := Emptied(m);
    EmptiedFacts(m);
    WalkEndIsInline(m, HEADER_LEN, 0, 0);
    end := Walk(m, HEADER_LEN, 0, 0).value.end;
    WalkOnPrefix(m, e, HEADER_LEN, 0, 0);
    WalkOnPrefix(m, e[..end + 4], HEADER_LEN, 0, 0);
    OneQuestionEnds(e);
  }

  lemma OneQuestionEnds(m: Bytes)
    requires |m| >= HEADER_LEN && QdCount(m) == 1 && Walk(m, HEADER_LEN, 0, 0).Some?
    requires Walk(m, HEADER_LEN, 0, 0).value.end + 4 <= |m|
    ensures QuestionsEnd(m) == Some(Walk(m, HEADER_LEN, 0, 0).value.end + 4)
  {
    var end := Walk(m, HEADER_LEN, 0, 0).value.end;
    assert SkipQuestions(m, end + 4, 0) == Some(end + 4);
  }

  /** Validation looks at QR, opcode, QDCOUNT and the question only. */
  lemma ValidationSees(query: Bytes, a: Bytes, b: Bytes, end: nat)
    requires |a| >= HEADER_LEN && |b| >= HEADER_LEN && |query| >= HEADER_LEN && QdCount(query) == 1
    requires QrSet(a) == QrSet(b) && Opcode(a) == Opcode(b) && QdCount(a) == QdCount(b)
    requires Walk(a, HEADER_LEN, 0, 0).Some? && Walk(a, HEADER_LEN, 0, 0) == Walk(b, HEADER_LEN, 0, 0)
    requires end == Walk(a, HEADER_LEN, 0, 0).value.end && end + 4 <= |a| && end + 4 <= |b|
    requires a[end..end + 4] == b[end..end + 4]
    ensures ValidateResponse(query, a) == ValidateResponse(query, b)
  {
  }

  /** A validated one-question response whose question is self-contained and fits still validates once truncated. */
  lemma TruncatedStillValidates(query: Bytes, response: Bytes, limit: nat)
    requires ValidateResponse(query, response) == Accepted && QdCount(query) == 1
    requires |response| > limit ==> SelfContained(response) && Walk(response, HEADER_LEN, 0, 0).value.end + 4 <= limit
    ensures ValidateResponse(query, Truncated(response, limit)) == Accepted
    ensures |response| > limit ==> TcSet(Truncated(response, limit))
  {
    if |response| > limit {
      var end := TruncatedQuestion(response, limit);
      EmptiedFacts(response);
      var e := Emptied(response);
      PrefixKeepsHeader(e, end + 4);
      SameSlice(response, e, end);
      ValidationSees(query, response, e[..end + 4], end);
    }
  }

  lemma SameSlice(m: Bytes, e: Bytes, end: nat)
    requires HEADER_LEN <= end && end + 4 <= |m| == |e| && forall i | HEADER_LEN <= i < |m| :: e[i] == m[i]
    ensures e[..end + 4][end..end + 4] == m[end..end + 4]
  {
  }

  lemma PrefixKeepsHeader(m: Bytes, n: nat)
    requires HEADER_LEN <= n <= |m|
    ensures QrSet(m[..n]) == QrSet(m) && Opcode(m[..n]) == Opcode(m)
    ensures QdCount(m[..n]) == QdCount(m) && TcSet(m[..n]) == TcSet(m)
  {
  }

  // ---- Local replies -----------------------------------------------------------------------------

  /** `(octet & 0x79) | 0x80`: QR set, opcode and RD kept, AA and TC cleared. */
  function ReplyFlags(b: byte): byte {
    0x80 + b / 8 % 16 * 8 + b % 2
  }

  function Servfail(query: Bytes): Bytes {
    if |query| < HEADER_LEN then query else query[2 := ReplyFlags(query[2])][3 := 0x82]
  }

  function Formerr(query: Bytes): Bytes
    requires |query| >= HEADER_LEN
  {
    [query[0], query[1], ReplyFlags(query[2]), 0x81, 0, 0, 0, 0, 0, 0, 0, 0]
  }

  /** `query` has this opcode and this RD bit. */
  ghost predicate Asks(query: Bytes, opcode: nat, rd: nat) {
    |query| >= HEADER_LEN && opcode < 16 && rd < 2 &&
    exists qr: nat, mid: nat :: qr < 2 && mid < 4 && query[2] == 128 * qr + 8 * opcode + 2 * mid + rd
  }

  /**
   * A local reply sets QR and RA, keeps opcode and RD, clears AA and TC, and repeats the query or stops after the
   * header.
   */
  lemma LocalRepliesExactly(query: Bytes, opcode: nat, rd: nat)
    requires Asks(query, opcode, rd)
    ensures Servfail(query) == query[..2] + [128 + 8 * opcode + rd, 128 + 2] + query[4..]
    ensures Formerr(query) == query[..2] + [128 + 8 * opcode + rd, 128 + 1] + [0, 0, 0, 0, 0, 0, 0, 0]
  {
    var qr: nat, mid: nat :| qr < 2 && mid < 4 && query[2] == 128 * qr + 8 * opcode + 2 * mid + rd;
    ReplyFlagsExactly(query[2], qr, opcode, mid, rd);
  }

  lemma ReplyFlagsExactly(b: byte, qr: nat, opcode: nat, mid: nat, rd: nat)
    requires qr < 2 && opcode < 16 && mid < 4 && rd < 2 && b == 128 * qr + 8 * opcode + 2 * mid + rd
    ensures ReplyFlags(b) == 128 + 8 * opcode + rd
  {
    assert b / 8 == 16 * qr + opcode;
  }

  /** The question's walk reads neither of the two flag octets. */
  ghost predicate FlagsUnread(m: Bytes) {
    !Touches(m, HEADER_LEN, 0, 0, 2) && !Touches(m, HEADER_LEN, 0, 0, 3)
  }

  lemma ServfailWalks(query: Bytes)
    requires |query| >= HEADER_LEN && FlagsUnread(query) && Walk(query, HEADER_LEN, 0, 0).Some?
    ensures Walk(Servfail(query), HEADER_LEN, 0, 0) == Walk(query, HEADER_LEN, 0, 0)
    ensures SelfContained(query) ==> SelfContained(Servfail(query))
  {
    WalkReadsOnlyTouched(query, Servfail(query), HEADER_LEN, 0, 0);
  }

  /** The header-echo SERVFAIL answers its own well-formed query and can never enter the cache. */
  lemma ServfailAnswersItsQuery(query: Bytes, queryType: u16)
    requires |query| >= HEADER_LEN
    requires QdCount(query) == 1 ==> FlagsUnread(query) && SameQuestion(query, query).Some?
    ensures ValidateResponse(query, Servfail(query)) == Accepted
    ensures CacheTtl(Servfail(query), queryType).None? && Rcode(Servfail(query)) == 2
  {
    var s := Servfail(query);
    assert QrSet(s) && Opcode(s) == Opcode(query) && QdCount(s) == QdCount(query);
    if QdCount(query) == 1 {
      ServfailWalks(query);
      WalkEndIsInline(query, HEADER_LEN, 0, 0);
      var end := Walk(query, HEADER_LEN, 0, 0).value.end;
      assert s[end..end + 4] == query[end..end + 4];
    }
  }
}
