/** Question comparison and response validation (section 4.2 of RFC 5452, section 3 of RFC 4343). */
module Questions {
  import opened Prelude
  import opened Names

  /** QR is the top bit of the third octet; opcode the four bits below it; TC bit 1. */
  predicate QrSet(m: Bytes) requires |m| >= HEADER_LEN { m[2] >= 0x80 }

  predicate TcSet(m: Bytes) requires |m| >= HEADER_LEN { m[2] / 2 % 2 == 1 }

  function Opcode(m: Bytes): nat requires |m| >= HEADER_LEN { m[2] / 8 % 16 }

  function Rcode(m: Bytes): nat requires |m| >= HEADER_LEN { m[3] % 16 }

  function QdCount(m: Bytes): u16 requires |m| >= HEADER_LEN { ReadU16(m, 4).value }

  /** The flag octets of section 4.1.1 of RFC 1035, put together from their fields. */
  ghost predicate HasFlags(m: Bytes, qr: nat, opcode: nat, tc: nat, rd: nat, rcode: nat)
    requires |m| >= HEADER_LEN
  {
    qr < 2 && opcode < 16 && tc < 2 && rd < 2 && rcode < 16 &&
    exists aa: nat, high: nat :: aa < 2 && high < 16
      && m[2] == 128 * qr + 8 * opcode + 4 * aa + 2 * tc + rd && m[3] == 16 * high + rcode
  }

  lemma FlagsAreRead(m: Bytes, qr: nat, opcode: nat, tc: nat, rd: nat, rcode: nat)
    requires |m| >= HEADER_LEN && HasFlags(m, qr, opcode, tc, rd, rcode)
    ensures (QrSet(m) <==> qr == 1) && Opcode(m) == opcode && (TcSet(m) <==> tc == 1) && Rcode(m) == rcode
  {
  }

  /** QTYPE and QCLASS as raw octets. */
  function Fields(m: Bytes, end: nat): Option<Bytes> {
    if end + 4 <= |m| then Some(m[end..end + 4]) else None
  }

  /** The allocation-based comparison: decode both names, then compare canonical forms and fields. */
  function SameQuestion(query: Bytes, response: Bytes): Option<bool> {
    match (NameAt(query, HEADER_LEN), NameAt(response, HEADER_LEN))
    case (Some(sent), Some(echoed)) =>
      (match (Fields(query, sent.end), Fields(response, echoed.end))
       case (Some(f), Some(g)) => Some(sent.name == echoed.name && f == g)
       case _ => None)
    case _ => None
  }

  predicate EqIgnoreCase(a: Bytes, b: Bytes) {
    Fold(a) == Fold(b)
  }

  /** Compare expanded QNAME/QTYPE/QCLASS through one 255-octet buffer, no canonical copies. */
  method QuestionsMatch(query: Bytes, response: Bytes) returns (r: Option<bool>)
    ensures r == SameQuestion(query, response)
  {
    var queryEnd, sentLabels := WalkName(query, HEADER_LEN);
    if queryEnd.None? {
      return None;
    }
    WalkFitsBuffer(query, HEADER_LEN);
    var name := new byte[MAX_NAME];
    var nameLen := CopyLabels(sentLabels, name);
    var sentFields := Fields(query, queryEnd.value);
    if sentFields.None? {
      return None;
    }

    var responseEnd, echoedLabels := WalkName(response, HEADER_LEN);
    if responseEnd.None? {
      return None;
    }
    var matches, echoedLen := CompareLabels(name, nameLen, echoedLabels);
    var echoedFields := Fields(response, responseEnd.value);
    if echoedFields.None? {
      return None;
    }
    return Some(matches && nameLen == echoedLen && sentFields == echoedFields);
  }

  /** The response's visitor: compare each label with the next octets of the kept name. */
  method CompareLabels(name: array<byte>, nameLen: nat, labels: seq<Bytes>) returns (matches: bool, echoedLen: nat)
    requires nameLen <= name.Length
    ensures echoedLen == |Flatten(labels)|
    ensures matches && nameLen == echoedLen <==> Fold(name[..nameLen]) == Fold(Flatten(labels))
  {
    ghost var sent := name[..nameLen];
    echoedLen, matches := 0, true;
    for k := 0 to |labels|
      invariant echoedLen == |Flatten(labels[..k])|
      invariant matches <==> echoedLen <= nameLen && Fold(sent[..echoedLen]) == Fold(Flatten(labels[..k]))
    {
      var part := labels[k];
      FlattenPrefix(labels, k);
      PrefixStep(sent, Flatten(labels[..k]), part);
      assert |Flatten(labels[..k + 1])| == echoedLen + |part|;
      assert echoedLen + |part| <= nameLen ==>
               name[echoedLen..echoedLen + |part|] == sent[echoedLen..echoedLen + |part|];
      matches := matches && echoedLen + |part| <= nameLen
                 && EqIgnoreCase(name[echoedLen..echoedLen + |part|], part);
      echoedLen := echoedLen + |part|;
    }
    assert labels[..|labels|] == labels;
    assert sent[..nameLen] == sent;
  }

  lemma PrefixStep(sent: Bytes, done: Bytes, part: Bytes)
    ensures |done| + |part| <= |sent| ==>
              (Fold(sent[..|done| + |part|]) == Fold(done + part) <==>
               Fold(sent[..|done|]) == Fold(done) && Fold(sent[|done|..|done| + |part|]) == Fold(part))
  {
    if |done| + |part| <= |sent| {
      var a, b := sent[..|done|], sent[|done|..|done| + |part|];
      assert sent[..|done| + |part|] == a + b;
      FoldConcat(a, b);
      FoldConcat(done, part);
      if Fold(a + b) == Fold(done + part) {
        assert Fold(a) == Fold(a + b)[..|done|];
        assert Fold(done) == Fold(done + part)[..|done|];
        assert Fold(b) == Fold(a + b)[|done|..];
        assert Fold(part) == Fold(done + part)[|done|..];
      }
    }
  }

  datatype ValidationError = TooShort | NotAResponse | OpcodeMismatch | QdCountMismatch | QuestionMismatch

  datatype Verdict = Accepted | Rejected(why: ValidationError)

  /** Does `response` answer the outstanding `query`? IDs are not compared. */
  function ValidateResponse(query: Bytes, response: Bytes): Verdict {
    if |query| < HEADER_LEN || |response| < HEADER_LEN then Rejected(TooShort)
    else if !QrSet(response) then Rejected(NotAResponse)
    else if Opcode(query) != Opcode(response) then Rejected(OpcodeMismatch)
    else if QdCount(response) != QdCount(query) then Rejected(QdCountMismatch)
    else if QdCount(query) != 1 then Accepted
    else if SameQuestion(query, response) == Some(true) then Accepted
    else Rejected(QuestionMismatch)
  }

  ghost predicate IsQuestion(m: Bytes, labels: seq<Bytes>, end: nat) {
    Walk(m, HEADER_LEN, 0, 0) == Some(Walked(labels, end)) && end + 4 <= |m|
  }

  /** Both messages ask one question, label for label up to ASCII case, with equal QTYPE and QCLASS. */
  ghost predicate AskAlike(query: Bytes, response: Bytes) {
    exists sent, sentEnd: nat, echoed, echoedEnd: nat ::
      IsQuestion(query, sent, sentEnd) && IsQuestion(response, echoed, echoedEnd) && SameLabelsUpToCase(sent, echoed)
      && query[sentEnd..sentEnd + 4] == response[echoedEnd..echoedEnd + 4]
  }

  lemma SameQuestionIsAskAlike(query: Bytes, response: Bytes)
    ensures SameQuestion(query, response) == Some(true) <==> AskAlike(query, response)
  {
    var q, r := Walk(query, HEADER_LEN, 0, 0), Walk(response, HEADER_LEN, 0, 0);
    if q.Some? && r.Some? {
      WalkIsFramed(query, HEADER_LEN, 0, 0);
      WalkIsFramed(response, HEADER_LEN, 0, 0);
      CanonicalNamesDecideLabels(q.value.labels, r.value.labels);
      if SameQuestion(query, response) == Some(true) {
        assert IsQuestion(query, q.value.labels, q.value.end) && IsQuestion(response, r.value.labels, r.value.end);
      }
    }
  }

  /** A one-question response is accepted exactly when it is a response of that opcode repeating the question. */
  lemma AcceptedIffSameLabels(query: Bytes, response: Bytes)
    requires |query| >= HEADER_LEN && |response| >= HEADER_LEN && QdCount(query) == 1
    ensures ValidateResponse(query, response) == Accepted <==>
            response[2] >= 0x80 && query[2] / 8 % 16 == response[2] / 8 % 16
            && response[4] == 0 && response[5] == 1 && AskAlike(query, response)
  {
    SameQuestionIsAskAlike(query, response);
    U16Octets(response, 4, 1);
  }

  /** A QUERY, not a response, of opcode 0 with a QDCOUNT above one. */
  lemma MultiQuestionExactly(m: Bytes)
    ensures IsMultiQuestionQuery(m) <==> |m| >= HEADER_LEN && m[2] < 8 && Pair(m, 4) > 1
  {
    PairIsField(m, 4);
  }

  /** True for a client QUERY carrying more than one question. */
  predicate IsMultiQuestionQuery(m: Bytes) {
    |m| >= HEADER_LEN && !QrSet(m) && Opcode(m) == 0 && QdCount(m) > 1
  }

  // ---- Skipping the question section ---------------------------------------------------------

  function SkipQuestions(m: Bytes, offset: nat, count: nat): Option<nat>
    decreases count
  {
    if count == 0 then Some(offset)
    else
      match Walk(m, offset, 0, 0)
      case None => None
      case Some(w) => if w.end + 4 > |m| then None else SkipQuestions(m, w.end + 4, count - 1)
  }

  function QuestionsEnd(m: Bytes): Option<nat> {
    match ReadU16(m, 4)
    case None => None
    case Some(count) => SkipQuestions(m, HEADER_LEN, count)
  }

  /** A question from `at` to `end`: a name and four octets. */
  ghost predicate SpansQuestion(m: Bytes, at: nat, end: nat) {
    Walk(m, at, 0, 0).Some? && end == Walk(m, at, 0, 0).value.end + 4 && end <= |m|
  }

  /** Consecutive questions from the end of the header, as many as QDCOUNT says. */
  ghost predicate SpansQuestions(m: Bytes, ends: seq<nat>, at: nat, count: nat) {
    |ends| == count + 1 && ends[0] == at && forall k | 0 <= k < count :: SpansQuestion(m, ends[k], ends[k + 1])
  }

  lemma {:induction false} SpansAreSkipped(m: Bytes, ends: seq<nat>, at: nat, count: nat)
    requires SpansQuestions(m, ends, at, count)
    ensures SkipQuestions(m, at, count) == Some(ends[count])
    decreases count
  {
    if count > 0 {
      assert SpansQuestion(m, ends[0], ends[1]);
      forall k | 0 <= k < count - 1 ensures SpansQuestion(m, ends[1..][k], ends[1..][k + 1]) {
        assert SpansQuestion(m, ends[k + 1], ends[k + 2]);
      }
      SpansAreSkipped(m, ends[1..], ends[1], count - 1);
    }
  }

  lemma {:induction false} SkippedAreSpans(m: Bytes, at: nat, count: nat) returns (ends: seq<nat>)
    requires SkipQuestions(m, at, count).Some?
    ensures SpansQuestions(m, ends, at, count) && SkipQuestions(m, at, count) == Some(ends[count])
    decreases count
  {
    if count == 0 {
      ends := [at];
    } else {
      var next := Walk(m, at, 0, 0).value.end + 4;
      var rest := SkippedAreSpans(m, next, count - 1);
      ends := [at] + rest;
      forall k | 0 <= k < count ensures SpansQuestion(m, ends[k], ends[k + 1]) {
        if k > 0 {
          assert SpansQuestion(m, rest[k - 1], rest[k]);
        }
      }
    }
  }

  /** The question section ends where the last of as many questions as QDCOUNT says ends, if all of them fit. */
  lemma QuestionsEndExactly(m: Bytes, end: nat)
    requires |m| >= HEADER_LEN
    ensures QuestionsEnd(m) == Some(end) <==>
            exists ends :: SpansQuestions(m, ends, 12, Pair(m, 4)) && ends[Pair(m, 4)] == end
  {
    PairIsField(m, 4);
    if QuestionsEnd(m) == Some(end) {
      var ends := SkippedAreSpans(m, HEADER_LEN, Pair(m, 4));
    }
    forall ends | SpansQuestions(m, ends, 12, Pair(m, 4)) ensures QuestionsEnd(m) == Some(ends[Pair(m, 4)]) {
      SpansAreSkipped(m, ends, 12, Pair(m, 4));
    }
  }

  method FindQuestionsEnd(m: Bytes) returns (r: Option<nat>)
    ensures r == QuestionsEnd(m)
  {
    var offset: nat := HEADER_LEN;
    var count := ReadU16(m, 4);
    if count.None? {
      return None;
    }
    for i := 0 to count.value
      invariant QuestionsEnd(m) == SkipQuestions(m, offset, count.value - i)
    {
      var end, _ := WalkName(m, offset);
      if end.None? || end.value + 4 > |m| {
        return None;
      }
      offset := end.value + 4;
    }
    return Some(offset);
  }

  /** Ghost view: the offset where each question's name starts. */
  ghost function QuestionStarts(m: Bytes, offset: nat, count: nat): seq<nat>
    decreases count
  {
    if count == 0 || Walk(m, offset, 0, 0).None? then []
    else [offset] + QuestionStarts(m, Walk(m, offset, 0, 0).value.end + 4, count - 1)
  }

  lemma {:induction false} SkipQuestionsBounds(m: Bytes, offset: nat, count: nat)
    requires SkipQuestions(m, offset, count).Some? && offset <= |m|
    ensures offset <= SkipQuestions(m, offset, count).value <= |m|
    decreases count
  {
    if count > 0 {
      WalkEndIsInline(m, offset, 0, 0);
      SkipQuestionsBounds(m, Walk(m, offset, 0, 0).value.end + 4, count - 1);
    }
  }
}
