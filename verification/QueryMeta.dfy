/** Cache keys and advertised UDP sizes, read from client queries. */
module QueryMetadata {
  import opened Prelude
  import opened Names
  import opened Questions
  import opened Records

  datatype QueryKey = QueryKey(qname: Bytes, qtype: u16, qclass: u16, doBit: bool, edns: bool, dnssecHeaderBits: nat)

  datatype QueryMeta = QueryMeta(key: QueryKey, udpSize: nat)

  const MIN_UDP: nat := 512
  const MAX_UDP: nat := 4096

  function Clamp(size: nat): nat {
    if size < MIN_UDP then MIN_UDP else if size > MAX_UDP then MAX_UDP else size
  }

  /** The end of `count` records from `offset`, each owner name walked. */
  function SkipRecords(m: Bytes, offset: nat, count: nat): Option<nat>
    decreases count
  {
    if count == 0 then Some(offset)
    else
      match ParseRR(m, offset)
      case None => None
      case Some(rr) => SkipRecords(m, rr.end, count - 1)
  }

  method FindRecordsEnd(m: Bytes, start: nat, count: nat) returns (r: Option<nat>)
    ensures r == SkipRecords(m, start, count)
  {
    var offset := start;
    for i := 0 to count
      invariant SkipRecords(m, start, count) == SkipRecords(m, offset, count - i)
    {
      var rr := ParseRR(m, offset);
      if rr.None? {
        return None;
      }
      offset := rr.value.end;
    }
    return Some(offset);
  }

  /** What the additional section has told so far. */
  datatype Edns = Edns(offset: nat, sawOpt: bool, udpSize: nat, doBit: bool)

  /** One additional record: only a first, option-free, version-0 OPT is accepted. */
  function TakeOpt(m: Bytes, e: Edns): Option<Edns> {
    match ParseRR(m, e.offset)
    case None => None
    case Some(rr) =>
      if rr.kind != TYPE_OPT || e.sawOpt || rr.rdlen != 0 || rr.ttl / 0x1_0000 % 0x100 != 0 then None
      else Some(Edns(rr.end, true, Clamp(rr.class_), rr.ttl / 0x8000 % 2 == 1))
  }

  function TakeOpts(m: Bytes, e: Edns, count: nat): Option<Edns>
    decreases count
  {
    if count == 0 then Some(e)
    else
      match TakeOpt(m, e)
      case None => None
      case Some(next) => TakeOpts(m, next, count - 1)
  }

  /** A conventional recursive QUERY header with one question. */
  predicate CacheableHeader(m: Bytes) {
    |m| >= HEADER_LEN && !QrSet(m) && Opcode(m) == 0 && m[2] % 2 == 1 && QdCount(m) == 1
  }

  function AnswerAndAuthorityCount(m: Bytes): nat
    requires |m| >= HEADER_LEN
  {
    ReadU16(m, 6).value + ReadU16(m, 8).value
  }

  function AdditionalCount(m: Bytes): nat
    requires |m| >= HEADER_LEN
  {
    ReadU16(m, 10).value
  }

  function FreshEdns(offset: nat): Edns {
    Edns(offset, false, MIN_UDP, false)
  }

  function KeyOf(m: Bytes, question: Decoded, e: Edns): QueryKey
    requires |m| >= HEADER_LEN && question.end + 4 <= |m|
  {
    QueryKey(question.name, ReadU16(m, question.end).value, ReadU16(m, question.end + 2).value,
             e.doBit, e.sawOpt, m[3] / 16 % 4 * 16)
  }

  /** Cache metadata, or None when the query must bypass the cache. */
  function QueryMetaOf(m: Bytes): Option<QueryMeta> {
    if !CacheableHeader(m) then None
    else
      match NameAt(m, HEADER_LEN)
      case None => None
      case Some(question) =>
        if question.end + 4 > |m| then None
        else
          match SkipRecords(m, question.end + 4, AnswerAndAuthorityCount(m))
          case None => None
          case Some(offset) =>
            (match TakeOpts(m, FreshEdns(offset), AdditionalCount(m))
             case None => None
             case Some(e) =>
               if e.offset != |m| then None else Some(QueryMeta(KeyOf(m, question, e), e.udpSize)))
  }

  method ParseQueryMeta(m: Bytes) returns (r: Option<QueryMeta>)
    ensures r == QueryMetaOf(m)
  {
    if !CacheableHeader(m) {
      return None;
    }
    var question := ReadName(m, HEADER_LEN);
    if question.None? || question.value.end + 4 > |m| {
      return None;
    }
    var offset := FindRecordsEnd(m, question.value.end + 4, AnswerAndAuthorityCount(m));
    if offset.None? {
      return None;
    }
    var opts := ScanAdditionals(m, FreshEdns(offset.value), AdditionalCount(m));
    if opts.None? || opts.value.offset != |m| {
      return None;
    }
    return Some(QueryMeta(KeyOf(m, question.value, opts.value), opts.value.udpSize));
  }

  method ScanAdditionals(m: Bytes, start: Edns, count: nat) returns (r: Option<Edns>)
    ensures r == TakeOpts(m, start, count)
  {
    var e := start;
    for i := 0 to count
      invariant TakeOpts(m, start, count) == TakeOpts(m, e, count - i)
    {
      var next := TakeOpt(m, e);
      if next.None? {
        return None;
      }
      e := next.value;
    }
    return Some(e);
  }

  // ---- The size of a query that may bypass the cache -----------------------------------------

  /** The first OPT's clamped class, 512 when there is none or a record is malformed first. */
  function FirstOptSize(m: Bytes, offset: nat, count: nat): nat
    decreases count
  {
    if count == 0 then MIN_UDP
    else
      match ParseRR(m, offset)
      case None => MIN_UDP
      case Some(rr) => if rr.kind == TYPE_OPT then Clamp(rr.class_) else FirstOptSize(m, rr.end, count - 1)
  }

  function UdpPayloadSize(m: Bytes): nat {
    match QuestionsEnd(m)
    case None => MIN_UDP
    case Some(start) =>
      if |m| < HEADER_LEN then MIN_UDP
      else
        match SkipRecords(m, start, AnswerAndAuthorityCount(m))
        case None => MIN_UDP
        case Some(offset) => FirstOptSize(m, offset, AdditionalCount(m))
  }

  method FindFirstOpt(m: Bytes, start: nat, count: nat) returns (size: nat)
    ensures size == FirstOptSize(m, start, count)
  {
    var offset, left := start, count;
    while left > 0
      invariant FirstOptSize(m, start, count) == FirstOptSize(m, offset, left)
    {
      var rr := ParseRR(m, offset);
      if rr.None? {
        return MIN_UDP;
      }
      if rr.value.kind == TYPE_OPT {
        return Clamp(rr.value.class_);
      }
      offset, left := rr.value.end, left - 1;
    }
    return MIN_UDP;
  }

  method FindUdpPayloadSize(m: Bytes) returns (size: nat)
    ensures size == UdpPayloadSize(m)
  {
    var start := FindQuestionsEnd(m);
    if start.None? || |m| < HEADER_LEN {
      return MIN_UDP;
    }
    var skipped := FindRecordsEnd(m, start.value, AnswerAndAuthorityCount(m));
    if skipped.None? {
      return MIN_UDP;
    }
    size := FindFirstOpt(m, skipped.value, AdditionalCount(m));
  }

  lemma TakeOptsAtMostOnce(m: Bytes, e: Edns, count: nat)
    requires TakeOpts(m, e, count).Some?
    ensures count <= if e.sawOpt then 0 else 1
  {
    if count > 0 {
      var next := TakeOpt(m, e).value;
      assert TakeOpts(m, next, count - 1).Some? && next.sawOpt;
    }
  }

  /** For every query with cache metadata both ways of finding the UDP limit agree. */
  lemma SizesAgree(m: Bytes)
    requires QueryMetaOf(m).Some?
    ensures QueryMetaOf(m).value.udpSize == UdpPayloadSize(m)
    ensures MIN_UDP <= UdpPayloadSize(m) <= MAX_UDP
  {
    var question := NameAt(m, HEADER_LEN).value;
    assert SkipQuestions(m, question.end + 4, 0) == Some(question.end + 4);
    var offset := SkipRecords(m, question.end + 4, AnswerAndAuthorityCount(m)).value;
    TakeOptsAtMostOnce(m, FreshEdns(offset), AdditionalCount(m));
    if AdditionalCount(m) == 1 {
      var e := TakeOpt(m, FreshEdns(offset)).value;
      assert TakeOpts(m, e, 0) == Some(e);
    }
  }

  // ---- Equal keys ask the same question ---------------------------------------------------------

  lemma SameFieldsSameOctets(a: Bytes, i: nat, b: Bytes, j: nat)
    requires i + 4 <= |a| && j + 4 <= |b|
    requires ReadU16(a, i) == ReadU16(b, j) && ReadU16(a, i + 2) == ReadU16(b, j + 2)
    ensures a[i..i + 4] == b[j..j + 4]
  {
    assert a[i] == b[j] && a[i + 1] == b[j + 1] && a[i + 2] == b[j + 2] && a[i + 3] == b[j + 3];
  }

  /** Two queries with one cache key judge every response alike, error for error. */
  lemma EqualKeysValidateAlike(a: Bytes, b: Bytes, response: Bytes)
    requires QueryMetaOf(a).Some? && QueryMetaOf(b).Some? && QueryMetaOf(a).value.key == QueryMetaOf(b).value.key
    ensures ValidateResponse(a, response) == ValidateResponse(b, response)
  {
    var qa, qb := NameAt(a, HEADER_LEN).value, NameAt(b, HEADER_LEN).value;
    SameFieldsSameOctets(a, qa.end, b, qb.end);
  }
}
