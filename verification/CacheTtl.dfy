/** How long a response may be cached (section 5 of RFC 2308 for negative answers). */
module CacheTtls {
  import opened Prelude
  import opened Names
  import opened Questions
  import opened Records
  import opened Ageing

  const MAX_POSITIVE: u32 := 86_400
  const MAX_NEGATIVE: u32 := 600

  /** The first `count` records from `start`, each owner name walked. */
  function ParsePrefix(m: Bytes, start: nat, count: nat): Option<seq<Record>> {
    if count == 0 then Some([])
    else
      match ParsePrefix(m, start, count - 1)
      case None => None
      case Some(records) =>
        (match ParseRR(m, LayoutEnd(start, records))
         case None => None
         case Some(rr) => Some(records + [rr]))
  }

  lemma {:induction false} ParsePrefixMonotone(m: Bytes, start: nat, k: nat, n: nat)
    requires k <= n && ParsePrefix(m, start, n).Some?
    ensures ParsePrefix(m, start, k).Some? && |ParsePrefix(m, start, n).value| == n
    ensures |ParsePrefix(m, start, k).value| == k
    ensures ParsePrefix(m, start, k).value == ParsePrefix(m, start, n).value[..k]
    decreases n
  {
    if n > 0 {
      var before := ParsePrefix(m, start, n - 1).value;
      ParsePrefixMonotone(m, start, n - 1, n - 1);
      assert ParsePrefix(m, start, n).value[..n - 1] == before;
      if k < n {
        ParsePrefixMonotone(m, start, k, n - 1);
        assert ParsePrefix(m, start, n).value[..k] == before[..k];
      }
    }
  }

  lemma ParsePrefixParses(m: Bytes, start: nat, n: nat, k: nat)
    requires k < n && ParsePrefix(m, start, n).Some?
    ensures k < |ParsePrefix(m, start, n).value|
    ensures ParseRR(m, StartOf(start, ParsePrefix(m, start, n).value, k)) == Some(ParsePrefix(m, start, n).value[k])
  {
    ParsePrefixMonotone(m, start, k, n);
    ParsePrefixMonotone(m, start, k + 1, n);
  }

  // ---- The minima -----------------------------------------------------------------------------

  function Tightest(floor: Option<u32>, ttl: u32): Option<u32> {
    match floor
    case None => Some(ttl)
    case Some(t) => Some(Min(t, ttl))
  }

  function MinTtl(records: seq<Record>): Option<u32> {
    if records == [] then None
    else Tightest(MinTtl(records[..|records| - 1]), records[|records| - 1].ttl)
  }

  /** MINIMUM: the last of the five 32-bit fields after the SOA's two names. */
  function SoaMinimum(m: Bytes, rr: Record): Option<u32> {
    match Walk(m, rr.rdataOffset, 0, 0)
    case None => None
    case Some(mname) =>
      if mname.end > rr.rdataOffset + rr.rdlen then None
      else
        match Walk(m, mname.end, 0, 0)
        case None => None
        case Some(rname) =>
          if rname.end + 20 > rr.rdataOffset + rr.rdlen then None else ReadU32(m, rname.end + 16)
  }

  predicate SoaReads(m: Bytes, rr: Record) {
    rr.kind == TYPE_SOA ==> SoaMinimum(m, rr).Some?
  }

  /** The smallest min(TTL, MINIMUM) over the SOA records of `authority`. */
  function SoaFloor(m: Bytes, authority: seq<Record>): Option<u32>
    requires forall k | 0 <= k < |authority| :: SoaReads(m, authority[k])
  {
    if authority == [] then None
    else
      var last := authority[|authority| - 1];
      var before := SoaFloor(m, authority[..|authority| - 1]);
      assert SoaReads(m, last);
      if last.kind == TYPE_SOA then Tightest(before, Min(last.ttl, SoaMinimum(m, last).value)) else before
  }

  function Answers(m: Bytes): nat requires |m| >= HEADER_LEN { ReadU16(m, 6).value }

  function Authorities(m: Bytes): nat requires |m| >= HEADER_LEN { ReadU16(m, 8).value }

  predicate Contains(records: seq<Record>, kind: u16) {
    exists k :: 0 <= k < |records| && records[k].kind == kind
  }

  predicate SuccessfulResponse(m: Bytes) {
    |m| >= HEADER_LEN && QrSet(m) && !TcSet(m) && (Rcode(m) == 0 || Rcode(m) == 3)
  }

  /** NXDOMAIN, or NOERROR with a SOA and no record of the queried type. */
  predicate IsNegative(m: Bytes, answers: seq<Record>, soa: Option<u32>, queryType: u16)
    requires |m| >= HEADER_LEN
  {
    Rcode(m) == 3 || (Rcode(m) == 0 && soa.Some? && !Contains(answers, queryType))
  }

  function Positive(limit: u32, ttl: Option<u32>): Option<u32> {
    if ttl.Some? && ttl.value > 0 then Some(Min(ttl.value, limit)) else None
  }

  function Decide(negative: bool, soa: Option<u32>, hasCname: bool, positive: Option<u32>): Option<u32> {
    if !negative then Positive(MAX_POSITIVE, positive)
    else if soa.None? then None
    else if !hasCname then Positive(MAX_NEGATIVE, soa)
    else if positive.None? then None
    else Positive(MAX_NEGATIVE, Some(Min(soa.value, positive.value)))
  }

  /** The records of a response worth caching: parsed to the last octet, every authority SOA readable. */
  function CacheableRecords(m: Bytes): Option<seq<Record>>
    requires |m| >= HEADER_LEN
  {
    match QuestionsEnd(m)
    case None => None
    case Some(start) =>
      (match ParsePrefix(m, start, TotalCount(m))
       case None => None
       case Some(records) =>
         if LayoutEnd(start, records) == |m| && SoasRead(m, records) then Some(records) else None)
  }

  predicate SoasRead(m: Bytes, records: seq<Record>)
    requires |m| >= HEADER_LEN
  {
    forall k | Answers(m) <= k < Answers(m) + Authorities(m) && k < |records| :: SoaReads(m, records[k])
  }

  function CacheTtl(m: Bytes, queryType: u16): Option<u32> {
    if !SuccessfulResponse(m) || CacheableRecords(m).None? then None
    else
      var records := CacheableRecords(m).value;
      RecordsCounted(m);
      var an, ns := Answers(m), Authorities(m);
      var soa := SoaFloor(m, records[an..an + ns]);
      Decide(IsNegative(m, records[..an], soa, queryType), soa, Contains(records[..an], TYPE_CNAME),
             MinTtl(records[..an + ns]))
  }

  lemma RecordsCounted(m: Bytes)
    requires |m| >= HEADER_LEN && CacheableRecords(m).Some?
    ensures |CacheableRecords(m).value| == TotalCount(m) >= Answers(m) + Authorities(m)
  {
    ParsePrefixMonotone(m, QuestionsEnd(m).value, 0, TotalCount(m));
  }

  lemma TtlDecided(m: Bytes, queryType: u16, records: seq<Record>, authority: seq<Record>, an: nat, ns: nat)
    requires |m| >= HEADER_LEN && CacheableRecords(m) == Some(records) && an == Answers(m) && ns == Authorities(m)
    requires |records| >= an + ns && authority == records[an..an + ns]
    requires forall k | 0 <= k < |authority| :: SoaReads(m, authority[k])
    ensures CacheTtl(m, queryType)
            == if !SuccessfulResponse(m) then None
               else Chosen(Rcode(m), records[..an], SoaFloor(m, authority), records[..an + ns], queryType)
  {
  }

  /** The lifetime chosen from what the header and the records say. */
  ghost function Chosen(rcode: nat, answers: seq<Record>, soa: Option<u32>, both: seq<Record>, queryType: u16)
    : Option<u32>
  {
    Decide(rcode == 3 || (rcode == 0 && soa.Some? && !Contains(answers, queryType)), soa,
           Contains(answers, TYPE_CNAME), MinTtl(both))
  }

  lemma DecidedFrom(m: Bytes, queryType: u16, records: seq<Record>, authority: seq<Record>, an: nat, ns: nat,
                    rcode: nat, soa: Option<u32>)
    requires |m| >= HEADER_LEN && SuccessfulResponse(m) && CacheableRecords(m) == Some(records)
    requires an == Answers(m) && ns == Authorities(m) && rcode == Rcode(m)
    requires |records| >= an + ns && authority == records[an..an + ns]
    requires (forall k | 0 <= k < |authority| :: SoaReads(m, authority[k])) && soa == SoaFloor(m, authority)
    ensures CacheTtl(m, queryType) == Chosen(rcode, records[..an], soa, records[..an + ns], queryType)
  {
    TtlDecided(m, queryType, records, authority, an, ns);
  }

  // ---- The loop ----------------------------------------------------------------------------------

  /** What the loop has gathered over the first records. */
  datatype Tally = Tally(positive: Option<u32>, soa: Option<u32>, requested: bool, cname: bool)

  ghost predicate Tallies(m: Bytes, records: seq<Record>, queryType: u16, t: Tally)
    requires |m| >= HEADER_LEN
  {
    var an, ns := Answers(m), Authorities(m);
    var answers := records[..Min(an, |records|)];
    var both := records[..Min(an + ns, |records|)];
    SoasRead(m, records)
    && t.positive == MinTtl(both)
    && t.soa == SoaFloor(m, both[|answers|..])
    && t.requested == Contains(answers, queryType) && t.cname == Contains(answers, TYPE_CNAME)
  }

  lemma ContainsSnoc(records: seq<Record>, rr: Record, kind: u16)
    ensures Contains(records + [rr], kind) <==> Contains(records, kind) || rr.kind == kind
  {
    var all := records + [rr];
    assert all[|records|] == rr;
    if Contains(records, kind) {
      var k :| 0 <= k < |records| && records[k].kind == kind;
      assert all[k].kind == kind;
    }
  }

  /** Add record number |records| to the tally, as one turn of the loop does. */
  function Count(m: Bytes, index: nat, rr: Record, queryType: u16, t: Tally): Tally
    requires |m| >= HEADER_LEN
    requires Answers(m) <= index < Answers(m) + Authorities(m) ==> SoaReads(m, rr)
  {
    var inAnswer := index < Answers(m);
    var inAuthority := Answers(m) <= index < Answers(m) + Authorities(m);
    Tally(if inAnswer || inAuthority then Tightest(t.positive, rr.ttl) else t.positive,
          if inAuthority && rr.kind == TYPE_SOA then Tightest(t.soa, Min(rr.ttl, SoaMinimum(m, rr).value)) else t.soa,
          t.requested || (inAnswer && rr.kind == queryType),
          t.cname || (inAnswer && rr.kind == TYPE_CNAME))
  }

  lemma CountKeepsTally(m: Bytes, records: seq<Record>, rr: Record, queryType: u16, t: Tally)
    requires |m| >= HEADER_LEN && Tallies(m, records, queryType, t)
    requires Answers(m) <= |records| < Answers(m) + Authorities(m) ==> SoaReads(m, rr)
    ensures Tallies(m, records + [rr], queryType, Count(m, |records|, rr, queryType, t))
  {
    var an, ns := Answers(m), Authorities(m);
    var all := records + [rr];
    if |records| < an {
      assert all[..Min(an, |all|)] == records[..Min(an, |records|)] + [rr];
      assert all[..Min(an + ns, |all|)] == records[..Min(an + ns, |records|)] + [rr];
      ContainsSnoc(records[..Min(an, |records|)], rr, queryType);
      ContainsSnoc(records[..Min(an, |records|)], rr, TYPE_CNAME);
    } else if |records| < an + ns {
      assert all[..Min(an, |all|)] == records[..Min(an, |records|)];
      var before, after := records[..Min(an + ns, |records|)], all[..Min(an + ns, |all|)];
      assert after == before + [rr];
      assert after[an..] == before[an..] + [rr];
      assert after[..|after| - 1] == before && after[an..][..|after[an..]| - 1] == before[an..];
    } else {
      assert all[..Min(an, |all|)] == records[..Min(an, |records|)];
      assert all[..Min(an + ns, |all|)] == records[..Min(an + ns, |records|)];
    }
  }

  method ComputeCacheTtl(m: Bytes, queryType: u16) returns (r: Option<u32>)
    ensures r == CacheTtl(m, queryType)
  {
    if !SuccessfulResponse(m) {
      return None;
    }
    var start := FindQuestionsEnd(m);
    if start.None? {
      return None;
    }
    var t := TallyRecords(m, start.value, queryType);
    if t.None? {
      return None;
    }
    ghost var records := CacheableRecords(m).value;
    RecordsCounted(m);
    assert records[..Answers(m) + Authorities(m)][Answers(m)..] == records[Answers(m)..Answers(m) + Authorities(m)];
    var negative := Rcode(m) == 3 || (Rcode(m) == 0 && t.value.soa.Some? && !t.value.requested);
    return Decide(negative, t.value.soa, t.value.cname, t.value.positive);
  }

  lemma OneBadRecordRejects(m: Bytes, start: nat, records: seq<Record>)
    requires |m| >= HEADER_LEN && QuestionsEnd(m) == Some(start) && |records| < TotalCount(m)
    requires ParsePrefix(m, start, |records|) == Some(records)
    requires var rr := ParseRR(m, LayoutEnd(start, records));
             rr.None? || (Answers(m) <= |records| < Answers(m) + Authorities(m) && !SoaReads(m, rr.value))
    ensures CacheableRecords(m).None?
  {
    var n, index := TotalCount(m), |records|;
    if ParsePrefix(m, start, n).Some? {
      ParsePrefixMonotone(m, start, index + 1, n);
      var all := ParsePrefix(m, start, n).value;
      assert all[index] == all[..index + 1][index] == ParseRR(m, LayoutEnd(start, records)).value;
    }
  }

  /** One turn of the loop over the records. */
  lemma TallyStep(m: Bytes, start: nat, records: seq<Record>, rr: Record, queryType: u16, t: Tally)
    requires |m| >= HEADER_LEN && ParsePrefix(m, start, |records|) == Some(records) && Tallies(m, records, queryType, t)
    requires ParseRR(m, LayoutEnd(start, records)) == Some(rr)
    requires Answers(m) <= |records| < Answers(m) + Authorities(m) ==> SoaReads(m, rr)
    ensures ParsePrefix(m, start, |records| + 1) == Some(records + [rr]) && LayoutEnd(start, records + [rr]) == rr.end
    ensures Tallies(m, records + [rr], queryType, Count(m, |records|, rr, queryType, t))
  {
    CountKeepsTally(m, records, rr, queryType, t);
  }

  lemma AllTallied(m: Bytes, start: nat, records: seq<Record>, queryType: u16, t: Tally)
    requires |m| >= HEADER_LEN && QuestionsEnd(m) == Some(start) && Tallies(m, records, queryType, t)
    requires ParsePrefix(m, start, TotalCount(m)) == Some(records)
    ensures CacheableRecords(m) == if LayoutEnd(start, records) == |m| then Some(records) else None
  {
  }

  method TallyRecords(m: Bytes, start: nat, queryType: u16) returns (r: Option<Tally>)
    requires |m| >= HEADER_LEN && QuestionsEnd(m) == Some(start)
    ensures r.Some? <==> CacheableRecords(m).Some?
    ensures r.Some? ==> Tallies(m, CacheableRecords(m).value, queryType, r.value)
  {
    var offset := start;
    var t := Tally(None, None, false, false);
    ghost var records: seq<Record> := [];
    for index := 0 to TotalCount(m)
      invariant ParsePrefix(m, start, index) == Some(records) && |records| == index
      invariant offset == LayoutEnd(start, records)
      invariant Tallies(m, records, queryType, t)
    {
      var rr := ParseRR(m, offset);
      if rr.None? || (Answers(m) <= index < Answers(m) + Authorities(m) && !SoaReads(m, rr.value)) {
        OneBadRecordRejects(m, start, records);
        return None;
      }
      TallyStep(m, start, records, rr.value, queryType, t);
      t := Count(m, index, rr.value, queryType, t);
      records := records + [rr.value];
      offset := rr.value.end;
    }
    AllTallied(m, start, records, queryType, t);
    return if offset == |m| then Some(t) else None;
  }

  // ---- What the lifetime means -----------------------------------------------------------------

  /** `u` is no longer than any TTL of `records`. */
  ghost predicate WithinTtls(records: seq<Record>, u: nat) {
    forall k | 0 <= k < |records| :: u <= records[k].ttl
  }

  /** A name laid out as `x` from `at`, within the bounds of the walk. */
  ghost predicate NameFits(m: Bytes, at: nat, x: Expansion) {
    Expands(m, at, x) && Jumps(x) <= 128 && |Flatten(Labels(m, at, x))| <= 255
  }

  /** The RDATA holds MNAME, RNAME and five fields of four octets each (section 3.3.13 of RFC 1035). */
  ghost predicate SoaLaidOut(m: Bytes, rr: Record, x: Expansion, y: Expansion) {
    NameFits(m, rr.rdataOffset, x) && End(m, rr.rdataOffset, x) <= rr.rdataOffset + rr.rdlen <= |m|
    && NameFits(m, End(m, rr.rdataOffset, x), y)
    && End(m, End(m, rr.rdataOffset, x), y) + 20 <= rr.rdataOffset + rr.rdlen
  }

  /** MINIMUM is the fifth field, 16 octets after the end of RNAME. */
  ghost predicate MinimumIs(m: Bytes, rr: Record, v: nat) {
    exists x, y :: SoaLaidOut(m, rr, x, y) && v == Quad(m, End(m, End(m, rr.rdataOffset, x), y) + 16)
  }

  /** `u` is no longer than the TTL and the MINIMUM of any SOA of `authority`. */
  ghost predicate WithinSoas(m: Bytes, authority: seq<Record>, u: nat) {
    forall k | 0 <= k < |authority| && authority[k].kind == 6 :: WithinSoa(m, authority[k], u)
  }

  ghost predicate WithinSoa(m: Bytes, rr: Record, u: nat) {
    u <= rr.ttl && forall v | MinimumIs(m, rr, v) :: u <= v
  }

  ghost predicate Negative(m: Bytes, answers: seq<Record>, authority: seq<Record>, queryType: u16)
    requires |m| >= HEADER_LEN
  {
    m[3] % 16 == 3 || (Contains(authority, 6) && !Contains(answers, queryType))
  }

  /**
   * A lifetime of `u` seconds keeps every promise: never zero, at most 600 seconds when negative and a day otherwise,
   * no longer than what the records allow. ANCOUNT and NSCOUNT say which records answer and which are authority.
   */
  ghost predicate SafeLifetime(m: Bytes, records: seq<Record>, queryType: u16, u: nat)
    requires |m| >= HEADER_LEN && |records| >= Pair(m, 6) + Pair(m, 8)
  {
    var an, ns := Pair(m, 6), Pair(m, 8);
    u >= 1 &&
    if Negative(m, records[..an], records[an..an + ns], queryType) then
      u <= 600 && Contains(records[an..an + ns], 6) && WithinSoas(m, records[an..an + ns], u)
      && (Contains(records[..an], 5) ==> WithinTtls(records[..an + ns], u))
    else
      u <= 86_400 && an + ns > 0 && WithinTtls(records[..an + ns], u)
  }

  lemma WalkFits(m: Bytes, at: nat, end: nat)
    ensures Walk(m, at, 0, 0).Some? && Walk(m, at, 0, 0).value.end == end <==>
            exists x :: NameFits(m, at, x) && end == End(m, at, x)
  {
    if Walk(m, at, 0, 0).Some? && Walk(m, at, 0, 0).value.end == end {
      var x := WalkSound(m, at, 0, 0);
      assert NameFits(m, at, x);
    }
    forall x | NameFits(m, at, x)
      ensures Walk(m, at, 0, 0).Some? && Walk(m, at, 0, 0).value.end == End(m, at, x)
    {
      WalkComplete(m, at, x, 0, 0);
    }
  }

  /** The field the code reads is MINIMUM, and it is read whenever the RDATA holds the whole of it. */
  lemma SoaMinimumExactly(m: Bytes, rr: Record, v: nat)
    requires rr.rdataOffset + rr.rdlen <= |m|
    ensures SoaMinimum(m, rr) == Some(v) <==> MinimumIs(m, rr, v)
  {
    if SoaMinimum(m, rr) == Some(v) {
      SoaMinimumRead(m, rr, v);
    }
    forall x, y | SoaLaidOut(m, rr, x, y)
      ensures SoaMinimum(m, rr) == Some(Quad(m, End(m, End(m, rr.rdataOffset, x), y) + 16))
    {
      LaidOutIsRead(m, rr, x, y);
    }
  }

  lemma LaidOutIsRead(m: Bytes, rr: Record, x: Expansion, y: Expansion)
    requires SoaLaidOut(m, rr, x, y)
    ensures SoaMinimum(m, rr) == Some(Quad(m, End(m, End(m, rr.rdataOffset, x), y) + 16))
  {
    var middle := End(m, rr.rdataOffset, x);
    WalkFits(m, rr.rdataOffset, middle);
    WalkFits(m, middle, End(m, middle, y));
    QuadIsField(m, End(m, middle, y) + 16);
  }

  lemma SoaMinimumRead(m: Bytes, rr: Record, v: nat)
    requires rr.rdataOffset + rr.rdlen <= |m| && SoaMinimum(m, rr) == Some(v)
    ensures MinimumIs(m, rr, v)
  {
    var middle := Walk(m, rr.rdataOffset, 0, 0).value.end;
    var tail := Walk(m, middle, 0, 0).value.end;
    WalkFits(m, rr.rdataOffset, middle);
    WalkFits(m, middle, tail);
    var x :| NameFits(m, rr.rdataOffset, x) && middle == End(m, rr.rdataOffset, x);
    var y :| NameFits(m, middle, y) && tail == End(m, middle, y);
    QuadIsField(m, tail + 16);
    assert SoaLaidOut(m, rr, x, y);
  }

  lemma WithinReadSoa(m: Bytes, rr: Record, u: nat)
    requires rr.rdataOffset + rr.rdlen <= |m| && SoaMinimum(m, rr).Some?
    ensures WithinSoa(m, rr, u) <==> u <= Min(rr.ttl, SoaMinimum(m, rr).value)
  {
    SoaMinimumExactly(m, rr, SoaMinimum(m, rr).value);
    forall v: nat | MinimumIs(m, rr, v) ensures SoaMinimum(m, rr) == Some(v) {
      SoaMinimumExactly(m, rr, v);
    }
  }

  lemma {:induction false} MinTtlIsMinimum(records: seq<Record>, u: nat)
    ensures MinTtl(records).None? <==> records == []
    ensures MinTtl(records).Some? ==> (u <= MinTtl(records).value <==> WithinTtls(records, u))
    ensures MinTtl(records).None? ==> WithinTtls(records, u)
  {
    if records != [] {
      var before, last := records[..|records| - 1], records[|records| - 1];
      MinTtlIsMinimum(before, u);
      assert forall k | 0 <= k < |before| :: before[k] == records[k];
      assert WithinTtls(records, u) <==> WithinTtls(before, u) && u <= last.ttl;
    }
  }

  lemma SoaFloorStep(m: Bytes, authority: seq<Record>, u: nat)
    requires authority != []
    ensures var last, before := authority[|authority| - 1], authority[..|authority| - 1];
            WithinSoas(m, authority, u) <==> WithinSoas(m, before, u) && (last.kind == 6 ==> WithinSoa(m, last, u))
    ensures Contains(authority, 6) <==>
              Contains(authority[..|authority| - 1], 6) || authority[|authority| - 1].kind == 6
  {
    var last, before := authority[|authority| - 1], authority[..|authority| - 1];
    assert authority == before + [last];
    ContainsSnoc(before, last, 6);
    assert forall k | 0 <= k < |before| :: before[k] == authority[k];
  }

  /** `records` lie inside the message. */
  ghost predicate Inside(m: Bytes, records: seq<Record>) {
    forall k | 0 <= k < |records| :: records[k].rdataOffset + records[k].rdlen <= |m|
  }

  lemma {:induction false} SoaFloorIsMinimum(m: Bytes, authority: seq<Record>, u: nat)
    requires Inside(m, authority) && forall k | 0 <= k < |authority| :: SoaReads(m, authority[k])
    ensures SoaFloor(m, authority).Some? <==> Contains(authority, 6)
    ensures SoaFloor(m, authority).Some? ==> (u <= SoaFloor(m, authority).value <==> WithinSoas(m, authority, u))
    ensures SoaFloor(m, authority).None? ==> WithinSoas(m, authority, u)
    decreases |authority|
  {
    if authority != [] {
      var last := authority[|authority| - 1];
      assert SoaReads(m, last);
      SoaFloorStep(m, authority, u);
      SoaFloorIsMinimum(m, authority[..|authority| - 1], u);
      if last.kind == TYPE_SOA {
        WithinReadSoa(m, last, u);
      }
    }
  }

  lemma CnameIsAnswer(records: seq<Record>, an: nat, both: nat)
    requires an <= both <= |records|
    ensures Contains(records[..an], 5) ==> records[..both] != []
  {
  }

  lemma DecideIsLongest(negative: bool, soa: Option<u32>, cname: bool, positive: Option<u32>, u: nat)
    requires cname ==> positive.Some?
    ensures Decide(negative, soa, cname, positive).Some? && 1 <= u <= Decide(negative, soa, cname, positive).value <==>
            u >= 1 &&
            if negative then u <= 600 && soa.Some? && u <= soa.value && (cname ==> u <= positive.value)
                      else u <= 86_400 && positive.Some? && u <= positive.value
  {
  }

  lemma SafeByDecision(m: Bytes, answer: seq<Record>, authority: seq<Record>, both: seq<Record>, negative: bool,
                       soa: Option<u32>, positive: Option<u32>, u: nat)
    requires |m| >= HEADER_LEN && (Contains(answer, 5) ==> both != [])
    requires soa.Some? <==> Contains(authority, 6)
    requires soa.Some? ==> (u <= soa.value <==> WithinSoas(m, authority, u))
    requires positive.None? <==> both == []
    requires positive.Some? ==> (u <= positive.value <==> WithinTtls(both, u))
    ensures (u >= 1 &&
             if negative then
               u <= 600 && Contains(authority, 6) && WithinSoas(m, authority, u)
               && (Contains(answer, 5) ==> WithinTtls(both, u))
             else
               u <= 86_400 && both != [] && WithinTtls(both, u)) <==>
            var d := Decide(negative, soa, Contains(answer, TYPE_CNAME), positive);
            d.Some? && 1 <= u <= d.value
  {
    DecideIsLongest(negative, soa, Contains(answer, TYPE_CNAME), positive, u);
  }

  /** Safety in terms of the two minima the loop keeps. */
  lemma SafeByMinima(m: Bytes, records: seq<Record>, queryType: u16, u: nat, answers: seq<Record>,
                     authority: seq<Record>, both: seq<Record>)
    requires SuccessfulResponse(m) && |records| >= Pair(m, 6) + Pair(m, 8) && Inside(m, authority)
    requires answers == records[..Pair(m, 6)] && authority == records[Pair(m, 6)..Pair(m, 6) + Pair(m, 8)]
    requires both == records[..Pair(m, 6) + Pair(m, 8)] && forall k | 0 <= k < |authority| :: SoaReads(m, authority[k])
    ensures var soa := SoaFloor(m, authority);
            var d := Chosen(Rcode(m), answers, soa, both, queryType);
            SafeLifetime(m, records, queryType, u) <==> d.Some? && 1 <= u <= d.value
  {
    SoaFloorIsMinimum(m, authority, u);
    MinTtlIsMinimum(both, u);
    CnameIsAnswer(records, Pair(m, 6), Pair(m, 6) + Pair(m, 8));
    var negative := IsNegative(m, answers, SoaFloor(m, authority), queryType);
    assert negative == Negative(m, answers, authority, queryType);
    SafeByDecision(m, answers, authority, both, negative, SoaFloor(m, authority), MinTtl(both), u);
    SafeUnfolds(m, records, queryType, u, negative, answers, authority, both);
  }

  lemma SafeUnfolds(m: Bytes, records: seq<Record>, queryType: u16, u: nat, negative: bool, answers: seq<Record>,
                    authority: seq<Record>, both: seq<Record>)
    requires |m| >= HEADER_LEN && |records| >= Pair(m, 6) + Pair(m, 8)
    requires answers == records[..Pair(m, 6)] && authority == records[Pair(m, 6)..Pair(m, 6) + Pair(m, 8)]
    requires both == records[..Pair(m, 6) + Pair(m, 8)] && negative == Negative(m, answers, authority, queryType)
    ensures SafeLifetime(m, records, queryType, u) <==>
            u >= 1 &&
            if negative then
              u <= 600 && Contains(authority, 6) && WithinSoas(m, authority, u)
              && (Contains(answers, 5) ==> WithinTtls(both, u))
            else
              u <= 86_400 && both != [] && WithinTtls(both, u)
  {
    assert |both| == Pair(m, 6) + Pair(m, 8);
  }

  lemma CacheableIsInside(m: Bytes)
    requires |m| >= HEADER_LEN && CacheableRecords(m).Some?
    ensures FullyParsed(m, QuestionsEnd(m).value, CacheableRecords(m).value) && Inside(m, CacheableRecords(m).value)
  {
    var q, records := QuestionsEnd(m).value, CacheableRecords(m).value;
    RecordsCounted(m);
    forall k {:trigger StartOf(q, records, k)} | 0 <= k < |records|
      ensures ParseRR(m, StartOf(q, records, k)) == Some(records[k])
    {
      ParsePrefixParses(m, q, TotalCount(m), k);
    }
    forall k | 0 <= k < |records| ensures records[k].rdataOffset + records[k].rdlen <= |m| {
      assert ParseRR(m, StartOf(q, records, k)) == Some(records[k]);
    }
  }

  /** The lifetime chosen is safe, no safe lifetime is longer, and none is chosen exactly when none is safe. */
  lemma LongestSafe(m: Bytes, queryType: u16, u: nat)
    requires SuccessfulResponse(m) && CacheableRecords(m).Some?
    ensures |CacheableRecords(m).value| >= Pair(m, 6) + Pair(m, 8)
    ensures SafeLifetime(m, CacheableRecords(m).value, queryType, u) <==>
            CacheTtl(m, queryType).Some? && 1 <= u <= CacheTtl(m, queryType).value
  {
    PairIsField(m, 6);
    PairIsField(m, 8);
    RecordsCounted(m);
    CacheableIsInside(m);
    var records, an, both := CacheableRecords(m).value, Answers(m), Answers(m) + Authorities(m);
    var authority := records[an..both];
    forall k | 0 <= k < |authority|
      ensures SoaReads(m, authority[k]) && authority[k].rdataOffset + authority[k].rdlen <= |m|
    {
      assert authority[k] == records[an + k];
    }
    LongestSafeOf(m, queryType, u, records, authority, an, Authorities(m));
  }

  lemma LongestSafeOf(m: Bytes, queryType: u16, u: nat, records: seq<Record>, authority: seq<Record>, an: nat, ns: nat)
    requires SuccessfulResponse(m) && CacheableRecords(m) == Some(records) && |records| >= an + ns
    requires an == Answers(m) == Pair(m, 6) && ns == Authorities(m) == Pair(m, 8)
    requires authority == records[an..an + ns] && Inside(m, authority)
    requires forall k | 0 <= k < |authority| :: SoaReads(m, authority[k])
    ensures SafeLifetime(m, records, queryType, u) <==>
            CacheTtl(m, queryType).Some? && 1 <= u <= CacheTtl(m, queryType).value
  {
    SafeByMinima(m, records, queryType, u, records[..an], authority, records[..an + ns]);
    DecidedFrom(m, queryType, records, authority, an, ns, Rcode(m), SoaFloor(m, authority));
  }

  /** QR set, TC clear, NOERROR or NXDOMAIN. */
  ghost predicate Successful(m: Bytes) {
    |m| >= HEADER_LEN && m[2] >= 0x80 && m[2] / 2 % 2 == 0 && (m[3] % 16 == 0 || m[3] % 16 == 3)
  }

  /** The records fill the message to its last octet, as many as the header counts, and each authority SOA is whole. */
  ghost predicate ReadsWhole(m: Bytes, q: nat, records: seq<Record>) {
    FullyParsed(m, q, records) && |records| == Pair(m, 6) + Pair(m, 8) + Pair(m, 10)
    && forall k | Pair(m, 6) <= k < Pair(m, 6) + Pair(m, 8) && records[k].kind == 6 ::
         exists v: nat :: MinimumIs(m, records[k], v)
  }

  lemma ReadsWholeExactly(m: Bytes, q: nat, records: seq<Record>)
    requires |m| >= HEADER_LEN
    ensures ReadsWhole(m, q, records) <==> QuestionsEnd(m) == Some(q) && CacheableRecords(m) == Some(records)
  {
    PairIsField(m, 6);
    PairIsField(m, 8);
    PairIsField(m, 10);
    if CacheableRecords(m) == Some(records) {
      CacheableIsInside(m);
      RecordsCounted(m);
      forall k | Pair(m, 6) <= k < Pair(m, 6) + Pair(m, 8) && records[k].kind == 6
        ensures exists v: nat :: MinimumIs(m, records[k], v)
      {
        assert SoaReads(m, records[k]);
        SoaMinimumExactly(m, records[k], SoaMinimum(m, records[k]).value);
      }
    }
    if ReadsWhole(m, q, records) {
      FullyParsedIsPrefix(m, q, records, |records|);
      assert records[..|records|] == records;
      forall k | Answers(m) <= k < Answers(m) + Authorities(m) && k < |records| ensures SoaReads(m, records[k]) {
        assert ParseRR(m, StartOf(q, records, k)) == Some(records[k]);
        if records[k].kind == 6 {
          var v: nat :| MinimumIs(m, records[k], v);
          SoaMinimumExactly(m, records[k], v);
        }
      }
    }
  }

  lemma {:induction false} FullyParsedIsPrefix(m: Bytes, q: nat, records: seq<Record>, k: nat)
    requires FullyParsed(m, q, records) && k <= |records|
    ensures ParsePrefix(m, q, k) == Some(records[..k])
    decreases k
  {
    if k > 0 {
      FullyParsedIsPrefix(m, q, records, k - 1);
      assert ParseRR(m, StartOf(q, records, k - 1)) == Some(records[k - 1]);
      assert LayoutEnd(q, records[..k - 1]) == StartOf(q, records, k - 1);
      assert records[..k] == records[..k - 1] + [records[k - 1]];
    }
  }

  /**
   * On every message: lifetimes up to the one chosen, and no others, are safe for a whole successful response; none is
   * chosen for anything else.
   */
  lemma CacheTtlIsLongestSafe(m: Bytes, queryType: u16, u: nat)
    ensures CacheTtl(m, queryType).Some? && 1 <= u <= CacheTtl(m, queryType).value <==>
            Successful(m) &&
            exists q: nat, records :: ReadsWhole(m, q, records) && SafeLifetime(m, records, queryType, u)
  {
    if CacheTtl(m, queryType).Some? {
      ReadsWholeExactly(m, QuestionsEnd(m).value, CacheableRecords(m).value);
      LongestSafe(m, queryType, u);
    }
    if Successful(m) {
      forall q: nat, records | ReadsWhole(m, q, records) && SafeLifetime(m, records, queryType, u)
        ensures CacheTtl(m, queryType).Some? && 1 <= u <= CacheTtl(m, queryType).value
      {
        ReadsWholeExactly(m, q, records);
        LongestSafe(m, queryType, u);
      }
    }
  }

  /** Only a fully parsed, untruncated NOERROR or NXDOMAIN response gets a lifetime, of at most a day. */
  lemma CacheableIsFullyParsed(m: Bytes, queryType: u16) returns (q: nat, records: seq<Record>)
    requires CacheTtl(m, queryType).Some?
    ensures SuccessfulResponse(m) && CacheableRecords(m) == Some(records) && FullyParsed(m, q, records)
    ensures 1 <= CacheTtl(m, queryType).value <= 86_400
  {
    q := QuestionsEnd(m).value;
    records := CacheableRecords(m).value;
    RecordsCounted(m);
    LongestSafe(m, queryType, CacheTtl(m, queryType).value);
    forall k | 0 <= k < |records| ensures ParseRR(m, StartOf(q, records, k)) == Some(records[k]) {
      ParsePrefixParses(m, q, TotalCount(m), k);
    }
  }
}
