/** SERIAL, REFRESH, RETRY and EXPIRE of a zone have no bearing on how long its negative answers are cached. */
module SoaTimers {
  import opened Prelude
  import opened Names
  import opened Questions
  import opened Records
  import opened Ageing
  import opened CacheTtls

  /** Octet `i` belongs to the four fields between RNAME and MINIMUM of an authority SOA. */
  ghost predicate InTimersOf(m: Bytes, rr: Record, i: int) {
    exists x, y :: SoaLaidOut(m, rr, x, y) &&
      End(m, End(m, rr.rdataOffset, x), y) <= i < End(m, End(m, rr.rdataOffset, x), y) + 16
  }

  ghost predicate IsAuthoritySoa(m: Bytes, records: seq<Record>, k: nat)
    requires |m| >= HEADER_LEN
  {
    Pair(m, 6) <= k < Pair(m, 6) + Pair(m, 8) && k < |records| && records[k].kind == 6
  }

  ghost predicate InTimers(m: Bytes, records: seq<Record>, i: int)
    requires |m| >= HEADER_LEN
  {
    exists k: nat :: IsAuthoritySoa(m, records, k) && InTimersOf(m, records[k], i)
  }

  /** The walk from `s` reads none of those octets. */
  ghost predicate ReadsNoTimer(m: Bytes, records: seq<Record>, s: nat)
    requires |m| >= HEADER_LEN
  {
    forall i {:trigger Touches(m, s, 0, 0, i)} | Touches(m, s, 0, 0, i) :: !InTimers(m, records, i)
  }

  ghost predicate NamesAvoidTimers(m: Bytes, q: nat, records: seq<Record>)
    requires |m| >= HEADER_LEN
  {
    (forall s: nat | s in NameStarts(m, q, records) :: ReadsNoTimer(m, records, s))
    && forall k: nat | IsAuthoritySoa(m, records, k) && SoaMinimum(m, records[k]).Some? ::
         ReadsNoTimer(m, records, records[k].rdataOffset) && ReadsNoTimer(m, records, Middle(m, records[k]))
  }

  /** Where RNAME begins, and where it ends. */
  ghost function Middle(m: Bytes, rr: Record): nat
    requires SoaMinimum(m, rr).Some?
  {
    Walk(m, rr.rdataOffset, 0, 0).value.end
  }

  ghost function Tail(m: Bytes, rr: Record): nat
    requires SoaMinimum(m, rr).Some?
  {
    Walk(m, Middle(m, rr), 0, 0).value.end
  }

  lemma TimersAtTail(m: Bytes, rr: Record, i: int)
    requires SoaMinimum(m, rr).Some? && InTimersOf(m, rr, i)
    ensures Tail(m, rr) <= i < Tail(m, rr) + 16
    ensures rr.rdataOffset <= i < rr.rdataOffset + rr.rdlen
  {
    var x, y :| SoaLaidOut(m, rr, x, y) &&
      End(m, End(m, rr.rdataOffset, x), y) <= i < End(m, End(m, rr.rdataOffset, x), y) + 16;
    var middle := End(m, rr.rdataOffset, x);
    WalkFits(m, rr.rdataOffset, middle);
    WalkFits(m, middle, End(m, middle, y));
    WalkEndIsInline(m, rr.rdataOffset, 0, 0);
    WalkEndIsInline(m, middle, 0, 0);
  }

  /** The records, and their walks, of a message that is worth caching. */
  ghost predicate Whole(m: Bytes, q: nat, records: seq<Record>) {
    |m| >= HEADER_LEN && FullyParsed(m, q, records) && SoasRead(m, records) && CacheableRecords(m) == Some(records)
    && q <= |m|
  }

  lemma WholeOf(m: Bytes, records: seq<Record>) returns (q: nat)
    requires |m| >= HEADER_LEN && CacheableRecords(m) == Some(records)
    ensures Whole(m, q, records) && QuestionsEnd(m) == Some(q)
  {
    q := QuestionsEnd(m).value;
    CacheableIsInside(m);
    SkipQuestionsBounds(m, HEADER_LEN, QdCount(m));
  }

  lemma SoaIsRead(m: Bytes, q: nat, records: seq<Record>, k: nat)
    requires Whole(m, q, records) && IsAuthoritySoa(m, records, k)
    ensures SoaMinimum(m, records[k]).Some?
  {
    PairIsField(m, 6);
    PairIsField(m, 8);
    assert SoaReads(m, records[k]);
  }

  lemma RecordsAreDisjoint(m: Bytes, q: nat, records: seq<Record>, j: nat, k: nat, i: int)
    requires IsLayout(m, q, records) && q <= |m| && j < |records| && k < |records|
    requires StartOf(q, records, k) <= i < records[k].end && records[j].rdataOffset <= i < records[j].end
    ensures j == k
  {
    RecordBounds(m, StartOf(q, records, j), records[j]);
    if j < k {
      LayoutOrdered(m, q, records, j + 1, k);
    } else if k < j {
      LayoutOrdered(m, q, records, k + 1, j);
    }
  }

  /** The timers of one record are in no other record, and not before its RDATA. */
  lemma TimersStayInside(m: Bytes, q: nat, records: seq<Record>, k: nat, i: int)
    requires Whole(m, q, records) && k < |records| && StartOf(q, records, k) <= i < records[k].end
    requires InTimers(m, records, i)
    ensures IsAuthoritySoa(m, records, k) && InTimersOf(m, records[k], i)
    ensures SoaMinimum(m, records[k]).Some? && records[k].rdataOffset <= i
  {
    var j: nat :| IsAuthoritySoa(m, records, j) && InTimersOf(m, records[j], i);
    SoaIsRead(m, q, records, j);
    TimersAtTail(m, records[j], i);
    FullyParsedIsLayout(m, q, records);
    RecordBounds(m, StartOf(q, records, j), records[j]);
    RecordsAreDisjoint(m, q, records, j, k, i);
  }

  lemma TimersAfterQuestions(m: Bytes, q: nat, records: seq<Record>, i: int)
    requires Whole(m, q, records) && InTimers(m, records, i)
    ensures i >= q >= HEADER_LEN
  {
    var j: nat :| IsAuthoritySoa(m, records, j) && InTimersOf(m, records[j], i);
    SoaIsRead(m, q, records, j);
    TimersAtTail(m, records[j], i);
    FullyParsedIsLayout(m, q, records);
    RecordBounds(m, StartOf(q, records, j), records[j]);
    LayoutOrdered(m, q, records, 0, j);
    SkipQuestionsBounds(m, HEADER_LEN, QdCount(m));
  }

  /** `b` differs from `a` in those four fields at most. */
  ghost predicate SameButTimers(a: Bytes, b: Bytes, records: seq<Record>) {
    |a| >= HEADER_LEN && |b| == |a| &&
    forall i {:trigger InTimers(a, records, i)} | 0 <= i < |a| && !InTimers(a, records, i) :: b[i] == a[i]
  }

  lemma SameWalk(a: Bytes, b: Bytes, records: seq<Record>, s: nat)
    requires SameButTimers(a, b, records) && ReadsNoTimer(a, records, s)
    ensures Walk(b, s, 0, 0) == Walk(a, s, 0, 0)
    ensures Walk(a, s, 0, 0).Some? ==> WalksAlike(a, b, s)
  {
    WalkReadsOnlyTouched(a, b, s, 0, 0);
  }

  lemma SameRecord(a: Bytes, b: Bytes, q: nat, records: seq<Record>, k: nat)
    requires Whole(a, q, records) && SameButTimers(a, b, records) && NamesAvoidTimers(a, q, records) && k < |records|
    ensures InlineRR(b, StartOf(q, records, k)) == Some(records[k])
  {
    var start := StartOf(q, records, k);
    RecordStartIsName(a, q, records, k);
    SameWalk(a, b, records, start);
    assert ParseRR(a, start) == Some(records[k]);
    WalkEndIsInline(a, start, 0, 0);
    WalkEndIsInline(b, start, 0, 0);
    var fixed := Walk(a, start, 0, 0).value.end;
    forall i | fixed <= i < fixed + 10 ensures b[i] == a[i] {
      if InTimers(a, records, i) {
        TimersStayInside(a, q, records, k, i);
      }
    }
    SameFixedPart(a, b, fixed);
  }

  lemma SameFixedPart(a: Bytes, b: Bytes, fixed: nat)
    requires fixed + 10 <= |a| == |b| && forall i | fixed <= i < fixed + 10 :: b[i] == a[i]
    ensures RecordAt(b, fixed) == RecordAt(a, fixed)
  {
    assert b[fixed..fixed + 10] == a[fixed..fixed + 10];
    RecordOctets(a, fixed);
    RecordOctets(b, fixed);
  }

  lemma SameParse(a: Bytes, b: Bytes, q: nat, records: seq<Record>)
    requires Whole(a, q, records) && SameButTimers(a, b, records) && NamesAvoidTimers(a, q, records)
    ensures FullyParsed(b, q, records) && forall i | 0 <= i < HEADER_LEN :: b[i] == a[i]
  {
    forall i | 0 <= i < HEADER_LEN ensures b[i] == a[i] {
      if InTimers(a, records, i) {
        TimersAfterQuestions(a, q, records, i);
      }
    }
    forall k | 0 <= k < |records| ensures InlineRR(b, StartOf(q, records, k)) == Some(records[k]) {
      SameRecord(a, b, q, records, k);
    }
    forall s: nat | s in NameStarts(a, q, records) ensures WalksAlike(a, b, s) {
      NamesWalk(a, q, records, s);
      SameWalk(a, b, records, s);
    }
    ParsedAlike(a, b, q, records, records);
  }

  lemma SameMinimum(a: Bytes, b: Bytes, q: nat, records: seq<Record>, k: nat)
    requires Whole(a, q, records) && SameButTimers(a, b, records) && NamesAvoidTimers(a, q, records)
    requires IsAuthoritySoa(a, records, k)
    ensures SoaMinimum(b, records[k]) == SoaMinimum(a, records[k])
  {
    var rr := records[k];
    SoaIsRead(a, q, records, k);
    SameWalk(a, b, records, rr.rdataOffset);
    SameWalk(a, b, records, Middle(a, rr));
    assert ParseRR(a, StartOf(q, records, k)) == Some(rr);
    WalkEndIsInline(a, StartOf(q, records, k), 0, 0);
    WalkEndIsInline(a, rr.rdataOffset, 0, 0);
    WalkEndIsInline(a, Middle(a, rr), 0, 0);
    var tail := Tail(a, rr);
    forall i | tail + 16 <= i < tail + 20 ensures b[i] == a[i] {
      if InTimers(a, records, i) {
        TimersStayInside(a, q, records, k, i);
        TimersAtTail(a, rr, i);
      }
    }
    SameFifthField(a, b, rr, Middle(a, rr), tail);
  }

  lemma SameFifthField(a: Bytes, b: Bytes, rr: Record, middle: nat, tail: nat)
    requires Walk(a, rr.rdataOffset, 0, 0).Some? && Walk(a, rr.rdataOffset, 0, 0).value.end == middle
    requires Walk(a, middle, 0, 0).Some? && Walk(a, middle, 0, 0).value.end == tail
    requires Walk(b, rr.rdataOffset, 0, 0) == Walk(a, rr.rdataOffset, 0, 0)
    requires Walk(b, middle, 0, 0) == Walk(a, middle, 0, 0)
    requires tail + 20 <= |a| == |b| && forall i | tail + 16 <= i < tail + 20 :: b[i] == a[i]
    ensures SoaMinimum(b, rr) == SoaMinimum(a, rr)
  {
    QuadIsField(a, tail + 16);
    QuadIsField(b, tail + 16);
  }

  lemma {:induction false} SameFloor(a: Bytes, b: Bytes, authority: seq<Record>)
    requires forall k | 0 <= k < |authority| :: SoaReads(a, authority[k]) && SoaReads(b, authority[k])
    requires forall k | 0 <= k < |authority| && authority[k].kind == 6 ::
               SoaMinimum(b, authority[k]) == SoaMinimum(a, authority[k])
    ensures SoaFloor(b, authority) == SoaFloor(a, authority)
    decreases |authority|
  {
    if authority != [] {
      var before, last := authority[..|authority| - 1], authority[|authority| - 1];
      assert SoaReads(a, last) && SoaReads(b, last);
      assert forall k | 0 <= k < |before| :: before[k] == authority[k];
      SameFloor(a, b, before);
    }
  }

  lemma SameSoas(a: Bytes, b: Bytes, q: nat, records: seq<Record>, k: nat)
    requires Whole(a, q, records) && SameButTimers(a, b, records) && NamesAvoidTimers(a, q, records)
    requires Answers(a) <= k < Answers(a) + Authorities(a) && k < |records|
    ensures SoaReads(a, records[k]) && SoaReads(b, records[k])
    ensures records[k].kind == 6 ==> SoaMinimum(b, records[k]) == SoaMinimum(a, records[k])
  {
    PairIsField(a, 6);
    PairIsField(a, 8);
    assert SoaReads(a, records[k]);
    if records[k].kind == 6 {
      SameMinimum(a, b, q, records, k);
    }
  }

  lemma SameHeader(a: Bytes, b: Bytes)
    requires |a| >= HEADER_LEN && |b| == |a| && forall i | 0 <= i < HEADER_LEN :: b[i] == a[i]
    ensures Answers(b) == Answers(a) && Authorities(b) == Authorities(a) && TotalCount(b) == TotalCount(a)
    ensures SuccessfulResponse(b) == SuccessfulResponse(a) && Rcode(b) == Rcode(a)
  {
  }

  lemma SameCacheable(a: Bytes, b: Bytes, q: nat, records: seq<Record>)
    requires Whole(a, q, records) && SameButTimers(a, b, records) && NamesAvoidTimers(a, q, records)
    requires FullyParsed(b, q, records) && Answers(b) == Answers(a) && Authorities(b) == Authorities(a)
    ensures CacheableRecords(b) == Some(records)
  {
    FullyParsedIsPrefix(b, q, records, |records|);
    assert records[..|records|] == records;
    forall k | Answers(a) <= k < Answers(a) + Authorities(a) && k < |records| ensures SoaReads(b, records[k]) {
      SameSoas(a, b, q, records, k);
    }
  }

  lemma SameAuthority(a: Bytes, b: Bytes, q: nat, records: seq<Record>, authority: seq<Record>)
    requires Whole(a, q, records) && SameButTimers(a, b, records) && NamesAvoidTimers(a, q, records)
    requires |records| >= Answers(a) + Authorities(a)
    requires authority == records[Answers(a)..Answers(a) + Authorities(a)]
    ensures forall k | 0 <= k < |authority| :: SoaReads(a, authority[k]) && SoaReads(b, authority[k])
    ensures forall k | 0 <= k < |authority| && authority[k].kind == 6 ::
              SoaMinimum(b, authority[k]) == SoaMinimum(a, authority[k])
  {
    forall k | 0 <= k < |authority|
      ensures SoaReads(a, authority[k]) && SoaReads(b, authority[k])
      ensures authority[k].kind == 6 ==> SoaMinimum(b, authority[k]) == SoaMinimum(a, authority[k])
    {
      SameSoas(a, b, q, records, Answers(a) + k);
    }
  }

  /** Responses that differ in those fields at most live equally long, if no name reads them. */
  lemma TimersDoNotMatter(a: Bytes, b: Bytes, queryType: u16, records: seq<Record>)
    requires |a| >= HEADER_LEN && CacheableRecords(a) == Some(records) && SameButTimers(a, b, records)
    requires NamesAvoidTimers(a, QuestionsEnd(a).value, records)
    ensures CacheTtl(b, queryType) == CacheTtl(a, queryType)
  {
    var q := WholeOf(a, records);
    SameParse(a, b, q, records);
    SameHeader(a, b);
    SameCacheable(a, b, q, records);
    RecordsCounted(a);
    var authority := records[Answers(a)..Answers(a) + Authorities(a)];
    SameAuthority(a, b, q, records, authority);
    SameFloor(a, b, authority);
    if SuccessfulResponse(a) {
      DecidedFrom(a, queryType, records, authority, Answers(a), Authorities(a), Rcode(a), SoaFloor(a, authority));
      DecidedFrom(b, queryType, records, authority, Answers(a), Authorities(a), Rcode(a), SoaFloor(a, authority));
    }
  }
}
