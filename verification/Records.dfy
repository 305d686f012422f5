/** Resource records, and the in-place TTL ageing that parses the buffer it rewrites. */
module Records {
  import opened Prelude
  import opened Names
  import opened Questions

  const TYPE_CNAME: u16 := 5
  const TYPE_SOA: u16 := 6
  const TYPE_OPT: u16 := 41

  datatype Record = Record(kind: u16, class_: u16, ttl: u32, ttlOffset: nat, rdataOffset: nat, rdlen: nat, end: nat)

  /** The fixed fields of a record whose owner name ends at `nameEnd`. */
  function RecordAt(m: Bytes, nameEnd: nat): Option<Record> {
    if nameEnd + 10 > |m| then None
    else
      var rdlen := ReadU16(m, nameEnd + 8).value;
      if nameEnd + 10 + rdlen > |m| then None
      else Some(Record(ReadU16(m, nameEnd).value, ReadU16(m, nameEnd + 2).value, ReadU32(m, nameEnd + 4).value,
                       nameEnd + 4, nameEnd + 10, rdlen, nameEnd + 10 + rdlen))
  }

  /** The fixed part of a record, octet by octet (section 3.2.1 of RFC 1035). */
  lemma RecordOctets(m: Bytes, fixed: nat)
    ensures RecordAt(m, fixed).Some? <==> fixed + 10 <= |m| && fixed + 10 + Pair(m, fixed + 8) <= |m|
    ensures RecordAt(m, fixed).Some? ==>
              RecordAt(m, fixed).value == Record(Pair(m, fixed), Pair(m, fixed + 2), Quad(m, fixed + 4), fixed + 4,
                                                 fixed + 10, Pair(m, fixed + 8), fixed + 10 + Pair(m, fixed + 8))
  {
    PairIsField(m, fixed);
    PairIsField(m, fixed + 2);
    QuadIsField(m, fixed + 4);
    PairIsField(m, fixed + 8);
  }

  /** A record as the code reads it: the owner name is walked, pointers and all. */
  function ParseRR(m: Bytes, offset: nat): Option<Record> {
    match Walk(m, offset, 0, 0)
    case None => None
    case Some(w) => RecordAt(m, w.end)
  }

  /** The same record read from inline octets only. */
  function InlineRR(m: Bytes, offset: nat): Option<Record> {
    match InlineEnd(m, offset)
    case None => None
    case Some(end) => RecordAt(m, end)
  }

  lemma ParseIsInline(m: Bytes, offset: nat)
    requires ParseRR(m, offset).Some?
    ensures InlineRR(m, offset) == ParseRR(m, offset)
  {
    WalkEndIsInline(m, offset, 0, 0);
  }

  lemma InlineRRIsLocal(m: Bytes, other: Bytes, offset: nat, rr: Record)
    requires InlineRR(m, offset) == Some(rr) && |m| == |other|
    requires forall i | offset <= i < rr.end && i < |m| :: other[i] == m[i]
    ensures InlineRR(other, offset) == Some(rr)
  {
    InlineEndBounds(m, offset);
    InlineEndIsLocal(m, other, offset);
  }

  /** A record's fields lie inside it, in order. */
  ghost predicate Framing(rr: Record, offset: nat, limit: nat) {
    offset < rr.ttlOffset && rr.rdataOffset == rr.ttlOffset + 6 &&
    rr.end == rr.rdataOffset + rr.rdlen && rr.end <= limit
  }

  lemma RecordBounds(m: Bytes, offset: nat, rr: Record)
    requires InlineRR(m, offset) == Some(rr)
    ensures Framing(rr, offset, |m|) && ReadU32(m, rr.ttlOffset) == Some(rr.ttl)
  {
    InlineEndBounds(m, offset);
  }

  function StartOf(offset: nat, records: seq<Record>, k: nat): nat
    requires k <= |records|
  {
    if k == 0 then offset else records[k - 1].end
  }

  /** `records` are the consecutive records from `offset`, read from inline octets. */
  ghost predicate IsLayout(m: Bytes, offset: nat, records: seq<Record>) {
    forall k {:trigger StartOf(offset, records, k)} | 0 <= k < |records| ::
      InlineRR(m, StartOf(offset, records, k)) == Some(records[k])
  }

  function LayoutEnd(offset: nat, records: seq<Record>): nat {
    StartOf(offset, records, |records|)
  }

  lemma IsLayoutCons(m: Bytes, offset: nat, rr: Record, rest: seq<Record>)
    requires InlineRR(m, offset) == Some(rr) && IsLayout(m, rr.end, rest)
    ensures IsLayout(m, offset, [rr] + rest) && LayoutEnd(offset, [rr] + rest) == LayoutEnd(rr.end, rest)
  {
    var records := [rr] + rest;
    forall k | 0 <= k < |records| ensures InlineRR(m, StartOf(offset, records, k)) == Some(records[k]) {
      if k > 0 {
        assert StartOf(offset, records, k) == StartOf(rr.end, rest, k - 1);
      }
    }
  }

  /** Records follow one another and stay inside the message. */
  lemma {:induction false} LayoutOrdered(m: Bytes, offset: nat, records: seq<Record>, j: nat, k: nat)
    requires IsLayout(m, offset, records) && offset <= |m| && j <= k <= |records|
    ensures offset <= StartOf(offset, records, j) <= StartOf(offset, records, k) <= |m|
    decreases k
  {
    if k > 0 {
      LayoutOrdered(m, offset, records, if j < k then j else k - 1, k - 1);
      RecordBounds(m, StartOf(offset, records, k - 1), records[k - 1]);
    }
  }

  lemma LayoutIsLocal(m: Bytes, other: Bytes, offset: nat, records: seq<Record>)
    requires IsLayout(m, offset, records) && |m| == |other| && offset <= |m|
    requires forall i | offset <= i < |m| :: other[i] == m[i]
    ensures IsLayout(other, offset, records)
  {
    forall k | 0 <= k < |records| ensures InlineRR(other, StartOf(offset, records, k)) == Some(records[k]) {
      LayoutOrdered(m, offset, records, 0, k);
      InlineRRIsLocal(m, other, StartOf(offset, records, k), records[k]);
    }
  }

  lemma {:induction false} LayoutUniqueAt(m: Bytes, offset: nat, a: seq<Record>, b: seq<Record>, k: nat)
    requires IsLayout(m, offset, a) && IsLayout(m, offset, b) && k < |a| && k < |b|
    ensures a[k] == b[k]
  {
    if k > 0 {
      LayoutUniqueAt(m, offset, a, b, k - 1);
    }
    assert StartOf(offset, a, k) == StartOf(offset, b, k);
  }

  /** A message has one layout of a given length. */
  lemma LayoutUnique(m: Bytes, offset: nat, a: seq<Record>, b: seq<Record>)
    requires IsLayout(m, offset, a) && IsLayout(m, offset, b) && |a| == |b|
    ensures a == b
  {
    forall k | 0 <= k < |a| ensures a[k] == b[k] {
      LayoutUniqueAt(m, offset, a, b, k);
    }
  }

  function TotalCount(m: Bytes): nat
    requires |m| >= HEADER_LEN
  {
    ReadU16(m, 6).value + ReadU16(m, 8).value + ReadU16(m, 10).value
  }

  // ---- Ageing ------------------------------------------------------------------------------

  /** One record aged: OPT keeps its flags, every other TTL drops by `elapsed`, stopping at zero. */
  function AgeOne(m: Bytes, rr: Record, elapsed: u32): Bytes
    requires rr.ttlOffset + 4 <= |m|
  {
    if rr.kind == TYPE_OPT then m else PutU32(m, rr.ttlOffset, SatSub(rr.ttl, elapsed))
  }

  datatype Aged = Aged(ok: bool, bytes: Bytes)

  datatype Turn = Stuck | Moved(bytes: Bytes, next: nat)

  /** One turn of the ageing loop: parse the record at `offset` in the current buffer, age it, move past it. */
  function AgeTurn(m: Bytes, offset: nat, elapsed: u32): Turn {
    match ParseRR(m, offset)
    case None => Stuck
    case Some(rr) => Moved(AgeOne(m, rr, elapsed), rr.end)
  }

  /** The ageing loop: each record is parsed from the buffer the earlier ones have already changed. */
  function AgeFrom(m: Bytes, offset: nat, count: nat, elapsed: u32): Aged
    decreases count
  {
    if count == 0 then Aged(offset == |m|, m)
    else
      match AgeTurn(m, offset, elapsed)
      case Stuck => Aged(false, m)
      case Moved(b, next) => AgeFrom(b, next, count - 1, elapsed)
  }

  function AdjustTtls(m: Bytes, elapsedSecs: nat): Aged {
    if |m| < HEADER_LEN || QuestionsEnd(m).None? then Aged(false, m)
    else AgeFrom(m, QuestionsEnd(m).value, TotalCount(m), Min(elapsedSecs, U32_MAX))
  }

  method AgeOneInPlace(message: array<byte>, rr: Record, elapsed: u32)
    requires rr.ttlOffset + 4 <= message.Length
    modifies message
    ensures message[..] == AgeOne(old(message[..]), rr, elapsed)
  {
    if rr.kind != TYPE_OPT {
      var left := SatSub(rr.ttl, elapsed);
      for k := 0 to 4
        invariant forall i | 0 <= i < message.Length ::
            message[i] ==
            if rr.ttlOffset <= i < rr.ttlOffset + k then Octet(left, i - rr.ttlOffset) else old(message[i])
      {
        message[rr.ttlOffset + k] := Octet(left, k);
      }
    }
  }

  method AgeTurnInPlace(message: array<byte>, offset: nat, elapsed: u32) returns (next: Option<nat>)
    modifies message
    ensures AgeTurn(old(message[..]), offset, elapsed)
            == match next case None => Stuck case Some(end) => Moved(message[..], end)
    ensures next.None? ==> message[..] == old(message[..])
  {
    var parsed := ParseRR(message[..], offset);
    if parsed.None? {
      return None;
    }
    AgeOneInPlace(message, parsed.value, elapsed);
    return Some(parsed.value.end);
  }

  lemma AgeFromTurn(m: Bytes, offset: nat, count: nat, elapsed: u32)
    requires count > 0
    ensures AgeFrom(m, offset, count, elapsed)
            == match AgeTurn(m, offset, elapsed)
               case Stuck => Aged(false, m)
               case Moved(b, next) => AgeFrom(b, next, count - 1, elapsed)
  {
  }

  method AgeRecords(message: array<byte>, start: nat, count: nat, elapsed: u32) returns (ok: bool)
    modifies message
    ensures AgeFrom(old(message[..]), start, count, elapsed) == Aged(ok, message[..])
  {
    var offset := start;
    var left := count;
    ghost var expected := AgeFrom(message[..], offset, count, elapsed);
    while left > 0
      invariant expected == AgeFrom(message[..], offset, left, elapsed)
    {
      ghost var before := message[..];
      var next := AgeTurnInPlace(message, offset, elapsed);
      AgeFromTurn(before, offset, left, elapsed);
      if next.None? {
        return false;
      }
      offset := next.value;
      left := left - 1;
    }
    return offset == message.Length;
  }

  /** Decrease every record TTL in place. */
  method AdjustTtlsInPlace(message: array<byte>, elapsedSecs: nat) returns (ok: bool)
    modifies message
    ensures AdjustTtls(old(message[..]), elapsedSecs) == Aged(ok, message[..])
  {
    if message.Length < HEADER_LEN {
      return false;
    }
    var start := FindQuestionsEnd(message[..]);
    if start.None? {
      return false;
    }
    ok := AgeRecords(message, start.value, TotalCount(message[..]), Min(elapsedSecs, U32_MAX));
  }

  // ---- What a successful ageing did ------------------------------------------------------------

  /** Octet `i` belongs to the TTL of a record that ages. */
  ghost predicate InTtl(records: seq<Record>, i: int) {
    exists k :: 0 <= k < |records| && records[k].kind != TYPE_OPT &&
                records[k].ttlOffset <= i < records[k].ttlOffset + 4
  }

  /** `aged` is `m` with exactly the TTLs of `records` reduced, octet for octet. */
  ghost predicate IsAged(m: Bytes, aged: Bytes, records: seq<Record>, elapsed: nat) {
    |aged| == |m| &&
    (forall i {:trigger InTtl(records, i)} | 0 <= i < |m| && !InTtl(records, i) :: aged[i] == m[i]) &&
    (forall k | 0 <= k < |records| && records[k].kind != TYPE_OPT ::
       ReadU32(aged, records[k].ttlOffset) == Some(SatSub(records[k].ttl, elapsed)))
  }

  lemma IsAgedUnique(m: Bytes, a: Bytes, b: Bytes, records: seq<Record>, elapsed: nat)
    requires IsAged(m, a, records, elapsed) && IsAged(m, b, records, elapsed)
    ensures a == b
  {
    forall i | 0 <= i < |m| ensures a[i] == b[i] {
      if InTtl(records, i) {
        var k :| 0 <= k < |records| && records[k].kind != TYPE_OPT &&
                 records[k].ttlOffset <= i < records[k].ttlOffset + 4;
        SameFieldSameOctets(a, b, records[k].ttlOffset);
      }
    }
  }

  /** A record after ageing: only its TTL moved. */
  function AgedRecord(rr: Record, elapsed: nat): Record {
    if rr.kind == TYPE_OPT then rr else rr.(ttl := SatSub(rr.ttl, elapsed))
  }

  function AgedRecords(records: seq<Record>, elapsed: nat): seq<Record> {
    seq(|records|, k requires 0 <= k < |records| => AgedRecord(records[k], elapsed))
  }

  /** `b` is `m` with the TTL of `rr` alone reduced. */
  ghost predicate AgedOnce(m: Bytes, b: Bytes, rr: Record, elapsed: nat) {
    |b| == |m|
    && (forall i | 0 <= i < |m| && !(rr.kind != TYPE_OPT && rr.ttlOffset <= i < rr.ttlOffset + 4) :: b[i] == m[i])
    && (rr.kind != TYPE_OPT ==> ReadU32(b, rr.ttlOffset) == Some(SatSub(rr.ttl, elapsed)))
  }

  lemma AgedRecordsCons(rr: Record, rest: seq<Record>, elapsed: nat)
    ensures AgedRecords([rr] + rest, elapsed) == [AgedRecord(rr, elapsed)] + AgedRecords(rest, elapsed)
  {
  }

  lemma AgeOneEffect(m: Bytes, rr: Record, elapsed: u32)
    requires rr.ttlOffset + 4 <= |m|
    ensures AgedOnce(m, AgeOne(m, rr, elapsed), rr, elapsed)
  {
    if rr.kind != TYPE_OPT {
      ReadBackU32(m, rr.ttlOffset, SatSub(rr.ttl, elapsed));
    }
  }

  lemma AgedOnceKeepsRecord(m: Bytes, b: Bytes, offset: nat, rr: Record, elapsed: u32)
    requires InlineRR(m, offset) == Some(rr) && AgedOnce(m, b, rr, elapsed)
    ensures InlineRR(b, offset) == Some(AgedRecord(rr, elapsed))
  {
    InlineEndBounds(m, offset);
    InlineEndIsLocal(m, b, offset);
    RecordBounds(m, offset, rr);
  }

  lemma InTtlCons(rr: Record, rest: seq<Record>, i: int)
    ensures InTtl([rr] + rest, i) <==> (rr.kind != TYPE_OPT && rr.ttlOffset <= i < rr.ttlOffset + 4) || InTtl(rest, i)
  {
    var records := [rr] + rest;
    assert records[0] == rr;
    forall k | 0 <= k < |rest| ensures records[k + 1] == rest[k] {
    }
    if InTtl(rest, i) {
      var k :| 0 <= k < |rest| && rest[k].kind != TYPE_OPT && rest[k].ttlOffset <= i < rest[k].ttlOffset + 4;
      assert records[k + 1] == rest[k];
    }
    if InTtl(records, i) {
      var k :| 0 <= k < |records| && records[k].kind != TYPE_OPT &&
               records[k].ttlOffset <= i < records[k].ttlOffset + 4;
      assert k > 0 ==> records[k] == rest[k - 1];
    }
  }

  lemma IsAgedCons(m: Bytes, b: Bytes, aged: Bytes, rr: Record, rest: seq<Record>, elapsed: nat)
    requires AgedOnce(m, b, rr, elapsed) && rr.ttlOffset + 4 <= rr.end <= |m|
    requires IsAged(b, aged, rest, elapsed) && forall i | 0 <= i < rr.end :: aged[i] == b[i]
    ensures IsAged(m, aged, [rr] + rest, elapsed)
  {
    var records := [rr] + rest;
    forall i | 0 <= i < |m| && !InTtl(records, i) ensures aged[i] == m[i] {
      InTtlCons(rr, rest, i);
    }
    forall k | 0 <= k < |records| && records[k].kind != TYPE_OPT
      ensures ReadU32(aged, records[k].ttlOffset) == Some(SatSub(records[k].ttl, elapsed))
    {
      if k > 0 {
        assert records[k] == rest[k - 1];
      }
    }
  }

  /** Everything a successful ageing from `offset` guarantees, against the original buffer's layout. */
  ghost predicate AgedTail(m: Bytes, aged: Bytes, offset: nat, records: seq<Record>, elapsed: nat) {
    IsLayout(m, offset, records) && LayoutEnd(offset, records) == |m|
    && IsAged(m, aged, records, elapsed) && IsLayout(aged, offset, AgedRecords(records, elapsed))
    && forall i | 0 <= i < offset && i < |m| :: aged[i] == m[i]
  }

  lemma AgedTailCons(m: Bytes, b: Bytes, aged: Bytes, offset: nat, rr: Record, rest: seq<Record>, elapsed: u32)
    requires offset <= |m| && InlineRR(m, offset) == Some(rr) && AgedOnce(m, b, rr, elapsed)
    requires AgedTail(b, aged, rr.end, rest, elapsed)
    ensures AgedTail(m, aged, offset, [rr] + rest, elapsed)
  {
    RecordBounds(m, offset, rr);
    LayoutIsLocal(b, m, rr.end, rest);
    IsLayoutCons(m, offset, rr, rest);
    IsAgedCons(m, b, aged, rr, rest, elapsed);
    AgedOnceKeepsRecord(m, b, offset, rr, elapsed);
    InlineRRIsLocal(b, aged, offset, AgedRecord(rr, elapsed));
    IsLayoutCons(aged, offset, AgedRecord(rr, elapsed), AgedRecords(rest, elapsed));
    AgedRecordsCons(rr, rest, elapsed);
  }

  /** A completed ageing as a list of turns: the record aged and the buffer it left. */
  datatype Run = Done | Turned(rr: Record, b: Bytes, rest: Run)

  ghost predicate Ran(m: Bytes, offset: nat, run: Run, count: nat, elapsed: u32, aged: Bytes)
    decreases run
  {
    match run
    case Done => count == 0 && offset == |m| && aged == m
    case Turned(rr, b, rest) =>
      count > 0 && InlineRR(m, offset) == Some(rr) && AgedOnce(m, b, rr, elapsed) &&
      Ran(b, rr.end, rest, count - 1, elapsed, aged)
  }

  lemma TurnEffect(m: Bytes, offset: nat, elapsed: u32) returns (rr: Record)
    requires AgeTurn(m, offset, elapsed).Moved?
    ensures var Moved(b, next) := AgeTurn(m, offset, elapsed);
            InlineRR(m, offset) == Some(rr) && rr.end == next && AgedOnce(m, b, rr, elapsed)
  {
    ParseIsInline(m, offset);
    rr := ParseRR(m, offset).value;
    RecordBounds(m, offset, rr);
    AgeOneEffect(m, rr, elapsed);
  }

  lemma {:induction false} AgeFromRuns(m: Bytes, offset: nat, count: nat, elapsed: u32) returns (run: Run)
    requires AgeFrom(m, offset, count, elapsed).ok
    ensures Ran(m, offset, run, count, elapsed, AgeFrom(m, offset, count, elapsed).bytes)
    decreases count
  {
    if count == 0 {
      run := Done;
    } else {
      var rr := TurnEffect(m, offset, elapsed);
      var Moved(b, next) := AgeTurn(m, offset, elapsed);
      var rest := AgeFromRuns(b, next, count - 1, elapsed);
      run := Turned(rr, b, rest);
    }
  }

  lemma {:induction false} RunEffect(m: Bytes, offset: nat, run: Run, count: nat, elapsed: u32, aged: Bytes)
    returns (records: seq<Record>)
    requires Ran(m, offset, run, count, elapsed, aged) && offset <= |m|
    ensures |records| == count && AgedTail(m, aged, offset, records, elapsed)
    decreases run
  {
    match run
    case Done =>
      records := [];
      assert AgedRecords([], elapsed) == [];
    case Turned(rr, b, rest) =>
      RecordBounds(m, offset, rr);
      var tail := RunEffect(b, rr.end, rest, count - 1, elapsed, aged);
      AgedTailCons(m, b, aged, offset, rr, tail, elapsed);
      records := [rr] + tail;
  }
}
