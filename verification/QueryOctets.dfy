/** Cache metadata told from the octets of a query: who bypasses the cache, and which queries share an entry. */
module QueryOctets {
  import opened Prelude
  import opened Names
  import opened Questions
  import opened Records
  import opened QueryMetadata

  // ---- Records by their octets ----------------------------------------------------------------------

  /** A record from `at` to `end`: an owner name, ten fixed octets and as much RDATA as the last two of them say. */
  ghost predicate SpansRecord(m: Bytes, at: nat, end: nat) {
    Walk(m, at, 0, 0).Some? &&
    var fixed := Walk(m, at, 0, 0).value.end;
    fixed + 10 <= |m| && end == fixed + 10 + Pair(m, fixed + 8) && end <= |m|
  }

  /** Consecutive records, each ending where the next begins. */
  ghost predicate SpansRecords(m: Bytes, ends: seq<nat>) {
    forall k | 0 <= k < |ends| - 1 :: SpansRecord(m, ends[k], ends[k + 1])
  }

  ghost predicate Spans(m: Bytes, ends: seq<nat>, at: nat, count: nat, end: nat) {
    |ends| == count + 1 && ends[0] == at && ends[count] == end && SpansRecords(m, ends)
  }

  lemma OneSpan(m: Bytes, at: nat, end: nat)
    ensures SpansRecord(m, at, end) <==> ParseRR(m, at).Some? && ParseRR(m, at).value.end == end
  {
    if Walk(m, at, 0, 0).Some? && Walk(m, at, 0, 0).value.end + 10 <= |m| {
      PairIsField(m, Walk(m, at, 0, 0).value.end + 8);
    }
  }

  lemma {:induction false} SkippedSpans(m: Bytes, at: nat, count: nat) returns (ends: seq<nat>)
    requires SkipRecords(m, at, count).Some?
    ensures Spans(m, ends, at, count, SkipRecords(m, at, count).value)
    decreases count
  {
    if count == 0 {
      ends := [at];
    } else {
      var next := ParseRR(m, at).value.end;
      OneSpan(m, at, next);
      var rest := SkippedSpans(m, next, count - 1);
      ends := [at] + rest;
      forall k | 0 <= k < |ends| - 1 ensures SpansRecord(m, ends[k], ends[k + 1]) {
        if k > 0 {
          assert SpansRecord(m, rest[k - 1], rest[k]);
        }
      }
    }
  }

  lemma {:induction false} SpansSkip(m: Bytes, ends: seq<nat>, at: nat, count: nat, end: nat)
    requires Spans(m, ends, at, count, end)
    ensures SkipRecords(m, at, count) == Some(end)
    decreases count
  {
    if count > 0 {
      OneSpan(m, at, ends[1]);
      assert SpansRecord(m, ends[0], ends[1]);
      forall k | 0 <= k < |ends[1..]| - 1 ensures SpansRecord(m, ends[1..][k], ends[1..][k + 1]) {
        assert SpansRecord(m, ends[k + 1], ends[k + 2]);
      }
      SpansSkip(m, ends[1..], ends[1], count - 1, end);
    }
  }

  // ---- Which queries have metadata ----------------------------------------------------------------------

  /** A query of opcode 0 with RD set and one question. */
  ghost predicate PlainHeader(m: Bytes) {
    |m| >= HEADER_LEN && m[2] < 8 && m[2] % 2 == 1 && m[4] == 0 && m[5] == 1
  }

  /** The last ten octets are the fixed part of an option-free OPT of version 0 that begins at `at`. */
  ghost predicate EndsInOpt(m: Bytes, at: nat) {
    Walk(m, at, 0, 0).Some? && Walk(m, at, 0, 0).value.end + 10 == |m|
    && m[|m| - 10] == 0 && m[|m| - 9] == 41 && m[|m| - 5] == 0 && m[|m| - 2] == 0 && m[|m| - 1] == 0
  }

  /** Nothing follows the records, or one OPT record does, as ARCOUNT says. */
  ghost predicate EndsPlainly(m: Bytes, at: nat)
    requires |m| >= HEADER_LEN
  {
    m[10] == 0 && ((m[11] == 0 && at == |m|) || (m[11] == 1 && EndsInOpt(m, at)))
  }

  /** The question, ANCOUNT and NSCOUNT records, and the end. */
  ghost predicate LaidOut(m: Bytes, labels: seq<Bytes>, q: nat, ends: seq<nat>)
    requires |m| >= HEADER_LEN
  {
    var count := Pair(m, 6) + Pair(m, 8);
    IsQuestion(m, labels, q) && |ends| == count + 1 && Spans(m, ends, q + 4, count, ends[count])
    && EndsPlainly(m, ends[count])
  }

  lemma HeaderIsPlain(m: Bytes)
    ensures CacheableHeader(m) <==> PlainHeader(m)
  {
    if |m| >= HEADER_LEN {
      U16Octets(m, 4, 1);
    }
  }

  lemma OptTaken(m: Bytes, at: nat)
    ensures (TakeOpt(m, FreshEdns(at)).Some? && TakeOpt(m, FreshEdns(at)).value.offset == |m|) <==> EndsInOpt(m, at)
    ensures EndsInOpt(m, at) ==>
              var e := TakeOpt(m, FreshEdns(at)).value;
              e.sawOpt && (e.doBit <==> m[|m| - 4] >= 0x80) && e.udpSize == Clamp(Pair(m, |m| - 8))
  {
    if Walk(m, at, 0, 0).Some? && Walk(m, at, 0, 0).value.end + 10 <= |m| {
      var fixed := Walk(m, at, 0, 0).value.end;
      OptOctets(m, fixed);
    }
  }

  /** The fields of an OPT record's fixed part, octet by octet. */
  lemma OptOctets(m: Bytes, fixed: nat)
    requires fixed + 10 <= |m|
    ensures ReadU16(m, fixed) == Some(TYPE_OPT) <==> m[fixed] == 0 && m[fixed + 1] == 41
    ensures ReadU16(m, fixed + 8) == Some(0) <==> m[fixed + 8] == 0 && m[fixed + 9] == 0
    ensures var ttl := ReadU32(m, fixed + 4).value;
            ttl / 0x1_0000 % 0x100 == m[fixed + 5] && (ttl / 0x8000 % 2 == 1 <==> m[fixed + 6] >= 0x80)
  {
    U16Octets(m, fixed, TYPE_OPT);
    U16Octets(m, fixed + 8, 0);
    U32Octets(m, fixed + 4, ReadU32(m, fixed + 4).value);
    HighBit(ReadU32(m, fixed + 4).value);
  }

  lemma HighBit(v: u32)
    ensures v / 0x8000 % 2 == 1 <==> v / 0x100 % 0x100 >= 0x80
  {
    var k := v / 0x8000;
    assert v / 0x100 == 0x80 * k + v % 0x8000 / 0x100;
    assert k == 2 * (k / 2) + k % 2;
  }

  lemma AdditionalsTaken(m: Bytes, at: nat)
    requires |m| >= HEADER_LEN
    ensures var taken := TakeOpts(m, FreshEdns(at), AdditionalCount(m));
            (taken.Some? && taken.value.offset == |m|) <==> EndsPlainly(m, at)
    ensures EndsPlainly(m, at) && m[11] == 0 ==> TakeOpts(m, FreshEdns(at), AdditionalCount(m)) == Some(FreshEdns(at))
    ensures EndsPlainly(m, at) && m[11] == 1 ==>
              TakeOpts(m, FreshEdns(at), AdditionalCount(m)) == TakeOpt(m, FreshEdns(at))
  {
    var count := AdditionalCount(m);
    U16Octets(m, 10, 0);
    U16Octets(m, 10, 1);
    OptTaken(m, at);
    if TakeOpts(m, FreshEdns(at), count).Some? {
      TakeOptsAtMostOnce(m, FreshEdns(at), count);
    }
    if count == 1 && TakeOpt(m, FreshEdns(at)).Some? {
      var e := TakeOpt(m, FreshEdns(at)).value;
      assert TakeOpts(m, e, 0) == Some(e);
    }
  }

  /** A query takes part in caching exactly when it is laid out so; every other query bypasses the cache. */
  lemma MetadataExactly(m: Bytes)
    ensures QueryMetaOf(m).Some? <==> PlainHeader(m) && exists labels, q: nat, ends :: LaidOut(m, labels, q, ends)
  {
    HeaderIsPlain(m);
    if QueryMetaOf(m).Some? {
      var labels, q, ends := LayoutOf(m);
    }
    if PlainHeader(m) {
      forall labels, q: nat, ends | LaidOut(m, labels, q, ends) ensures QueryMetaOf(m).Some? {
        LaidOutIsTaken(m, labels, q, ends);
      }
    }
  }

  lemma LayoutOf(m: Bytes) returns (labels: seq<Bytes>, q: nat, ends: seq<nat>)
    requires QueryMetaOf(m).Some?
    ensures LaidOut(m, labels, q, ends)
  {
    var w := Walk(m, HEADER_LEN, 0, 0).value;
    labels, q := w.labels, w.end;
    ends := SkippedSpans(m, q + 4, AnswerAndAuthorityCount(m));
    AdditionalsTaken(m, ends[|ends| - 1]);
  }

  lemma LaidOutIsTaken(m: Bytes, labels: seq<Bytes>, q: nat, ends: seq<nat>)
    requires PlainHeader(m) && LaidOut(m, labels, q, ends)
    ensures QueryMetaOf(m).Some?
    ensures var taken := TakeOpts(m, FreshEdns(ends[|ends| - 1]), AdditionalCount(m));
            taken.Some? && QueryMetaOf(m).value.udpSize == taken.value.udpSize
            && QueryMetaOf(m).value.key == KeyOf(m, NameAt(m, HEADER_LEN).value, taken.value)
  {
    var count := |ends| - 1;
    HeaderIsPlain(m);
    SpansSkip(m, ends, q + 4, count, ends[count]);
    PairIsField(m, 6);
    PairIsField(m, 8);
    AdditionalsTaken(m, ends[count]);
    TakenHasMetadata(m, labels, q, ends[count]);
  }

  lemma TakenHasMetadata(m: Bytes, labels: seq<Bytes>, q: nat, at: nat)
    requires CacheableHeader(m) && IsQuestion(m, labels, q)
    requires SkipRecords(m, q + 4, AnswerAndAuthorityCount(m)) == Some(at)
    requires var taken := TakeOpts(m, FreshEdns(at), AdditionalCount(m)); taken.Some? && taken.value.offset == |m|
    ensures var e := TakeOpts(m, FreshEdns(at), AdditionalCount(m)).value;
            QueryMetaOf(m) == Some(QueryMeta(KeyOf(m, NameAt(m, HEADER_LEN).value, e), e.udpSize))
  {
  }

  // ---- What the metadata is ----------------------------------------------------------------------------

  /** The key and the UDP size, field by field. */
  lemma MetadataOctets(m: Bytes, labels: seq<Bytes>, q: nat)
    requires QueryMetaOf(m).Some? && IsQuestion(m, labels, q)
    ensures |m| >= HEADER_LEN && (m[11] == 0 || (m[11] == 1 && |m| >= HEADER_LEN + 10))
    ensures var key := QueryMetaOf(m).value.key;
            key.qname == Fold(Flatten(labels))
            && key.qtype == Pair(m, q) && key.qclass == Pair(m, q + 2)
            && (key.edns <==> m[11] == 1) && (key.doBit <==> m[11] == 1 && m[|m| - 4] >= 0x80)
            && key.dnssecHeaderBits == m[3] / 0x10 % 4 * 0x10
    ensures QueryMetaOf(m).value.udpSize
            == if m[11] == 0 then 512 else Max(512, Min(4096, Pair(m, |m| - 8)))
  {
    HeaderIsPlain(m);
    var also, at, ends := LayoutOf(m);
    LaidOutIsTaken(m, also, at, ends);
    var last := ends[|ends| - 1];
    AdditionalsTaken(m, last);
    OptTaken(m, last);
    LaidOutEnd(m, also, at, ends);
    assert (also, at) == (labels, q);
    KeyOctets(m, labels, q, TakeOpts(m, FreshEdns(last), AdditionalCount(m)).value);
  }

  lemma KeyOctets(m: Bytes, labels: seq<Bytes>, q: nat, e: Edns)
    requires |m| >= HEADER_LEN && IsQuestion(m, labels, q)
    ensures KeyOf(m, NameAt(m, HEADER_LEN).value, e)
            == QueryKey(Fold(Flatten(labels)), Pair(m, q), Pair(m, q + 2), e.doBit, e.sawOpt, m[3] / 0x10 % 4 * 0x10)
  {
    PairIsField(m, q);
    PairIsField(m, q + 2);
  }

  lemma {:induction false} LayoutGrows(m: Bytes, ends: seq<nat>)
    requires |ends| > 0 && SpansRecords(m, ends)
    ensures ends[|ends| - 1] >= ends[0]
    decreases |ends|
  {
    if |ends| > 1 {
      var last := |ends| - 2;
      assert SpansRecord(m, ends[last], ends[last + 1]);
      WalkEndIsInline(m, ends[last], 0, 0);
      var before := ends[..last + 1];
      forall k | 0 <= k < |before| - 1 ensures SpansRecord(m, before[k], before[k + 1]) {
        assert SpansRecord(m, ends[k], ends[k + 1]);
      }
      LayoutGrows(m, before);
    }
  }

  lemma LaidOutEnd(m: Bytes, labels: seq<Bytes>, q: nat, ends: seq<nat>)
    requires PlainHeader(m) && LaidOut(m, labels, q, ends)
    ensures m[11] == 0 || (m[11] == 1 && |m| >= HEADER_LEN + 10)
  {
    WalkEndIsInline(m, HEADER_LEN, 0, 0);
    if m[11] == 1 {
      LayoutGrows(m, ends);
      WalkEndIsInline(m, ends[|ends| - 1], 0, 0);
    }
  }

  /** Both queries carry an OPT record or neither does, and the top bit of its third TTL octet, DO, agrees. */
  ghost predicate SameOpt(a: Bytes, b: Bytes)
    requires |a| >= HEADER_LEN && |b| >= HEADER_LEN
  {
    a[11] == b[11] && (a[11] == 1 ==> (a[|a| - 4] >= 0x80 <==> b[|b| - 4] >= 0x80))
  }

  /** AD and CD are the bits 0x20 and 0x10 of the fourth octet. */
  ghost predicate SameDnssecBits(a: Bytes, b: Bytes)
    requires |a| >= HEADER_LEN && |b| >= HEADER_LEN
  {
    a[3] / 0x20 % 2 == b[3] / 0x20 % 2 && a[3] / 0x10 % 2 == b[3] / 0x10 % 2
  }

  /**
   * Two queries share a cache entry exactly when they ask one question, up to ASCII case, with the same EDNS, DO, AD
   * and CD.
   */
  lemma EqualKeysExactly(a: Bytes, b: Bytes)
    requires QueryMetaOf(a).Some? && QueryMetaOf(b).Some?
    ensures QueryMetaOf(a).value.key == QueryMetaOf(b).value.key <==>
            AskAlike(a, b) && SameOpt(a, b) && SameDnssecBits(a, b)
  {
    var wa, wb := Walk(a, HEADER_LEN, 0, 0).value, Walk(b, HEADER_LEN, 0, 0).value;
    MetadataOctets(a, wa.labels, wa.end);
    MetadataOctets(b, wb.labels, wb.end);
    WalkIsFramed(a, HEADER_LEN, 0, 0);
    WalkIsFramed(b, HEADER_LEN, 0, 0);
    CanonicalNamesDecideLabels(wa.labels, wb.labels);
    SameFourOctets(a, wa.end, b, wb.end);
    SameBits(a[3], b[3]);
    if SameLabelsUpToCase(wa.labels, wb.labels) && a[wa.end..wa.end + 4] == b[wb.end..wb.end + 4] {
      assert IsQuestion(a, wa.labels, wa.end) && IsQuestion(b, wb.labels, wb.end);
    }
  }

  lemma SameFourOctets(a: Bytes, i: nat, b: Bytes, j: nat)
    requires i + 4 <= |a| && j + 4 <= |b|
    ensures a[i..i + 4] == b[j..j + 4] <==>
            Pair(a, i) == Pair(b, j) && Pair(a, i + 2) == Pair(b, j + 2)
  {
    var s, t := a[i..i + 4], b[j..j + 4];
    assert s[0] == a[i] && s[1] == a[i + 1] && s[2] == a[i + 2] && s[3] == a[i + 3];
    assert t[0] == b[j] && t[1] == b[j + 1] && t[2] == b[j + 2] && t[3] == b[j + 3];
  }

  lemma SameBits(x: byte, y: byte)
    ensures x / 0x10 % 4 * 0x10 == y / 0x10 % 4 * 0x10 <==> x / 0x20 % 2 == y / 0x20 % 2 && x / 0x10 % 2 == y / 0x10 % 2
  {
    TwoBits(x);
    TwoBits(y);
  }

  lemma TwoBits(x: byte)
    ensures x / 0x10 % 4 == x / 0x20 % 2 * 2 + x / 0x10 % 2
  {
    var p := x / 0x10;
    assert p / 2 == x / 0x20;
    assert p == 2 * (p / 2) + p % 2;
    assert p / 2 == 2 * (p / 2 / 2) + p / 2 % 2;
  }

  // ---- The UDP size of any query ---------------------------------------------------------------------------

  /** Where the fixed part of the first OPT among `count` records from `at` begins, if one can be reached. */
  ghost function FirstOpt(m: Bytes, at: nat, count: nat): (r: Option<nat>)
    ensures r.Some? ==> r.value + 10 <= |m|
    decreases count
  {
    if count == 0 || Walk(m, at, 0, 0).None? then None
    else
      var fixed := Walk(m, at, 0, 0).value.end;
      if fixed + 10 > |m| || fixed + 10 + Pair(m, fixed + 8) > |m| then None
      else if m[fixed] == 0 && m[fixed + 1] == 41 then Some(fixed)
      else FirstOpt(m, fixed + 10 + Pair(m, fixed + 8), count - 1)
  }

  /** The class of an OPT record is the sender's buffer size. */
  ghost function SizeGranted(m: Bytes, opt: Option<nat>): nat
    requires opt.Some? ==> opt.value + 10 <= |m|
  {
    if opt.None? then 512 else Max(512, Min(4096, Pair(m, opt.value + 2)))
  }

  lemma SizeStep(m: Bytes, at: nat, count: nat, fixed: nat)
    requires count > 0 && Walk(m, at, 0, 0).Some? && fixed == Walk(m, at, 0, 0).value.end
    ensures FirstOptSize(m, at, count)
            == match RecordAt(m, fixed)
               case None => 512
               case Some(rr) =>
                 if rr.kind == TYPE_OPT then Max(512, Min(4096, rr.class_)) else FirstOptSize(m, rr.end, count - 1)
  {
  }

  lemma OptStep(m: Bytes, at: nat, count: nat, fixed: nat)
    requires count > 0 && Walk(m, at, 0, 0).Some? && fixed == Walk(m, at, 0, 0).value.end
    ensures FirstOpt(m, at, count)
            == match RecordAt(m, fixed)
               case None => None
               case Some(rr) => if rr.kind == TYPE_OPT then Some(fixed) else FirstOpt(m, rr.end, count - 1)
  {
    RecordOctets(m, fixed);
    if fixed + 10 <= |m| {
      U16Octets(m, fixed, TYPE_OPT);
    }
  }

  lemma {:induction false} FirstOptSizes(m: Bytes, at: nat, count: nat)
    ensures FirstOptSize(m, at, count) == SizeGranted(m, FirstOpt(m, at, count))
    decreases count
  {
    if count > 0 && Walk(m, at, 0, 0).Some? {
      var fixed := Walk(m, at, 0, 0).value.end;
      SizeStep(m, at, count, fixed);
      OptStep(m, at, count, fixed);
      RecordOctets(m, fixed);
      if RecordAt(m, fixed).Some? {
        FirstOptSizes(m, RecordAt(m, fixed).value.end, count - 1);
      }
    }
  }

  /** The additional section begins at the last of `ends`: questions and records before it can be skipped. */
  ghost predicate AdditionalAt(m: Bytes, ends: seq<nat>) {
    |m| >= HEADER_LEN && QuestionsEnd(m).Some? && |ends| == Pair(m, 6) + Pair(m, 8) + 1
    && Spans(m, ends, QuestionsEnd(m).value, Pair(m, 6) + Pair(m, 8), ends[|ends| - 1])
  }

  /** The size granted is the class of the first additional OPT, between 512 and 4096; 512 if none can be reached. */
  lemma UdpSizeOctets(m: Bytes)
    ensures forall ends | AdditionalAt(m, ends) ::
              UdpPayloadSize(m) == SizeGranted(m, FirstOpt(m, ends[|ends| - 1], Pair(m, 10)))
    ensures (forall ends :: !AdditionalAt(m, ends)) ==> UdpPayloadSize(m) == 512
  {
    if |m| >= HEADER_LEN && QuestionsEnd(m).Some? {
      PairIsField(m, 6);
      PairIsField(m, 8);
      PairIsField(m, 10);
      var start, count := QuestionsEnd(m).value, AnswerAndAuthorityCount(m);
      forall ends | AdditionalAt(m, ends)
        ensures UdpPayloadSize(m) == SizeGranted(m, FirstOpt(m, ends[|ends| - 1], Pair(m, 10)))
      {
        SpansSkip(m, ends, start, count, ends[|ends| - 1]);
        FirstOptSizes(m, ends[|ends| - 1], Pair(m, 10));
      }
      if SkipRecords(m, start, count).Some? {
        var ends := SkippedSpans(m, start, count);
        assert AdditionalAt(m, ends);
      }
    }
  }
}
