/** Compressed domain names (section 4.1.4 of RFC 1035): the bounded walk and what it means. */
module Names {
  import opened Prelude

  const MAX_JUMPS: nat := 128
  const MAX_NAME: nat := 255

  /** What a successful walk reports: each visited wire label, and where the inline part ends. */
  datatype Walked = Walked(labels: seq<Bytes>, end: nat)

  function Target(m: Bytes, cursor: nat): nat
    requires cursor + 1 < |m| && m[cursor] >= 0xc0
  {
    (m[cursor] - 0xc0) as int * 0x100 + m[cursor + 1]
  }

  /** The walk from `cursor` after `jumps` pointers and `used` label octets. */
  function Walk(m: Bytes, cursor: nat, jumps: nat, used: nat): Option<Walked>
    requires jumps <= MAX_JUMPS && used < MAX_NAME
    decreases MAX_JUMPS - jumps + (MAX_NAME - used), |m|
  {
    if cursor >= |m| then None
    else if m[cursor] >= 0xc0 then
      if cursor + 1 >= |m| || Target(m, cursor) >= |m| || jumps >= MAX_JUMPS then None
      else
        match Walk(m, Target(m, cursor), jumps + 1, used)
        case None => None
        case Some(w) => Some(Walked(w.labels, cursor + 2))
    else if m[cursor] > 63 then None
    else if m[cursor] == 0 then Some(Walked([[0]], cursor + 1))
    else
      var next := cursor + 1 + m[cursor];
      if next > |m| || used + 1 + m[cursor] >= MAX_NAME then None
      else
        match Walk(m, next, jumps, used + 1 + m[cursor])
        case None => None
        case Some(w) => Some(Walked([m[cursor..next]] + w.labels, w.end))
  }

  // ---- The loop -------------------------------------------------------------------------

  /** What the whole walk gives once the rest of it is known. */
  ghost function Resume(rest: Option<Walked>, visited: seq<Bytes>, end: Option<nat>): Option<Walked> {
    match rest
    case None => None
    case Some(w) => Some(Walked(visited + w.labels, if end.Some? then end.value else w.end))
  }

  lemma ResumeLabel(m: Bytes, at: nat, jumps: nat, used: nat, visited: seq<Bytes>, end: Option<nat>)
    requires jumps <= MAX_JUMPS && at < |m| && 0 < m[at] <= 63 && at + 1 + m[at] <= |m|
    requires used + 1 + m[at] < MAX_NAME
    ensures var next := at + 1 + m[at];
            Resume(Walk(m, at, jumps, used), visited, end)
            == Resume(Walk(m, next, jumps, used + 1 + m[at]), visited + [m[at..next]], end)
  {
    var next := at + 1 + m[at];
    match Walk(m, next, jumps, used + 1 + m[at])
    case None =>
    case Some(w) => assert visited + ([m[at..next]] + w.labels) == visited + [m[at..next]] + w.labels;
  }

  lemma ResumePointer(m: Bytes, at: nat, jumps: nat, used: nat, visited: seq<Bytes>, end: Option<nat>)
    requires jumps < MAX_JUMPS && used < MAX_NAME && at + 1 < |m| && m[at] >= 0xc0 && Target(m, at) < |m|
    ensures Resume(Walk(m, at, jumps, used), visited, end)
            == Resume(Walk(m, Target(m, at), jumps + 1, used), visited, if end.Some? then end else Some(at + 2))
  {
  }

  lemma ResumeStart(whole: Option<Walked>)
    ensures whole == Resume(whole, [], None)
  {
    assert whole.Some? ==> [] + whole.value.labels == whole.value.labels;
  }

  /** Validate the expanded name, visiting each wire label in order. */
  method WalkName(m: Bytes, start: nat) returns (r: Option<nat>, visited: seq<Bytes>)
    ensures Walk(m, start, 0, 0) == if r.None? then None else Some(Walked(visited, r.value))
  {
    var cursor: nat, jumps: nat, nameLen: nat, end: Option<nat> := start, 0, 0, None;
    visited := [];
    ghost var whole := Walk(m, start, 0, 0);
    ResumeStart(whole);
    while true
      invariant jumps <= MAX_JUMPS && nameLen < MAX_NAME
      invariant whole == Resume(Walk(m, cursor, jumps, nameLen), visited, end)
      decreases MAX_JUMPS - jumps + (MAX_NAME - nameLen)
    {
      if cursor >= |m| {
        return None, visited;
      }
      var len := m[cursor];
      if len >= 0xc0 {
        if cursor + 1 >= |m| || Target(m, cursor) >= |m| || jumps >= MAX_JUMPS {
          return None, visited;
        }
        ResumePointer(m, cursor, jumps, nameLen, visited, end);
        if end.None? {
          end := Some(cursor + 2);
        }
        cursor, jumps := Target(m, cursor), jumps + 1;
      } else if len > 63 {
        return None, visited;
      } else if len == 0 {
        visited := visited + [[len]];
        return Some(if end.Some? then end.value else cursor + 1), visited;
      } else {
        var labelEnd := cursor + 1 + len;
        if labelEnd > |m| || nameLen + 1 + len >= MAX_NAME {
          return None, visited;
        }
        ResumeLabel(m, cursor, jumps, nameLen, visited, end);
        nameLen := nameLen + 1 + len;
        visited := visited + [m[cursor..labelEnd]];
        cursor := labelEnd;
      }
    }
  }

  // ---- Expansion as the RFC describes it -------------------------------------------------

  /** How a name is laid out: a root octet, a label before the rest, or a pointer to offset `to`, where the rest is. */
  datatype Expansion = Root | Label(rest: Expansion) | Pointer(to: nat, rest: Expansion)

  /** The octets at `at` are a pointer to offset `to`: two bits set, then the fourteen bits of `to`. */
  ghost predicate PointsTo(m: Bytes, at: nat, to: nat) {
    at + 1 < |m| && to < 0x4000 && m[at] == 0xc0 + to / 0x100 && m[at + 1] == to % 0x100
  }

  lemma TargetIsPointedTo(m: Bytes, at: nat, to: nat)
    requires at + 1 < |m| && m[at] >= 0xc0
    ensures PointsTo(m, at, to) <==> to == Target(m, at)
  {
  }

  ghost predicate Expands(m: Bytes, at: nat, x: Expansion)
    decreases x
  {
    at < |m| &&
    match x
    case Root => m[at] == 0
    case Label(rest) => 1 <= m[at] <= 63 && at + 1 + m[at] <= |m| && Expands(m, at + 1 + m[at], rest)
    case Pointer(to, rest) => PointsTo(m, at, to) && Expands(m, to, rest)
  }

  ghost function Jumps(x: Expansion): nat {
    match x
    case Root => 0
    case Label(rest) => Jumps(rest)
    case Pointer(_, rest) => 1 + Jumps(rest)
  }

  /** The expanded labels, each with its length octet. */
  ghost function Labels(m: Bytes, at: nat, x: Expansion): seq<Bytes>
    requires Expands(m, at, x)
    decreases x
  {
    match x
    case Root => [[0]]
    case Label(rest) => [m[at..at + 1 + m[at]]] + Labels(m, at + 1 + m[at], rest)
    case Pointer(to, rest) => Labels(m, to, rest)
  }

  /** Where the octets before the first pointer's target end. */
  ghost function End(m: Bytes, at: nat, x: Expansion): nat
    requires Expands(m, at, x)
    decreases x
  {
    match x
    case Root => at + 1
    case Label(rest) => End(m, at + 1 + m[at], rest)
    case Pointer(_, _) => at + 2
  }

  /** The name on the wire: every label with its length octet, root included. */
  function Flatten(labels: seq<Bytes>): Bytes {
    if labels == [] then [] else labels[0] + Flatten(labels[1..])
  }

  ghost predicate WithinBounds(m: Bytes, at: nat, x: Expansion, jumps: nat, used: nat)
    requires Expands(m, at, x)
  {
    jumps + Jumps(x) <= MAX_JUMPS && used + |Flatten(Labels(m, at, x))| <= MAX_NAME
  }

  lemma {:induction false} WalkSound(m: Bytes, at: nat, jumps: nat, used: nat) returns (x: Expansion)
    requires jumps <= MAX_JUMPS && used < MAX_NAME && Walk(m, at, jumps, used).Some?
    ensures Expands(m, at, x) && WithinBounds(m, at, x, jumps, used)
    ensures Walk(m, at, jumps, used) == Some(Walked(Labels(m, at, x), End(m, at, x)))
    decreases MAX_JUMPS - jumps + (MAX_NAME - used)
  {
    if m[at] >= 0xc0 {
      var rest := WalkSound(m, Target(m, at), jumps + 1, used);
      x := Pointer(Target(m, at), rest);
      TargetIsPointedTo(m, at, Target(m, at));
    } else if m[at] == 0 {
      x := Root;
      assert Flatten([[0]]) == [0] + Flatten([]);
    } else {
      var rest := WalkSound(m, at + 1 + m[at], jumps, used + 1 + m[at]);
      x := Label(rest);
      assert Labels(m, at, x)[1..] == Labels(m, at + 1 + m[at], rest);
    }
  }

  lemma WalkLabel(m: Bytes, at: nat, jumps: nat, used: nat, rest: Walked)
    requires jumps <= MAX_JUMPS && at < |m| && 0 < m[at] <= 63 && at + 1 + m[at] <= |m|
    requires used + 1 + m[at] < MAX_NAME && Walk(m, at + 1 + m[at], jumps, used + 1 + m[at]) == Some(rest)
    ensures Walk(m, at, jumps, used) == Some(Walked([m[at..at + 1 + m[at]]] + rest.labels, rest.end))
  {
  }

  lemma {:induction false} WalkComplete(m: Bytes, at: nat, x: Expansion, jumps: nat, used: nat)
    requires jumps <= MAX_JUMPS && used < MAX_NAME
    requires Expands(m, at, x) && WithinBounds(m, at, x, jumps, used)
    ensures Walk(m, at, jumps, used) == Some(Walked(Labels(m, at, x), End(m, at, x)))
    decreases x
  {
    match x
    case Root =>
    case Pointer(to, rest) =>
      TargetIsPointedTo(m, at, to);
      WalkComplete(m, to, rest, jumps + 1, used);
    case Label(rest) =>
      var next := at + 1 + m[at];
      assert Labels(m, at, x)[1..] == Labels(m, next, rest);
      FlattenNonempty(m, next, rest);
      WalkComplete(m, next, rest, jumps, used + 1 + m[at]);
      WalkLabel(m, at, jumps, used, Walked(Labels(m, next, rest), End(m, next, rest)));
  }

  lemma {:induction false} FlattenNonempty(m: Bytes, at: nat, x: Expansion)
    requires Expands(m, at, x)
    ensures Labels(m, at, x) != [] && |Flatten(Labels(m, at, x))| >= 1
    decreases x
  {
    match x
    case Root => assert Flatten([[0]]) == [0] + Flatten([]);
    case Pointer(to, rest) => FlattenNonempty(m, to, rest);
    case Label(rest) => assert Labels(m, at, x)[0] == m[at..at + 1 + m[at]];
  }

  /** The walk succeeds exactly when an expansion within both bounds exists, and reports that expansion. */
  lemma WalkIsBoundedExpansion(m: Bytes, start: nat, labels: seq<Bytes>, end: nat)
    ensures Walk(m, start, 0, 0) == Some(Walked(labels, end)) <==>
            exists x :: Expands(m, start, x) && Jumps(x) <= MAX_JUMPS && |Flatten(Labels(m, start, x))| <= MAX_NAME
                        && labels == Labels(m, start, x) && end == End(m, start, x)
  {
    if Walk(m, start, 0, 0) == Some(Walked(labels, end)) {
      var x := WalkSound(m, start, 0, 0);
    }
    forall x | Expands(m, start, x) && WithinBounds(m, start, x, 0, 0)
      ensures Walk(m, start, 0, 0) == Some(Walked(Labels(m, start, x), End(m, start, x)))
    {
      WalkComplete(m, start, x, 0, 0);
    }
  }

  /** Every visited name, root included, fits the 255-octet buffers of the walk's callers. */
  lemma WalkFitsBuffer(m: Bytes, start: nat)
    requires Walk(m, start, 0, 0).Some?
    ensures |Flatten(Walk(m, start, 0, 0).value.labels)| <= MAX_NAME
  {
    var x := WalkSound(m, start, 0, 0);
  }

  // ---- The end depends on inline octets alone ---------------------------------------------

  /** The end found by scanning inline octets only: no pointer is followed, no bound is applied. */
  function InlineEnd(m: Bytes, at: nat): Option<nat>
    decreases |m| - at
  {
    if at >= |m| then None
    else if m[at] >= 0xc0 then (if at + 1 < |m| then Some(at + 2) else None)
    else if m[at] > 63 then None
    else if m[at] == 0 then Some(at + 1)
    else if at + 1 + m[at] > |m| then None
    else InlineEnd(m, at + 1 + m[at])
  }

  lemma {:induction false} WalkEndIsInline(m: Bytes, at: nat, jumps: nat, used: nat)
    requires jumps <= MAX_JUMPS && used < MAX_NAME && Walk(m, at, jumps, used).Some?
    ensures InlineEnd(m, at) == Some(Walk(m, at, jumps, used).value.end)
    ensures at < Walk(m, at, jumps, used).value.end <= |m|
    decreases MAX_NAME - used
  {
    if 0 < m[at] < 0xc0 {
      WalkEndIsInline(m, at + 1 + m[at], jumps, used + 1 + m[at]);
    }
  }

  lemma {:induction false} InlineEndBounds(m: Bytes, at: nat)
    requires InlineEnd(m, at).Some?
    ensures at < InlineEnd(m, at).value <= |m|
    decreases |m| - at
  {
    if 0 < m[at] < 0xc0 {
      InlineEndBounds(m, at + 1 + m[at]);
    }
  }

  /** Octets outside [at, end) cannot move the end. */
  lemma {:induction false} InlineEndIsLocal(m: Bytes, other: Bytes, at: nat)
    requires InlineEnd(m, at).Some? && InlineEnd(m, at).value <= |other|
    requires forall i :: at <= i < InlineEnd(m, at).value && i < |m| ==> other[i] == m[i]
    ensures InlineEnd(other, at) == InlineEnd(m, at)
    decreases |m| - at
  {
    InlineEndBounds(m, at);
    if 0 < m[at] < 0xc0 {
      InlineEndBounds(m, at + 1 + m[at]);
      InlineEndIsLocal(m, other, at + 1 + m[at]);
    }
  }

  // ---- The octets a walk looks at ------------------------------------------------------------

  /** Position `p` is read by the walk: as a length octet, a pointer octet or label payload. */
  ghost predicate Touches(m: Bytes, cursor: nat, jumps: nat, used: nat, p: int)
    requires jumps <= MAX_JUMPS && used < MAX_NAME
    decreases MAX_JUMPS - jumps + (MAX_NAME - used), |m|
  {
    if cursor >= |m| then false
    else if m[cursor] >= 0xc0 then
      p == cursor || p == cursor + 1 ||
      (cursor + 1 < |m| && Target(m, cursor) < |m| && jumps < MAX_JUMPS
       && Touches(m, Target(m, cursor), jumps + 1, used, p))
    else if m[cursor] > 63 || m[cursor] == 0 then p == cursor
    else
      var next := cursor + 1 + m[cursor];
      cursor <= p < next ||
      (next <= |m| && used + 1 + m[cursor] < MAX_NAME && Touches(m, next, jumps, used + 1 + m[cursor], p))
  }

  /** The octets the expansion is made of. */
  ghost predicate Reads(m: Bytes, at: nat, x: Expansion, p: int)
    requires Expands(m, at, x)
    decreases x
  {
    match x
    case Root => p == at
    case Label(rest) => at <= p < at + 1 + m[at] || Reads(m, at + 1 + m[at], rest, p)
    case Pointer(to, rest) => p == at || p == at + 1 || Reads(m, to, rest, p)
  }

  /** A walk that succeeds reads exactly the octets of its expansion. */
  lemma {:induction false} WalkReadsExpansion(m: Bytes, at: nat, x: Expansion, jumps: nat, used: nat, p: int)
    requires jumps <= MAX_JUMPS && used < MAX_NAME
    requires Expands(m, at, x) && WithinBounds(m, at, x, jumps, used)
    ensures Touches(m, at, jumps, used, p) <==> Reads(m, at, x, p)
    decreases x
  {
    match x
    case Root =>
    case Pointer(to, rest) =>
      TargetIsPointedTo(m, at, to);
      WalkReadsExpansion(m, to, rest, jumps + 1, used, p);
    case Label(rest) =>
      var next := at + 1 + m[at];
      assert Labels(m, at, x)[1..] == Labels(m, next, rest);
      FlattenNonempty(m, next, rest);
      WalkReadsExpansion(m, next, rest, jumps, used + 1 + m[at], p);
  }

  /** A buffer that agrees on the positions read gives the same walk, reading the same positions. */
  lemma {:induction false} WalkReadsOnlyTouched(m: Bytes, other: Bytes, at: nat, jumps: nat, used: nat)
    requires jumps <= MAX_JUMPS && used < MAX_NAME && |m| == |other|
    requires forall i | 0 <= i < |m| && Touches(m, at, jumps, used, i) :: other[i] == m[i]
    ensures Walk(other, at, jumps, used) == Walk(m, at, jumps, used)
    ensures forall p :: Touches(other, at, jumps, used, p) <==> Touches(m, at, jumps, used, p)
    decreases MAX_JUMPS - jumps + (MAX_NAME - used)
  {
    if at < |m| {
      assert Touches(m, at, jumps, used, at) && other[at] == m[at];
      if m[at] >= 0xc0 {
        assert Touches(m, at, jumps, used, at + 1);
        if at + 1 < |m| && Target(m, at) < |m| && jumps < MAX_JUMPS {
          assert Target(other, at) == Target(m, at);
          WalkReadsOnlyTouched(m, other, Target(m, at), jumps + 1, used);
        }
      } else if 0 < m[at] <= 63 {
        var next := at + 1 + m[at];
        if next <= |m| && used + 1 + m[at] < MAX_NAME {
          assert forall i | at <= i < next :: Touches(m, at, jumps, used, i);
          assert m[at..next] == other[at..next];
          WalkReadsOnlyTouched(m, other, next, jumps, used + 1 + m[at]);
        }
      }
    }
  }

  /** `other`, however long, repeats the octets the walk of `m` reads. */
  ghost predicate Repeats(m: Bytes, other: Bytes, at: nat, jumps: nat, used: nat)
    requires jumps <= MAX_JUMPS && used < MAX_NAME
  {
    forall i {:trigger Touches(m, at, jumps, used, i)} | 0 <= i < |m| && Touches(m, at, jumps, used, i) ::
      i < |other| && other[i] == m[i]
  }

  lemma RepeatsLabel(m: Bytes, other: Bytes, at: nat, jumps: nat, used: nat)
    requires jumps <= MAX_JUMPS && used < MAX_NAME && Walk(m, at, jumps, used).Some? && 0 < m[at] < 0xc0
    requires Repeats(m, other, at, jumps, used)
    ensures var next := at + 1 + m[at];
            Repeats(m, other, next, jumps, used + 1 + m[at]) && next <= |other| && m[at..next] == other[at..next]
  {
    var next := at + 1 + m[at];
    forall i {:trigger Touches(m, next, jumps, used + 1 + m[at], i)} |
      0 <= i < |m| && Touches(m, next, jumps, used + 1 + m[at], i)
      ensures i < |other| && other[i] == m[i]
    {
      assert Touches(m, at, jumps, used, i);
    }
    forall i | at <= i < next ensures i < |other| && other[i] == m[i] {
      assert Touches(m, at, jumps, used, i);
    }
    assert Touches(m, at, jumps, used, next - 1);
  }

  lemma RepeatsPointer(m: Bytes, other: Bytes, at: nat, jumps: nat, used: nat)
    requires jumps < MAX_JUMPS && used < MAX_NAME && Walk(m, at, jumps, used).Some? && m[at] >= 0xc0
    requires Repeats(m, other, at, jumps, used)
    ensures Repeats(m, other, Target(m, at), jumps + 1, used) && at + 1 < |other| && other[at + 1] == m[at + 1]
    ensures Target(m, at) < |other|
  {
    forall i {:trigger Touches(m, Target(m, at), jumps + 1, used, i)} |
      0 <= i < |m| && Touches(m, Target(m, at), jumps + 1, used, i)
      ensures i < |other| && other[i] == m[i]
    {
      assert Touches(m, at, jumps, used, i);
    }
    assert Touches(m, at, jumps, used, at + 1);
    assert Touches(m, Target(m, at), jumps + 1, used, Target(m, at));
  }

  /** A buffer of any length that repeats the positions read gives the same walk. */
  lemma {:induction false} WalkOnPrefix(m: Bytes, other: Bytes, at: nat, jumps: nat, used: nat)
    requires jumps <= MAX_JUMPS && used < MAX_NAME && Walk(m, at, jumps, used).Some?
    requires Repeats(m, other, at, jumps, used)
    ensures Walk(other, at, jumps, used) == Walk(m, at, jumps, used)
    decreases MAX_JUMPS - jumps + (MAX_NAME - used)
  {
    assert Touches(m, at, jumps, used, at) && other[at] == m[at];
    if m[at] >= 0xc0 {
      RepeatsPointer(m, other, at, jumps, used);
      WalkOnPrefix(m, other, Target(m, at), jumps + 1, used);
    } else if m[at] > 0 {
      RepeatsLabel(m, other, at, jumps, used);
      WalkOnPrefix(m, other, at + 1 + m[at], jumps, used + 1 + m[at]);
    }
  }

  /** A name's inline octets end soon: 255 octets and one more for a pointer. */
  lemma {:induction false} WalkEndBound(m: Bytes, at: nat, jumps: nat, used: nat)
    requires jumps <= MAX_JUMPS && used < MAX_NAME && Walk(m, at, jumps, used).Some?
    ensures Walk(m, at, jumps, used).value.end <= at + (MAX_NAME - used) + 1
    decreases MAX_NAME - used
  {
    if 0 < m[at] < 0xc0 {
      WalkEndBound(m, at + 1 + m[at], jumps, used + 1 + m[at]);
    }
  }

  /** A name laid out without pointers is read from its own octets. */
  ghost predicate Uncompressed(m: Bytes, at: nat) {
    exists x :: Expands(m, at, x) && Jumps(x) == 0
  }

  lemma {:induction false} UncompressedTouchesInline(m: Bytes, at: nat, x: Expansion, jumps: nat, used: nat)
    requires jumps <= MAX_JUMPS && used < MAX_NAME
    requires Expands(m, at, x) && Jumps(x) == 0
    ensures forall p | Touches(m, at, jumps, used, p) :: at <= p < End(m, at, x)
    ensures at < End(m, at, x) <= |m|
    ensures End(m, at, x) == at + |Flatten(Labels(m, at, x))|
    decreases x
  {
    match x
    case Root => assert Flatten([[0]]) == [0] + Flatten([]);
    case Label(rest) =>
      var next := at + 1 + m[at];
      assert Labels(m, at, x)[1..] == Labels(m, next, rest);
      if used + 1 + m[at] < MAX_NAME {
        UncompressedTouchesInline(m, next, rest, jumps, used + 1 + m[at]);
      } else {
        UncompressedTouchesInline(m, next, rest, jumps, 0);
      }
  }

  /** Clearing the ID never breaks a walk: a cleared octet reads as the root. */
  lemma {:induction false} ClearedIdKeepsWalk(m: Bytes, at: nat, jumps: nat, used: nat)
    requires |m| >= 2 && jumps <= MAX_JUMPS && used < MAX_NAME && Walk(m, at, jumps, used).Some?
    ensures Walk(WithId(m, 0, 0), at, jumps, used).Some?
    ensures at >= 2 ==> Walk(WithId(m, 0, 0), at, jumps, used).value.end == Walk(m, at, jumps, used).value.end
    ensures forall p | Touches(WithId(m, 0, 0), at, jumps, used, p) :: Touches(m, at, jumps, used, p)
    decreases MAX_JUMPS - jumps + (MAX_NAME - used)
  {
    var z := WithId(m, 0, 0);
    if at >= 2 {
      assert z[at] == m[at];
      if m[at] >= 0xc0 {
        assert z[at + 1] == m[at + 1];
        ClearedIdKeepsWalk(m, Target(m, at), jumps + 1, used);
      } else if m[at] > 0 {
        ClearedIdKeepsWalk(m, at + 1 + m[at], jumps, used + 1 + m[at]);
      }
    }
  }

  // ---- Canonical names ------------------------------------------------------------------------

  /** ASCII lower case; other octets, length octets among them, are unchanged. */
  function Lower(b: byte): byte {
    if 65 <= b <= 90 then b + 32 else b
  }

  function Fold(s: Bytes): Bytes {
    seq(|s|, i requires 0 <= i < |s| => Lower(s[i]))
  }

  lemma FoldConcat(a: Bytes, b: Bytes)
    ensures Fold(a + b) == Fold(a) + Fold(b)
  {
  }

  datatype Decoded = Decoded(name: Bytes, end: nat)

  /** The canonical lowercase wire form of the name at `start`, and where it ends inline. */
  function NameAt(m: Bytes, start: nat): Option<Decoded> {
    match Walk(m, start, 0, 0)
    case None => None
    case Some(w) => Some(Decoded(Fold(Flatten(w.labels)), w.end))
  }

  lemma {:induction false} FlattenSnoc(labels: seq<Bytes>, last: Bytes)
    ensures Flatten(labels + [last]) == Flatten(labels) + last
  {
    if labels == [] {
      assert Flatten([last]) == last + Flatten([]);
    } else {
      FlattenSnoc(labels[1..], last);
      assert (labels + [last])[1..] == labels[1..] + [last];
    }
  }

  lemma FlattenPrefix(labels: seq<Bytes>, k: nat)
    requires k < |labels|
    ensures Flatten(labels[..k + 1]) == Flatten(labels[..k]) + labels[k]
    ensures |Flatten(labels[..k + 1])| <= |Flatten(labels)|
  {
    assert labels[..k + 1] == labels[..k] + [labels[k]];
    FlattenSnoc(labels[..k], labels[k]);
    FlattenGrows(labels, k + 1);
  }

  lemma {:induction false} FlattenGrows(labels: seq<Bytes>, k: nat)
    requires k <= |labels|
    ensures |Flatten(labels[..k])| <= |Flatten(labels)|
    decreases |labels|
  {
    if k > 0 {
      assert labels[..k][1..] == labels[1..][..k - 1];
      FlattenGrows(labels[1..], k - 1);
    }
  }

  /** Decode a possibly-compressed name through a fixed 255-octet buffer. */
  method ReadName(m: Bytes, start: nat) returns (r: Option<Decoded>)
    ensures r == NameAt(m, start)
  {
    var end, labels := WalkName(m, start);
    if end.None? {
      return None;
    }
    WalkFitsBuffer(m, start);
    var name := new byte[MAX_NAME];
    var nameLen := CopyLabels(labels, name);
    MakeLowercase(name, nameLen);
    return Some(Decoded(name[..nameLen], end.value));
  }

  method MakeLowercase(name: array<byte>, nameLen: nat)
    requires nameLen <= name.Length
    modifies name
    ensures name[..nameLen] == Fold(old(name[..nameLen])) && name[nameLen..] == old(name[nameLen..])
    ensures forall i | 0 <= i < nameLen ::
              name[i] == old(name[i]) + if 'A' as int <= old(name[i]) <= 'Z' as int then 32 else 0
  {
    for i := 0 to nameLen
      invariant forall j | 0 <= j < name.Length :: name[j] == if j < i then Lower(old(name[j])) else old(name[j])
    {
      name[i] := Lower(name[i]);
    }
  }

  /** The visitor both decoders use: append each label to the caller's buffer. */
  method CopyLabels(labels: seq<Bytes>, name: array<byte>) returns (nameLen: nat)
    requires |Flatten(labels)| <= name.Length
    modifies name
    ensures nameLen == |Flatten(labels)| && name[..nameLen] == Flatten(labels)
  {
    nameLen := 0;
    for k := 0 to |labels|
      invariant nameLen == |Flatten(labels[..k])| <= name.Length
      invariant name[..nameLen] == Flatten(labels[..k])
    {
      FlattenPrefix(labels, k);
      ghost var before := name[..nameLen];
      forall j | 0 <= j < |labels[k]| {
        name[nameLen + j] := labels[k][j];
      }
      assert name[..nameLen + |labels[k]|] == before + labels[k];
      nameLen := nameLen + |labels[k]|;
    }
    assert labels[..|labels|] == labels;
  }

  // ---- Label framing is a prefix code -----------------------------------------------------------

  /** A label list as a walk reports it: length octet first, root last and nowhere else. */
  ghost predicate Framed(labels: seq<Bytes>) {
    labels != [] && labels[|labels| - 1] == [0] &&
    forall k | 0 <= k < |labels| :: |labels[k]| >= 1 && labels[k][0] == |labels[k]| - 1 <= 63
                                    && (k < |labels| - 1 ==> labels[k][0] > 0)
  }

  lemma {:induction false} WalkIsFramed(m: Bytes, at: nat, jumps: nat, used: nat)
    requires jumps <= MAX_JUMPS && used < MAX_NAME && Walk(m, at, jumps, used).Some?
    ensures Framed(Walk(m, at, jumps, used).value.labels)
    decreases MAX_JUMPS - jumps + (MAX_NAME - used)
  {
    if m[at] >= 0xc0 {
      WalkIsFramed(m, Target(m, at), jumps + 1, used);
    } else if m[at] > 0 {
      WalkIsFramed(m, at + 1 + m[at], jumps, used + 1 + m[at]);
    }
  }

  /** One of two octets is an upper-case ASCII letter, the other its lower-case form. */
  ghost predicate CasePair(x: byte, y: byte) {
    (65 <= x <= 90 && y == x + 32) || (65 <= y <= 90 && x == y + 32)
  }

  ghost predicate SameUpToCase(a: Bytes, b: Bytes) {
    |a| == |b| && forall i | 0 <= i < |a| :: a[i] == b[i] || CasePair(a[i], b[i])
  }

  lemma EqualFolds(a: Bytes, b: Bytes)
    ensures Fold(a) == Fold(b) <==> SameUpToCase(a, b)
  {
    if Fold(a) == Fold(b) {
      forall i | 0 <= i < |a| ensures a[i] == b[i] || CasePair(a[i], b[i]) {
        assert Fold(a)[i] == Fold(b)[i];
      }
    } else if SameUpToCase(a, b) {
      assert forall i | 0 <= i < |a| :: Fold(a)[i] == Fold(b)[i];
    }
  }

  ghost predicate SameLabelsUpToCase(a: seq<Bytes>, b: seq<Bytes>) {
    |a| == |b| && forall k | 0 <= k < |a| :: SameUpToCase(a[k], b[k])
  }

  lemma FoldSplits(a: Bytes, rest: Bytes, b: Bytes, more: Bytes)
    requires |a| == |b|
    ensures Fold(a + rest) == Fold(b + more) <==> Fold(a) == Fold(b) && Fold(rest) == Fold(more)
  {
    FoldConcat(a, rest);
    FoldConcat(b, more);
    if Fold(a + rest) == Fold(b + more) {
      assert Fold(a) == Fold(a + rest)[..|a|] && Fold(b) == Fold(b + more)[..|b|];
      assert Fold(rest) == Fold(a + rest)[|a|..] && Fold(more) == Fold(b + more)[|b|..];
    }
  }

  lemma SameLabelsCons(a: seq<Bytes>, b: seq<Bytes>)
    requires |a| > 0 && |b| > 0
    ensures SameLabelsUpToCase(a, b) <==> SameUpToCase(a[0], b[0]) && SameLabelsUpToCase(a[1..], b[1..])
  {
    if SameLabelsUpToCase(a, b) {
      forall k | 0 <= k < |a| - 1 ensures SameUpToCase(a[1..][k], b[1..][k]) {
        assert SameUpToCase(a[k + 1], b[k + 1]);
      }
    } else if SameUpToCase(a[0], b[0]) && SameLabelsUpToCase(a[1..], b[1..]) {
      forall k | 0 <= k < |a| ensures SameUpToCase(a[k], b[k]) {
        if k > 0 {
          assert SameUpToCase(a[1..][k - 1], b[1..][k - 1]);
        }
      }
    }
  }

  /** Equal canonical names are equal label sequences up to ASCII case: lengths never fold. */
  lemma {:induction false} CanonicalNamesDecideLabels(a: seq<Bytes>, b: seq<Bytes>)
    requires Framed(a) && Framed(b)
    ensures Fold(Flatten(a)) == Fold(Flatten(b)) <==> SameLabelsUpToCase(a, b)
    decreases |a|
  {
    SameLabelsCons(a, b);
    EqualFolds(a[0], b[0]);
    if |a[0]| != |b[0]| {
      FoldConcat(a[0], Flatten(a[1..]));
      FoldConcat(b[0], Flatten(b[1..]));
      assert Fold(Flatten(a))[0] == a[0][0] && Fold(Flatten(b))[0] == b[0][0];
    } else {
      FoldSplits(a[0], Flatten(a[1..]), b[0], Flatten(b[1..]));
      if |a| == 1 || |b| == 1 {
        assert a[0] == [0] && b[0] == [0];
        assert a[1..] == [] && b[1..] == [];
      } else {
        CanonicalNamesDecideLabels(a[1..], b[1..]);
      }
    }
  }
}
