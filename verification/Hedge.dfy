/** One client query hedged over the configured upstreams, between two awaits at a time. */
module Hedging {
  import opened Prelude
  import opened Questions

  /** A timeout of 0 is waited on for ever. */
  datatype Entry = Entry(timeoutMs: nat)

  type Query = q: Bytes | |q| >= HEADER_LEN witness seq(HEADER_LEN, _ => 0)

  /** How an attempt ended: an error, a panic and a timeout all count as failed; backends only return whole headers. */
  datatype Outcome = Failed | Response(reply: Query)

  const HEDGE_DELAY: nat := 300
  const SERVFAIL: nat := 2

  /** The upstream's reply under the client's ID, unless it is an error or a SERVFAIL. */
  function ConfiguredAnswer(query: Query, o: Outcome): Option<Bytes> {
    if o.Failed? || Rcode(o.reply) == SERVFAIL then None else Some(WithId(o.reply, query[0], query[1]))
  }

  datatype Status = Running | Finished(outcome: Outcome)

  /** Where the loop rests: polling one attempt in the caller, waiting on spawned ones, or returned. */
  datatype Phase = Fresh | Inline(index: nat) | Waiting | Returned(answer: Option<Bytes>)

  /** `pending` are the spawned attempts not yet joined, `ended` the outcomes the loop has seen. */
  datatype Hedged = Hedged(next: nat, hedgeAt: Option<nat>, pending: map<nat, Status>,
                           ended: map<nat, Outcome>, phase: Phase)

  const START := Hedged(0, None, map[], map[], Fresh)

  predicate Due(h: Hedged, now: nat) {
    h.hedgeAt.Some? && now >= h.hedgeAt.value
  }

  /** Upstream `i` may be raced by its successor. */
  predicate Raced(es: seq<Entry>, i: nat) {
    i + 1 < |es| && es[i].timeoutMs > 0 && es[i + 1].timeoutMs > 0
  }

  /** From the top of the loop to its next await; `free` says whether a permit can be had. */
  function Advance(es: seq<Entry>, h: Hedged, now: nat, free: bool): Hedged {
    var empty := h.pending.Keys == {};
    if !empty && !Due(h, now) then h.(phase := Waiting)
    else if h.next >= |es| || !free then
      h.(hedgeAt := None, phase := if empty then Returned(None) else Waiting)
    else
      var armed := if Raced(es, h.next) then Some(now + HEDGE_DELAY) else None;
      if empty then h.(next := h.next + 1, hedgeAt := armed, phase := Inline(h.next))
      else h.(next := h.next + 1, hedgeAt := armed, pending := h.pending[h.next := Running], phase := Waiting)
  }

  // ---- What can happen while it rests -------------------------------------------------------------

  datatype Event =
    | InlineEnds(outcome: Outcome)
    | InlineSlow
    | Joined(index: nat)
    | HedgeDue
    | AttemptEnds(index: nat, outcome: Outcome)

  predicate Possible(h: Hedged, ev: Event, now: nat) {
    match ev
    case InlineEnds(_) => h.phase.Inline?
    case InlineSlow => h.phase.Inline? && Due(h, now)
    case Joined(i) => h.phase.Waiting? && i in h.pending && h.pending[i].Finished?
    case HedgeDue => h.phase.Waiting? && Due(h, now)
    case AttemptEnds(i, _) => h.phase.Waiting? && i in h.pending && h.pending[i].Running?
  }

  /** An accepted answer ends the loop; anything else goes back to its top. */
  function Judge(es: seq<Entry>, query: Query, h: Hedged, i: nat, o: Outcome, now: nat, free: bool): Hedged {
    var seen := h.(ended := h.ended[i := o]);
    if ConfiguredAnswer(query, o).Some? then seen.(phase := Returned(ConfiguredAnswer(query, o)))
    else Advance(es, seen, now, free)
  }

  function React(es: seq<Entry>, query: Query, h: Hedged, ev: Event, now: nat, free: bool): Hedged
    requires Possible(h, ev, now)
  {
    match ev
    case InlineEnds(o) => Judge(es, query, h, h.phase.index, o, now, free)
    case InlineSlow => Advance(es, h.(pending := h.pending[h.phase.index := Running]), now, free)
    case Joined(i) => Judge(es, query, h.(pending := h.pending - {i}), i, h.pending[i].outcome, now, free)
    case HedgeDue => Advance(es, h, now, free)
    case AttemptEnds(i, o) => h.(pending := h.pending[i := Finished(o)])
  }

  // ---- What every reaction keeps --------------------------------------------------------------------

  /** An error, or a reply whose RCODE, the low four bits of its fourth octet, is 2. */
  ghost predicate IsRejected(o: Outcome) {
    o.Failed? || o.reply[3] % 16 == 2
  }

  /** What the client gets is what came back, octet for octet, under the client's ID. */
  ghost predicate IsAnswer(query: Query, o: Outcome, a: Bytes) {
    !IsRejected(o) && |a| == |o.reply| && a[2..] == o.reply[2..] && a[..2] == query[..2]
  }

  lemma AnswerExactly(query: Query, o: Outcome, a: Bytes)
    ensures ConfiguredAnswer(query, o) == Some(a) <==> IsAnswer(query, o, a)
    ensures ConfiguredAnswer(query, o).None? <==> IsRejected(o)
  {
    if !IsRejected(o) {
      var s := WithId(o.reply, query[0], query[1]);
      assert s[2..] == o.reply[2..] && s[..2] == query[..2];
      if |a| == |s| && a[2..] == s[2..] && a[..2] == s[..2] {
        assert a == a[..2] + a[2..] && s == s[..2] + s[2..];
      }
    }
  }

  ghost predicate AllRejected(ended: map<nat, Outcome>) {
    forall i | i in ended :: IsRejected(ended[i])
  }

  /** Exactly the upstreams before `next` have been started, each once: being polled, pending or ended. */
  ghost predicate InOrder(es: seq<Entry>, h: Hedged) {
    h.next <= |es| && h.pending.Keys !! h.ended.Keys
    && (forall i :: i in h.pending || i in h.ended || (h.phase.Inline? && h.phase.index == i) <==> 0 <= i < h.next)
    && (h.phase.Inline? ==> h.phase.index == h.next - 1 && h.pending == map[] && h.phase.index !in h.ended)
    && (h.phase.Fresh? ==> h.next == 0)
  }

  /** An armed hedge has an upstream to start, and an attempt without a deadline is never raced, spawned or a racer. */
  ghost predicate BoundedRaces(es: seq<Entry>, h: Hedged)
    requires h.next <= |es|
  {
    (h.hedgeAt.Some? ==> 1 <= h.next && Raced(es, h.next - 1))
    && forall i | i in h.pending :: i < |es| && es[i].timeoutMs > 0
  }

  ghost predicate Judged(es: seq<Entry>, query: Query, h: Hedged) {
    match h.phase
    case Returned(Some(a)) =>
      exists i :: i in h.ended && IsAnswer(query, h.ended[i], a) && AllRejected(h.ended - {i})
    case Returned(None) => AllRejected(h.ended) && h.pending == map[]
    case Waiting => AllRejected(h.ended) && h.pending != map[]
    case _ => AllRejected(h.ended)
  }

  ghost predicate Sound(es: seq<Entry>, query: Query, h: Hedged) {
    InOrder(es, h) && BoundedRaces(es, h) && Judged(es, query, h)
  }

  /** What holds at the top of the loop. */
  ghost predicate AtTop(es: seq<Entry>, query: Query, h: Hedged) {
    h.next <= |es| && h.pending.Keys !! h.ended.Keys
    && (forall i :: i in h.pending || i in h.ended <==> 0 <= i < h.next)
    && BoundedRaces(es, h) && AllRejected(h.ended)
  }

  lemma AdvanceSound(es: seq<Entry>, query: Query, h: Hedged, now: nat, free: bool)
    requires AtTop(es, query, h)
    ensures Sound(es, query, Advance(es, h, now, free))
    ensures Advance(es, h, now, free).phase == Returned(None) ==> h.next == |es| || !free
  {
    assert h.pending.Keys == {} <==> h.pending == map[];
  }

  lemma JudgeSound(es: seq<Entry>, query: Query, h: Hedged, i: nat, o: Outcome, now: nat, free: bool)
    requires h.next <= |es| && h.pending.Keys !! h.ended.Keys && i !in h.pending && i !in h.ended && i < h.next
    requires forall k :: k in h.pending || k in h.ended || k == i <==> 0 <= k < h.next
    requires BoundedRaces(es, h) && AllRejected(h.ended)
    ensures Sound(es, query, Judge(es, query, h, i, o, now, free))
    ensures Judge(es, query, h, i, o, now, free).phase == Returned(None) ==> h.next == |es| || !free
  {
    var seen := h.(ended := h.ended[i := o]);
    AnswerExactly(query, o, if IsRejected(o) then [] else ConfiguredAnswer(query, o).value);
    if ConfiguredAnswer(query, o).Some? {
      assert seen.ended - {i} == h.ended;
      assert i in seen.ended && IsAnswer(query, seen.ended[i], ConfiguredAnswer(query, o).value);
    } else {
      AdvanceSound(es, query, seen, now, free);
    }
  }

  /** Every reaction keeps the loop sound; it gives up only when all upstreams were started or no permit was free. */
  lemma ReactSound(es: seq<Entry>, query: Query, h: Hedged, ev: Event, now: nat, free: bool)
    requires Sound(es, query, h) && Possible(h, ev, now)
    ensures Sound(es, query, React(es, query, h, ev, now, free))
    ensures React(es, query, h, ev, now, free).phase == Returned(None) ==> h.next == |es| || !free
  {
    match ev
    case InlineEnds(o) => JudgeSound(es, query, h, h.phase.index, o, now, free);
    case InlineSlow => AdvanceSound(es, query, h.(pending := h.pending[h.phase.index := Running]), now, free);
    case Joined(i) => JudgeSound(es, query, h.(pending := h.pending - {i}), i, h.pending[i].outcome, now, free);
    case HedgeDue => AdvanceSound(es, query, h, now, free);
    case AttemptEnds(i, o) =>
      assert i in h.pending;
  }

  // ---- Configuration order ---------------------------------------------------------------------------

  /** The attempts that hold a permit. */
  ghost function Live(h: Hedged): set<nat> {
    (set i | i in h.pending && h.pending[i].Running?) + if h.phase.Inline? then {h.phase.index} else {}
  }

  /** The attempt an event takes off the live ones. */
  ghost function Stopped(h: Hedged, ev: Event): set<nat>
    requires ev.InlineEnds? ==> h.phase.Inline?
  {
    match ev
    case InlineEnds(_) => {h.phase.index}
    case AttemptEnds(i, _) => {i}
    case _ => {}
  }

  /** From `live` running attempts: nothing new, or with a free permit the next upstream in configuration order. */
  ghost predicate StartsAtMostNext(es: seq<Entry>, next: nat, live: set<nat>, after: Hedged, free: bool) {
    if after.next == next then Live(after) == live
    else free && after.next == next + 1 && next < |es| && Live(after) == live + {next}
  }

  lemma AdvanceStarts(es: seq<Entry>, h: Hedged, now: nat, free: bool)
    requires h.phase.Inline? ==> h.phase.index in h.pending && h.pending[h.phase.index].Running?
    ensures StartsAtMostNext(es, h.next, Live(h), Advance(es, h, now, free), free)
  {
    var after := Advance(es, h, now, free);
    if after.next == h.next {
      assert Live(after) == Live(h);
    } else {
      assert Live(after) == Live(h) + {h.next};
    }
  }

  /** An event starts at most one upstream, always the next in configuration order, and only with a free permit. */
  lemma ReactStarts(es: seq<Entry>, query: Query, h: Hedged, ev: Event, now: nat, free: bool)
    requires Sound(es, query, h) && Possible(h, ev, now)
    ensures StartsAtMostNext(es, h.next, Live(h) - Stopped(h, ev), React(es, query, h, ev, now, free), free)
  {
    match ev
    case InlineEnds(o) =>
      JudgeStarts(es, query, h, h.phase.index, o, now, free);
    case InlineSlow =>
      AdvanceStarts(es, h.(pending := h.pending[h.phase.index := Running]), now, free);
      assert Live(h.(pending := h.pending[h.phase.index := Running])) == Live(h);
    case Joined(i) =>
      JudgeStarts(es, query, h.(pending := h.pending - {i}), i, h.pending[i].outcome, now, free);
      assert Live(h.(pending := h.pending - {i})) == Live(h);
    case HedgeDue => AdvanceStarts(es, h, now, free);
    case AttemptEnds(i, o) =>
      assert Live(h.(pending := h.pending[i := Finished(o)])) == Live(h) - {i};
  }

  lemma JudgeStarts(es: seq<Entry>, query: Query, h: Hedged, i: nat, o: Outcome, now: nat, free: bool)
    requires h.phase.Inline? ==> h.phase.index == i && h.pending == map[]
    requires h.phase.Waiting? || h.phase.Inline?
    ensures StartsAtMostNext(es, h.next, if h.phase.Inline? then {} else Live(h),
                             Judge(es, query, h, i, o, now, free), free)
  {
    var seen := h.(ended := h.ended[i := o], phase := Waiting);
    assert Live(seen) == if h.phase.Inline? then {} else Live(h);
    AdvanceStarts(es, seen, now, free);
    assert Advance(es, h.(ended := h.ended[i := o]), now, free) == Advance(es, seen, now, free);
  }

  /** The last pending attempt joins and is rejected, with a permit free and an upstream left. */
  ghost predicate LastOneFails(es: seq<Entry>, h: Hedged, ev: Event, free: bool)
    requires ev.Joined? ==> ev.index in h.pending && h.pending[ev.index].Finished?
  {
    ev.Joined? && h.pending.Keys == {ev.index} && IsRejected(h.pending[ev.index].outcome)
    && free && h.next < |es|
  }

  /**
   * A hedge the budget blocked is not armed again: the next upstream starts exactly when the last pending one
   * fails.
   */
  lemma UnarmedWaitsForAll(es: seq<Entry>, query: Query, h: Hedged, ev: Event, now: nat, free: bool)
    requires Sound(es, query, h) && Possible(h, ev, now) && h.phase.Waiting? && h.hedgeAt.None?
    ensures React(es, query, h, ev, now, free).next
            == if LastOneFails(es, h, ev, free) then h.next + 1 else h.next
  {
    if ev.Joined? {
      AnswerExactly(query, h.pending[ev.index].outcome, []);
      assert (h.pending - {ev.index}).Keys == h.pending.Keys - {ev.index};
      assert h.pending.Keys == {ev.index} <==> (h.pending - {ev.index}).Keys == {};
    }
  }

  // ---- Termination --------------------------------------------------------------------------------------

  ghost function Unfinished(pending: map<nat, Status>): set<nat> {
    set i | i in pending && pending[i].Running?
  }

  /** Upstreams not yet started weigh 4, running attempts 2, finished ones 1 and an armed hedge 1. */
  ghost function Rank(es: seq<Entry>, h: Hedged): nat
    requires h.next <= |es|
  {
    4 * (|es| - h.next) + |h.pending| + |Unfinished(h.pending)|
    + (if h.phase.Inline? then 2 else 0) + if h.hedgeAt.Some? then 1 else 0
  }

  lemma SpawnedCounts(pending: map<nat, Status>, i: nat)
    requires i !in pending
    ensures |pending[i := Running]| == |pending| + 1
    ensures |Unfinished(pending[i := Running])| == |Unfinished(pending)| + 1
  {
    assert Unfinished(pending[i := Running]) == Unfinished(pending) + {i};
    assert pending[i := Running].Keys == pending.Keys + {i};
    assert |pending| == |pending.Keys| && |pending[i := Running]| == |pending[i := Running].Keys|;
  }

  lemma AdvanceRank(es: seq<Entry>, query: Query, h: Hedged, now: nat, free: bool)
    requires AtTop(es, query, h) && !h.phase.Inline?
    ensures Advance(es, h, now, free).next <= |es| && Rank(es, Advance(es, h, now, free)) <= Rank(es, h)
    ensures Due(h, now) ==> Rank(es, Advance(es, h, now, free)) < Rank(es, h)
  {
    SpawnedCounts(h.pending, h.next);
  }

  ghost predicate Descends(es: seq<Entry>, h: Hedged, after: Hedged)
    requires h.next <= |es|
  {
    after.next <= |es| && Rank(es, after) < Rank(es, h)
  }

  lemma InlineSlowDescends(es: seq<Entry>, query: Query, h: Hedged, now: nat, free: bool)
    requires Sound(es, query, h) && h.phase.Inline? && Due(h, now)
    ensures Descends(es, h, Advance(es, h.(pending := h.pending[h.phase.index := Running]), now, free))
  {
    var i := h.phase.index;
    SpawnedCounts(h.pending, i);
    AdvanceRank(es, query, h.(pending := h.pending[i := Running], phase := Waiting), now, free);
    assert Advance(es, h.(pending := h.pending[i := Running], phase := Waiting), now, free)
        == Advance(es, h.(pending := h.pending[i := Running]), now, free);
  }

  lemma InlineEndsDescends(es: seq<Entry>, query: Query, h: Hedged, o: Outcome, now: nat, free: bool)
    requires Sound(es, query, h) && h.phase.Inline?
    ensures Descends(es, h, Judge(es, query, h, h.phase.index, o, now, free))
  {
    var resting := h.(phase := Waiting);
    JudgeRank(es, query, resting, h.phase.index, o, now, free);
    assert Judge(es, query, resting, h.phase.index, o, now, free) == Judge(es, query, h, h.phase.index, o, now, free);
  }

  lemma JoinedDescends(es: seq<Entry>, query: Query, h: Hedged, i: nat, now: nat, free: bool)
    requires Sound(es, query, h) && h.phase.Waiting? && i in h.pending && h.pending[i].Finished?
    ensures Descends(es, h, Judge(es, query, h.(pending := h.pending - {i}), i, h.pending[i].outcome, now, free))
  {
    JoinedCounts(h.pending, i);
    JudgeRank(es, query, h.(pending := h.pending - {i}), i, h.pending[i].outcome, now, free);
  }

  /** Every event of a query uses up rank, so it ends after at most 4 events for each upstream. */
  lemma ReactDescends(es: seq<Entry>, query: Query, h: Hedged, ev: Event, now: nat, free: bool)
    requires Sound(es, query, h) && Possible(h, ev, now)
    ensures Descends(es, h, React(es, query, h, ev, now, free))
  {
    match ev
    case InlineEnds(o) => InlineEndsDescends(es, query, h, o, now, free);
    case InlineSlow => InlineSlowDescends(es, query, h, now, free);
    case Joined(i) => JoinedDescends(es, query, h, i, now, free);
    case HedgeDue => AdvanceRank(es, query, h, now, free);
    case AttemptEnds(i, o) => EndedCounts(h.pending, i, o);
  }

  lemma JudgeRank(es: seq<Entry>, query: Query, h: Hedged, i: nat, o: Outcome, now: nat, free: bool)
    requires h.next <= |es| && h.pending.Keys !! h.ended.Keys && i !in h.pending && i !in h.ended && i < h.next
    requires forall k :: k in h.pending || k in h.ended || k == i <==> 0 <= k < h.next
    requires BoundedRaces(es, h) && AllRejected(h.ended) && h.phase.Waiting?
    ensures Judge(es, query, h, i, o, now, free).next <= |es|
    ensures Rank(es, Judge(es, query, h, i, o, now, free)) <= Rank(es, h)
  {
    AnswerExactly(query, o, []);
    if ConfiguredAnswer(query, o).None? {
      AdvanceRank(es, query, h.(ended := h.ended[i := o]), now, free);
    }
  }

  lemma JoinedCounts(pending: map<nat, Status>, i: nat)
    requires i in pending && pending[i].Finished?
    ensures |pending - {i}| == |pending| - 1 && Unfinished(pending - {i}) == Unfinished(pending)
  {
    assert (pending - {i}).Keys == pending.Keys - {i};
    assert |pending| == |pending.Keys| && |pending - {i}| == |(pending - {i}).Keys|;
  }

  lemma EndedCounts(pending: map<nat, Status>, i: nat, o: Outcome)
    requires i in pending && pending[i].Running?
    ensures |pending[i := Finished(o)]| == |pending|
    ensures |Unfinished(pending[i := Finished(o)])| == |Unfinished(pending)| - 1
  {
    assert Unfinished(pending[i := Finished(o)]) == Unfinished(pending) - {i};
    assert pending[i := Finished(o)].Keys == pending.Keys;
    assert |pending| == |pending.Keys| && |pending[i := Finished(o)]| == |pending[i := Finished(o)].Keys|;
  }

  /** A query that has not returned always waits for something that can happen once attempts end. */
  lemma NeverStuck(es: seq<Entry>, query: Query, h: Hedged, o: Outcome, now: nat) returns (ev: Event)
    requires Sound(es, query, h) && (h.phase.Inline? || h.phase.Waiting?)
    ensures Possible(h, ev, now)
  {
    if h.phase.Inline? {
      ev := InlineEnds(o);
    } else {
      assert h.pending.Keys != {};
      var i :| i in h.pending;
      ev := if h.pending[i].Running? then AttemptEnds(i, o) else Joined(i);
    }
  }

  // ---- Ideal scheduling ------------------------------------------------------------------------------------

  ghost predicate AllBounded(es: seq<Entry>) {
    forall i | 0 <= i < |es| :: es[i].timeoutMs > 0
  }

  /** The next upstream is due no later than 300 ms after each of the earlier ones. */
  ghost predicate OnTime(es: seq<Entry>, h: Hedged, since: nat) {
    (h.phase.Inline? || h.phase.Waiting?) && h.next < |es| ==>
      h.hedgeAt.Some? && h.hedgeAt.value <= since + 300 * h.next
  }

  /** No armed hedge is overdue. */
  ghost predicate Prompt(h: Hedged, now: nat) {
    h.hedgeAt.Some? ==> now <= h.hedgeAt.value
  }

  /** With permits free and no hedge overdue, every event keeps the schedule. */
  lemma ReactOnTime(es: seq<Entry>, query: Query, h: Hedged, ev: Event, now: nat, since: nat)
    requires Sound(es, query, h) && Possible(h, ev, now) && AllBounded(es)
    requires OnTime(es, h, since) && Prompt(h, now)
    ensures OnTime(es, React(es, query, h, ev, now, true), since)
  {
    assert h.next < |es| ==> now <= since + 300 * h.next;
    assert 300 * (h.next + 1) == 300 * h.next + HEDGE_DELAY;
  }
}
