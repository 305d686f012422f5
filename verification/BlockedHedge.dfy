/** A run in which a hedge that the budget blocked is not retried when a pending attempt gives its permit back. */
module BlockedHedge {
  import opened Prelude
  import opened Hedging
  import opened AttemptBudget

  ghost predicate Reaches(es: seq<Entry>, s: State, run: seq<Label>, t: State) {
    Legal(es, s, run) && Final(es, s, run) == t
  }

  lemma {:induction false} Then(es: seq<Entry>, s: State, run: seq<Label>, t: State, l: Label, u: State)
    requires Reaches(es, s, run, t) && Enabled(es, t, l) && u == Step(es, t, l)
    ensures Reaches(es, s, run + [l], u)
    decreases |run|
  {
    if run == [] {
      assert [l][1..] == [];
    } else {
      Then(es, Step(es, s, run[0]), run[1..], t, l, u);
      assert (run + [l])[1..] == run[1..] + [l];
    }
  }

  /** Three upstreams with deadlines. */
  ghost predicate Three(es: seq<Entry>) {
    |es| == 3 && forall i | 0 <= i < 3 :: es[i].timeoutMs > 0
  }

  lemma ArrivalPollsFirst(es: seq<Entry>, s: State, f: nat, query: Query, u: State)
    requires Three(es) && f !in s.forwards && s.permits > 0 && u == Step(es, s, Arrives(f, query))
    ensures u.permits == s.permits - 1 && u.now == s.now && u.forwards.Keys == s.forwards.Keys + {f}
    ensures u.forwards[f] ==
            Forward(query, s.now, [], Hedge(Hedged(1, Some(s.now + HEDGE_DELAY), map[], map[], Inline(0))))
    ensures forall g | g in s.forwards :: u.forwards[g] == s.forwards[g]
  {
    assert START.pending.Keys == {};
  }

  /** `n` more queries, each polling its first upstream. */
  lemma {:induction false} Crowd(es: seq<Entry>, s: State, run: seq<Label>, t: State, query: Query, m: nat, n: nat)
    returns (longer: seq<Label>, u: State)
    requires Three(es) && Reaches(es, s, run, t) && t.permits >= n && (forall f | f in t.forwards :: f < m)
    ensures Reaches(es, s, longer, u) && u.permits == t.permits - n && u.now == t.now
    ensures forall g | g in t.forwards :: g in u.forwards && u.forwards[g] == t.forwards[g]
    decreases n
  {
    longer, u := run, t;
    if n > 0 {
      var next := Step(es, t, Arrives(m, query));
      ArrivalPollsFirst(es, t, m, query, next);
      Then(es, s, run, t, Arrives(m, query), next);
      longer, u := Crowd(es, s, run + [Arrives(m, query)], next, query, m + 1, n - 1);
    }
  }

  /** What query 0 is at. */
  ghost predicate At(s: State, query: Query, h: Hedged, now: nat, permits: nat) {
    s.now == now && s.permits == permits && 0 in s.forwards && s.forwards[0].query == query
    && s.forwards[0].mode == Hedge(h)
  }

  lemma Reacts(es: seq<Entry>, s: State, query: Query, h: Hedged, ev: Event, permits: nat, u: State)
    requires At(s, query, h, s.now, permits) && Possible(h, ev, s.now) && u == Step(es, s, Hedges(0, ev))
    requires var freed := permits + if ev.InlineEnds? || ev.AttemptEnds? then 1 else 0;
             var after := React(es, query, h, ev, s.now, freed > 0);
             !after.phase.Returned? && (after.next != h.next ==> freed > 0)
    ensures var freed := permits + if ev.InlineEnds? || ev.AttemptEnds? then 1 else 0;
            var after := React(es, query, h, ev, s.now, freed > 0);
            At(u, query, after, s.now, if after.next != h.next then freed - 1 else freed)
            && u.forwards.Keys == s.forwards.Keys
  {
  }

  /** Two attempts of query 0 are pending, its third upstream is due, and every permit is taken. */
  function TwoPending(hedgeAt: Option<nat>): Hedged {
    Hedged(2, hedgeAt, map[0 := Running, 1 := Running], map[], Waiting)
  }

  lemma FirstIsRaced(es: seq<Entry>, s: State, query: Query, u: State)
    requires At(s, query, Hedged(1, Some(HEDGE_DELAY), map[], map[], Inline(0)), HEDGE_DELAY, MAX_ATTEMPTS - 1)
    requires Three(es) && u == Step(es, s, Hedges(0, InlineSlow))
    ensures At(u, query, TwoPending(Some(2 * HEDGE_DELAY)), HEDGE_DELAY, MAX_ATTEMPTS - 2)
    ensures u.forwards.Keys == s.forwards.Keys
  {
    var h := Hedged(1, Some(HEDGE_DELAY), map[], map[], Inline(0));
    Reacts(es, s, query, h, InlineSlow, MAX_ATTEMPTS - 1, u);
    assert map[][0 := Running].Keys == {0};
    assert React(es, query, h, InlineSlow, HEDGE_DELAY, true) == TwoPending(Some(2 * HEDGE_DELAY));
  }

  lemma ReachesBlocked(es: seq<Entry>, servers: seq<Server>, query: Query) returns (run: seq<Label>, t: State)
    requires Three(es)
    ensures Reaches(es, Initial(servers), run, t)
    ensures At(t, query, TwoPending(Some(2 * HEDGE_DELAY)), 2 * HEDGE_DELAY, 0)
  {
    var s := Initial(servers);
    var arrived := Step(es, s, Arrives(0, query));
    ArrivalPollsFirst(es, s, 0, query, arrived);
    Then(es, s, [], s, Arrives(0, query), arrived);
    var slow := Step(es, arrived, Ticks(HEDGE_DELAY));
    Then(es, s, [] + [Arrives(0, query)], arrived, Ticks(HEDGE_DELAY), slow);
    run := [] + [Arrives(0, query)] + [Ticks(HEDGE_DELAY)];
    var raced := Step(es, slow, Hedges(0, InlineSlow));
    FirstIsRaced(es, slow, query, raced);
    Then(es, s, run, slow, Hedges(0, InlineSlow), raced);
    var full;
    run, full := Crowd(es, s, run + [Hedges(0, InlineSlow)], raced, query, 1, MAX_ATTEMPTS - 2);
    t := Step(es, full, Ticks(HEDGE_DELAY));
    Then(es, s, run, full, Ticks(HEDGE_DELAY), t);
    run := run + [Ticks(HEDGE_DELAY)];
  }

  /** The due hedge finds no permit and is disarmed. */
  lemma Disarms(es: seq<Entry>, s: State, query: Query, u: State)
    requires At(s, query, TwoPending(Some(2 * HEDGE_DELAY)), 2 * HEDGE_DELAY, 0)
    requires u == Step(es, s, Hedges(0, HedgeDue))
    ensures At(u, query, TwoPending(None), 2 * HEDGE_DELAY, 0)
  {
    var due := TwoPending(Some(2 * HEDGE_DELAY));
    assert due.pending.Keys == {0, 1};
    Reacts(es, s, query, due, HedgeDue, 0, u);
  }

  /** The first attempt has failed, and the loop has not seen it yet. */
  function FirstFailed(): Hedged {
    Hedged(2, None, map[0 := Finished(Failed), 1 := Running], map[], Waiting)
  }

  lemma FirstFails(es: seq<Entry>, s: State, query: Query, u: State)
    requires At(s, query, TwoPending(None), 2 * HEDGE_DELAY, 0)
    requires u == Step(es, s, Hedges(0, AttemptEnds(0, Failed)))
    ensures At(u, query, FirstFailed(), 2 * HEDGE_DELAY, 1)
  {
    Reacts(es, s, query, TwoPending(None), AttemptEnds(0, Failed), 0, u);
    assert TwoPending(None).pending[0 := Finished(Failed)] == FirstFailed().pending;
  }

  lemma FirstIsSeen(es: seq<Entry>, s: State, query: Query, u: State)
    requires At(s, query, FirstFailed(), 2 * HEDGE_DELAY, 1) && u == Step(es, s, Hedges(0, Joined(0)))
    ensures At(u, query, Hedged(2, None, map[1 := Running], map[0 := Failed], Waiting), 2 * HEDGE_DELAY, 1)
  {
    assert FirstFailed().pending - {0} == map[1 := Running] && map[1 := Running].Keys == {1};
    Reacts(es, s, query, FirstFailed(), Joined(0), 1, u);
  }

  /**
   * The due hedge finds no permit; then an attempt fails, its permit is free again and its outcome has been seen, and
   * still the third upstream has not been started.
   */
  lemma FreedPermitDoesNotRetry(es: seq<Entry>, servers: seq<Server>, query: Query)
    returns (run: seq<Label>, blocked: State, t: State)
    requires Three(es)
    ensures Reaches(es, Initial(servers), run, blocked)
    ensures At(blocked, query, TwoPending(Some(2 * HEDGE_DELAY)), 2 * HEDGE_DELAY, 0)
    ensures Reaches(es, Initial(servers),
                    run + [Hedges(0, HedgeDue)] + [Hedges(0, AttemptEnds(0, Failed))] + [Hedges(0, Joined(0))], t)
    ensures At(t, query, Hedged(2, None, map[1 := Running], map[0 := Failed], Waiting), 2 * HEDGE_DELAY, 1)
  {
    var s := Initial(servers);
    run, blocked := ReachesBlocked(es, servers, query);
    var disarmed := Step(es, blocked, Hedges(0, HedgeDue));
    Disarms(es, blocked, query, disarmed);
    Then(es, s, run, blocked, Hedges(0, HedgeDue), disarmed);
    var longer := run + [Hedges(0, HedgeDue)];
    var ended := Step(es, disarmed, Hedges(0, AttemptEnds(0, Failed)));
    FirstFails(es, disarmed, query, ended);
    Then(es, s, longer, disarmed, Hedges(0, AttemptEnds(0, Failed)), ended);
    t := Step(es, ended, Hedges(0, Joined(0)));
    FirstIsSeen(es, ended, query, t);
    Then(es, s, longer + [Hedges(0, AttemptEnds(0, Failed))], ended, Hedges(0, Joined(0)), t);
  }
}
