/** Every answer a client gets was sent by someone who was asked for it. */
module AnswerRuns {
  import opened Prelude
  import opened Hedging
  import opened AttemptBudget

  /** The outcome of one of query `f`'s attempts that this step brings. */
  ghost function HeardIn(l: Label, f: nat): set<Outcome> {
    match l
    case Hedges(g, InlineEnds(o)) => if g == f then {o} else {}
    case Hedges(g, AttemptEnds(_, o)) => if g == f then {o} else {}
    case SingleEnds(g, o) => if g == f then {o} else {}
    case SystemEnds(g, o) => if g == f then {o} else {}
    case _ => {}
  }

  ghost function Heard(run: seq<Label>, f: nat): set<Outcome> {
    if run == [] then {} else HeardIn(run[0], f) + Heard(run[1..], f)
  }

  ghost predicate AllHeard(h: Hedged, heard: set<Outcome>) {
    (forall i | i in h.ended :: h.ended[i] in heard)
    && forall i | i in h.pending && h.pending[i].Finished? :: h.pending[i].outcome in heard
  }

  /** An answer that was heard. */
  ghost predicate Told(query: Query, a: Bytes, heard: set<Outcome>) {
    exists o :: o in heard && IsAnswer(query, o, a)
  }

  ghost predicate FromHeard(s: State, f: nat, heard: set<Outcome>) {
    f in s.forwards ==>
      match s.forwards[f].mode
      case Hedge(h) => AllHeard(h, heard)
      case Replied(Some(a)) => Told(s.forwards[f].query, a, heard)
      case _ => true
  }

  lemma MoreHeard(s: State, f: nat, heard: set<Outcome>, more: set<Outcome>)
    requires FromHeard(s, f, heard)
    ensures FromHeard(s, f, heard + more)
  {
  }

  lemma AdvanceHeard(es: seq<Entry>, h: Hedged, now: nat, free: bool, heard: set<Outcome>)
    requires AllHeard(h, heard)
    ensures AllHeard(Advance(es, h, now, free), heard)
    ensures !(Advance(es, h, now, free).phase.Returned? && Advance(es, h, now, free).phase.answer.Some?)
  {
  }

  /** What a reaction returns has been heard, like all it remembers. */
  ghost predicate ReturnsHeard(query: Query, h: Hedged, heard: set<Outcome>) {
    AllHeard(h, heard)
    && (h.phase.Returned? && h.phase.answer.Some? ==> Told(query, h.phase.answer.value, heard))
  }

  lemma JudgeHeard(es: seq<Entry>, query: Query, h: Hedged, i: nat, o: Outcome, now: nat, free: bool,
                   heard: set<Outcome>)
    requires AllHeard(h, heard) && o in heard
    ensures ReturnsHeard(query, Judge(es, query, h, i, o, now, free), heard)
  {
    var seen := h.(ended := h.ended[i := o]);
    AnswerExactly(query, o, if IsRejected(o) then [] else ConfiguredAnswer(query, o).value);
    if ConfiguredAnswer(query, o).None? {
      AdvanceHeard(es, seen, now, free, heard);
    } else {
      assert IsAnswer(query, o, ConfiguredAnswer(query, o).value);
    }
  }

  lemma ReactHeard(es: seq<Entry>, query: Query, h: Hedged, ev: Event, now: nat, free: bool, heard: set<Outcome>)
    requires AllHeard(h, heard) && Possible(h, ev, now)
    requires ev.InlineEnds? || ev.AttemptEnds? ==> ev.outcome in heard
    ensures ReturnsHeard(query, React(es, query, h, ev, now, free), heard)
  {
    match ev
    case InlineEnds(o) => JudgeHeard(es, query, h, h.phase.index, o, now, free, heard);
    case InlineSlow => AdvanceHeard(es, h.(pending := h.pending[h.phase.index := Running]), now, free, heard);
    case Joined(i) =>
      JudgeHeard(es, query, h.(pending := h.pending - {i}), i, h.pending[i].outcome, now, free, heard);
    case HedgeDue => AdvanceHeard(es, h, now, free, heard);
    case AttemptEnds(i, o) =>
  }

  lemma CommitHeard(s: State, f: nat, h: Hedged, heard: set<Outcome>, t: State)
    requires f in s.forwards && s.forwards[f].mode.Hedge?
    requires h.next != s.forwards[f].mode.h.next ==> s.permits > 0
    requires ReturnsHeard(s.forwards[f].query, h, heard) && t == Commit(s, f, h)
    ensures FromHeard(t, f, heard) && f in t.forwards && t.forwards[f].query == s.forwards[f].query
  {
  }

  lemma HedgesHeard(es: seq<Entry>, s: State, f: nat, ev: Event, heard: set<Outcome>, t: State)
    requires Enabled(es, s, Hedges(f, ev)) && FromHeard(s, f, heard) && HeardIn(Hedges(f, ev), f) <= heard
    requires t == HedgeStep(es, s, f, ev)
    ensures FromHeard(t, f, heard)
  {
    var freed := Freed(s, f, ev);
    ReactHeard(es, s.forwards[f].query, s.forwards[f].mode.h, ev, s.now, freed.permits > 0, heard);
    CommitHeard(freed, f, Reaction(es, s, f, ev), heard, t);
  }

  lemma ArrivesHeard(es: seq<Entry>, s: State, f: nat, query: Query, heard: set<Outcome>, t: State)
    requires f !in s.forwards && t == Arrive(es, s, f, query)
    ensures FromHeard(t, f, heard)
  {
    if |es| != 1 {
      var admitted := s.(forwards := s.forwards[f := Forward(query, s.now, [], Hedge(START))]);
      AdvanceHeard(es, START, s.now, s.permits > 0, heard);
      CommitHeard(admitted, f, Advance(es, START, s.now, s.permits > 0), heard, t);
    }
  }

  lemma SingleHeard(s: State, f: nat, o: Outcome, heard: set<Outcome>, t: State)
    requires f in s.forwards && s.forwards[f].mode.Single? && o in heard && t == EndSingle(s, f, o)
    ensures FromHeard(t, f, heard)
  {
    SingleExactly(s, f, o);
  }

  lemma SystemHeard(es: seq<Entry>, s: State, f: nat, o: Outcome, heard: set<Outcome>, t: State)
    requires Enabled(es, s, SystemEnds(f, o)) && o in heard && t == EndSystem(s, f, o)
    ensures FromHeard(t, f, heard)
  {
    if !IsRejected(o) {
      assert o.reply[..2] == s.forwards[f].query[..2];
      assert IsAnswer(s.forwards[f].query, o, o.reply);
    }
  }

  lemma StepHeard(es: seq<Entry>, s: State, l: Label, f: nat, heard: set<Outcome>)
    requires Enabled(es, s, l) && FromHeard(s, f, heard) && HeardIn(l, f) <= heard
    ensures FromHeard(Step(es, s, l), f, heard)
  {
    var t := Step(es, s, l);
    if !Concerns(l, f) {
      OthersUnmoved(es, s, l, f);
    } else {
      match l
      case Arrives(_, query) => ArrivesHeard(es, s, f, query, heard, t);
      case Hedges(_, ev) => HedgesHeard(es, s, f, ev, heard, t);
      case SingleEnds(_, o) => SingleHeard(s, f, o, heard, t);
      case SystemEnds(_, o) => SystemHeard(es, s, f, o, heard, t);
      case Cancelled(_) => CancelSays(s, f);
    }
  }

  lemma CancelSays(s: State, f: nat)
    requires f in s.forwards && !s.forwards[f].mode.Replied?
    ensures f in Cancel(s, f).forwards && Cancel(s, f).forwards[f].mode == Replied(None)
  {
  }

  lemma {:induction false} RunHeard(es: seq<Entry>, s: State, run: seq<Label>, f: nat, heard: set<Outcome>)
    requires Legal(es, s, run) && FromHeard(s, f, heard)
    ensures FromHeard(Final(es, s, run), f, heard + Heard(run, f))
    decreases |run|
  {
    if run == [] {
      assert heard + Heard(run, f) == heard;
    } else {
      var more := heard + HeardIn(run[0], f);
      MoreHeard(s, f, heard, HeardIn(run[0], f));
      StepHeard(es, s, run[0], f, more);
      RunHeard(es, Step(es, s, run[0]), run[1..], f, more);
      assert more + Heard(run[1..], f) == heard + Heard(run, f);
    }
  }

  /**
   * In every run an answered query's answer is a reply it received: of the same length, the same octets after the ID,
   * no SERVFAIL, and under the query's own ID.
   */
  lemma EveryAnswerWasReceived(es: seq<Entry>, servers: seq<Server>, run: seq<Label>, f: nat) returns (r: Bytes)
    requires Legal(es, Initial(servers), run)
    requires f in Final(es, Initial(servers), run).forwards
    requires Final(es, Initial(servers), run).forwards[f].mode.Replied?
    requires Final(es, Initial(servers), run).forwards[f].mode.answer.Some?
    ensures var fw := Final(es, Initial(servers), run).forwards[f];
            var a := fw.mode.answer.value;
            |a| == |r| >= HEADER_LEN && Response(r) in Heard(run, f) && r[3] % 16 != 2
            && a[2..] == r[2..] && a[..2] == fw.query[..2]
  {
    var s := Final(es, Initial(servers), run);
    RunHeard(es, Initial(servers), run, f, {});
    assert {} + Heard(run, f) == Heard(run, f);
    var o :| o in Heard(run, f) && IsAnswer(s.forwards[f].query, o, s.forwards[f].mode.answer.value);
    r := o.reply;
  }
}
