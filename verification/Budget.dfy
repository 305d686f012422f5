/** Many client queries share one budget of 512 attempts, detached losers and system lookups included. */
module AttemptBudget {
  import opened Prelude
  import opened Questions
  import opened Hedging

  const MAX_ATTEMPTS: nat := 512

  type Server = nat

  /** Who holds a permit: an upstream attempt of a query, live or detached, or its system lookup. */
  datatype Holder = Upstream(query: nat, index: nat) | SystemLookup(query: nat)

  datatype Mode = Hedge(h: Hedged) | Single | System(servers: seq<Server>) | Replied(answer: Option<Bytes>)

  /** `asked` is the list of system servers this query turned to. */
  datatype Forward = Forward(query: Query, since: nat, asked: seq<Server>, mode: Mode)

  datatype State = State(now: nat, permits: nat, servers: seq<Server>, forwards: map<nat, Forward>,
                         losers: set<Holder>, holders: set<Holder>)

  function Initial(servers: seq<Server>): State {
    State(0, MAX_ATTEMPTS, servers, map[], {}, {})
  }

  /** Take a permit for `who`; `permits > 0` is the caller's test. */
  function Acquire(s: State, who: Holder): State
    requires s.permits > 0
  {
    s.(permits := s.permits - 1, holders := s.holders + {who})
  }

  function Release(s: State, who: Holder): State {
    s.(permits := s.permits + 1, holders := s.holders - {who}, losers := s.losers - {who})
  }

  function SetMode(s: State, f: nat, mode: Mode): State
    requires f in s.forwards
  {
    s.(forwards := s.forwards[f := s.forwards[f].(mode := mode)])
  }

  /** The configured upstreams gave nothing: ask the system's own servers, if a permit and a server are to be had. */
  function ToSystem(s: State, f: nat): State
    requires f in s.forwards
  {
    if s.permits == 0 || s.servers == [] then SetMode(s, f, Replied(None))
    else
      var t := Acquire(s, SystemLookup(f));
      t.(forwards := t.forwards[f := t.forwards[f].(asked := s.servers, mode := System(s.servers))])
  }

  /** Attempts still running when their query is answered keep their permits until they end or are aborted. */
  function Losers(f: nat, h: Hedged): set<Holder> {
    set i | i in h.pending && h.pending[i].Running? :: Upstream(f, i)
  }

  /** The loop has come to rest, or returned. */
  function Settle(s: State, f: nat, h: Hedged): State
    requires f in s.forwards
  {
    match h.phase
    case Returned(Some(a)) => SetMode(s.(losers := s.losers + Losers(f, h)), f, Replied(Some(a)))
    case Returned(None) => ToSystem(s, f)
    case _ => SetMode(s, f, Hedge(h))
  }

  /** Commit one reaction of query `f`, with a permit for the upstream it started. */
  function Commit(s: State, f: nat, h: Hedged): State
    requires f in s.forwards && s.forwards[f].mode.Hedge?
    requires h.next != s.forwards[f].mode.h.next ==> s.permits > 0
  {
    var next := s.forwards[f].mode.h.next;
    Settle(if h.next != next then Acquire(s, Upstream(f, next)) else s, f, h)
  }

  /** A finished attempt drops its permit before the loop sees the outcome. */
  function Freed(s: State, f: nat, ev: Event): State
    requires f in s.forwards && s.forwards[f].mode.Hedge? && Possible(s.forwards[f].mode.h, ev, s.now)
  {
    match ev
    case InlineEnds(_) => Release(s, Upstream(f, s.forwards[f].mode.h.phase.index))
    case AttemptEnds(i, _) => Release(s, Upstream(f, i))
    case _ => s
  }

  datatype Label =
    | Arrives(f: nat, query: Query)
    | Ticks(ms: nat)
    | ServersCaptured(servers: seq<Server>)
    | Hedges(f: nat, ev: Event)
    | SingleEnds(f: nat, outcome: Outcome)
    | SystemEnds(f: nat, outcome: Outcome)
    | LoserEnds(who: Holder)
    | Cancelled(f: nat)

  /** System replies have already been matched to the query's ID. */
  predicate Enabled(es: seq<Entry>, s: State, l: Label) {
    match l
    case Arrives(f, _) => f !in s.forwards
    case Ticks(_) => true
    case ServersCaptured(servers) => servers != []
    case Hedges(f, ev) => f in s.forwards && s.forwards[f].mode.Hedge? && Possible(s.forwards[f].mode.h, ev, s.now)
    case SingleEnds(f, _) => f in s.forwards && s.forwards[f].mode.Single?
    case SystemEnds(f, o) =>
      f in s.forwards && s.forwards[f].mode.System?
      && (o.Response? ==> o.reply[0] == s.forwards[f].query[0] && o.reply[1] == s.forwards[f].query[1])
    case LoserEnds(who) => who in s.losers
    case Cancelled(f) => f in s.forwards && !s.forwards[f].mode.Replied?
  }

  /** One configured upstream is asked directly; otherwise the hedged loop starts. */
  function Arrive(es: seq<Entry>, s: State, f: nat, query: Query): State
    requires f !in s.forwards
  {
    if |es| == 1 then
      if s.permits == 0 then s.(forwards := s.forwards[f := Forward(query, s.now, [], Replied(None))])
      else Acquire(s.(forwards := s.forwards[f := Forward(query, s.now, [], Single)]), Upstream(f, 0))
    else
      var admitted := s.(forwards := s.forwards[f := Forward(query, s.now, [], Hedge(START))]);
      Commit(admitted, f, Advance(es, START, s.now, s.permits > 0))
  }

  function Reaction(es: seq<Entry>, s: State, f: nat, ev: Event): Hedged
    requires Enabled(es, s, Hedges(f, ev))
  {
    React(es, s.forwards[f].query, s.forwards[f].mode.h, ev, s.now, Freed(s, f, ev).permits > 0)
  }

  function HedgeStep(es: seq<Entry>, s: State, f: nat, ev: Event): State
    requires Enabled(es, s, Hedges(f, ev))
  {
    Commit(Freed(s, f, ev), f, Reaction(es, s, f, ev))
  }

  function EndSingle(s: State, f: nat, o: Outcome): State
    requires f in s.forwards
  {
    var t := Release(s, Upstream(f, 0));
    var answer := ConfiguredAnswer(s.forwards[f].query, o);
    if answer.Some? then SetMode(t, f, Replied(answer))
    else ToSystem(t, f)
  }

  /** A SERVFAIL or an error moves on to the next server, in order. */
  function EndSystem(s: State, f: nat, o: Outcome): State
    requires f in s.forwards && s.forwards[f].mode.System?
  {
    var left := s.forwards[f].mode.servers;
    if o.Response? && Rcode(o.reply) != SERVFAIL then SetMode(Release(s, SystemLookup(f)), f, Replied(Some(o.reply)))
    else if |left| <= 1 then SetMode(Release(s, SystemLookup(f)), f, Replied(None))
    else SetMode(s, f, System(left[1..]))
  }

  /** Dropping a query drops what it polls itself and aborts what it spawned. */
  function Cancel(s: State, f: nat): State
    requires f in s.forwards
  {
    match s.forwards[f].mode
    case Hedge(h) =>
      var t := if h.phase.Inline? then Release(s, Upstream(f, h.phase.index)) else s;
      SetMode(t.(losers := t.losers + Losers(f, h)), f, Replied(None))
    case Single => SetMode(Release(s, Upstream(f, 0)), f, Replied(None))
    case System(_) => SetMode(Release(s, SystemLookup(f)), f, Replied(None))
    case Replied(_) => s
  }

  function Step(es: seq<Entry>, s: State, l: Label): State
    requires Enabled(es, s, l)
  {
    match l
    case Arrives(f, query) => Arrive(es, s, f, query)
    case Ticks(ms) => s.(now := s.now + ms)
    case ServersCaptured(servers) => s.(servers := servers)
    case Hedges(f, ev) => HedgeStep(es, s, f, ev)
    case SingleEnds(f, o) => EndSingle(s, f, o)
    case SystemEnds(f, o) => EndSystem(s, f, o)
    case LoserEnds(who) => Release(s, who)
    case Cancelled(f) => Cancel(s, f)
  }

  // ---- The books ------------------------------------------------------------------------------------

  ghost function HoldersOf(f: nat, mode: Mode): set<Holder> {
    match mode
    case Hedge(h) => set i | i in Live(h) :: Upstream(f, i)
    case Single => {Upstream(f, 0)}
    case System(_) => {SystemLookup(f)}
    case Replied(_) => {}
  }

  /** Every permit is free or held, with query `f` holding exactly `live` and every other query what its mode says. */
  ghost predicate Books(s: State, f: nat, live: set<Holder>) {
    s.permits + |s.holders| == MAX_ATTEMPTS
    && (forall who | who in live :: who.query == f)
    && (forall who | who in s.losers :: who.query != f)
    && (forall who :: who in s.holders <==>
          who in s.losers
          || if who.query == f then who in live
             else who.query in s.forwards && who in HoldersOf(who.query, s.forwards[who.query].mode))
  }

  ghost predicate Balanced(s: State) {
    s.permits + |s.holders| == MAX_ATTEMPTS
    && (forall who :: who in s.holders <==>
          who in s.losers || (who.query in s.forwards && who in HoldersOf(who.query, s.forwards[who.query].mode)))
  }

  /** Losers belong to answered queries and have a deadline of their own. */
  ghost predicate LosersBounded(es: seq<Entry>, s: State) {
    forall who | who in s.losers ::
      who.Upstream? && who.index < |es| && es[who.index].timeoutMs > 0
      && who.query in s.forwards && s.forwards[who.query].mode.Replied?
  }

  /** An answer is a reply under the client's ID and is no SERVFAIL. */
  ghost predicate GoodAnswer(query: Query, answer: Bytes) {
    exists o :: IsAnswer(query, o, answer)
  }

  ghost predicate IsSuffix(left: seq<Server>, all: seq<Server>) {
    |left| <= |all| && left == all[|all| - |left|..]
  }

  ghost predicate ForwardSound(es: seq<Entry>, fw: Forward) {
    match fw.mode
    case Hedge(h) => |es| != 1 && Sound(es, fw.query, h) && (h.phase.Inline? || h.phase.Waiting?)
    case Single => |es| == 1
    case System(left) => left != [] && IsSuffix(left, fw.asked)
    case Replied(Some(a)) => GoodAnswer(fw.query, a)
    case Replied(None) => true
  }

  ghost predicate Inv(es: seq<Entry>, s: State) {
    Balanced(s) && LosersBounded(es, s) && forall f | f in s.forwards :: ForwardSound(es, s.forwards[f])
  }

  lemma OpenBooks(es: seq<Entry>, s: State, f: nat)
    requires Inv(es, s) && (f in s.forwards ==> !s.forwards[f].mode.Replied?)
    ensures Books(s, f, if f in s.forwards then HoldersOf(f, s.forwards[f].mode) else {})
  {
  }

  lemma AcquireBooks(s: State, f: nat, live: set<Holder>, who: Holder)
    requires Books(s, f, live) && who.query == f && who !in live && s.permits > 0
    ensures Books(Acquire(s, who), f, live + {who})
  {
    assert who !in s.holders;
  }

  lemma ReleaseBooks(s: State, f: nat, live: set<Holder>, who: Holder)
    requires Books(s, f, live) && who in live
    ensures Books(Release(s, who), f, live - {who})
  {
    assert who in s.holders && who.query == f;
  }

  lemma CloseBooks(es: seq<Entry>, s: State, f: nat, live: set<Holder>, fw: Forward)
    requires Books(s, f, live) && LosersBounded(es, s) && live == HoldersOf(f, fw.mode) && ForwardSound(es, fw)
    requires forall g | g in s.forwards && g != f :: ForwardSound(es, s.forwards[g])
    ensures Inv(es, s.(forwards := s.forwards[f := fw]))
  {
  }

  /** Answered: what still runs is left to end by itself. */
  lemma CloseWithLosers(es: seq<Entry>, s: State, f: nat, live: set<Holder>, fw: Forward)
    requires Books(s, f, live) && LosersBounded(es, s) && fw.mode.Replied? && ForwardSound(es, fw)
    requires forall who | who in live :: who.Upstream? && who.index < |es| && es[who.index].timeoutMs > 0
    requires forall g | g in s.forwards && g != f :: ForwardSound(es, s.forwards[g])
    ensures Inv(es, s.(losers := s.losers + live, forwards := s.forwards[f := fw]))
  {
  }

  ghost predicate OthersSound(es: seq<Entry>, s: State, f: nat) {
    LosersBounded(es, s) && forall g | g in s.forwards && g != f :: ForwardSound(es, s.forwards[g])
  }

  lemma ToSystemInv(es: seq<Entry>, s: State, f: nat)
    requires f in s.forwards && Books(s, f, {}) && OthersSound(es, s, f)
    ensures Inv(es, ToSystem(s, f))
  {
    if s.permits == 0 || s.servers == [] {
      CloseBooks(es, s, f, {}, s.forwards[f].(mode := Replied(None)));
    } else {
      AcquireBooks(s, f, {}, SystemLookup(f));
      CloseBooks(es, Acquire(s, SystemLookup(f)), f, {SystemLookup(f)},
                 s.forwards[f].(asked := s.servers, mode := System(s.servers)));
    }
  }

  lemma AnswersAreGood(query: Query, ended: map<nat, Outcome>, a: Bytes)
    requires exists i :: i in ended && IsAnswer(query, ended[i], a)
    ensures GoodAnswer(query, a)
  {
  }

  lemma LosersAreLive(f: nat, h: Hedged)
    requires !h.phase.Inline?
    ensures Losers(f, h) == (set i | i in Live(h) :: Upstream(f, i))
  {
  }

  lemma SettleInv(es: seq<Entry>, s: State, f: nat, query: Query, h: Hedged)
    requires f in s.forwards && s.forwards[f].query == query && |es| != 1 && OthersSound(es, s, f)
    requires Books(s, f, HoldersOf(f, Hedge(h))) && Sound(es, query, h) && !h.phase.Fresh?
    ensures Inv(es, Settle(s, f, h))
  {
    var fw := s.forwards[f];
    match h.phase
    case Returned(Some(a)) =>
      AnswersAreGood(fw.query, h.ended, a);
      LosersAreLive(f, h);
      CloseWithLosers(es, s, f, Losers(f, h), fw.(mode := Replied(Some(a))));
    case Returned(None) =>
      assert Live(h) == {};
      assert HoldersOf(f, Hedge(h)) == {};
      ToSystemInv(es, s, f);
    case _ =>
      CloseBooks(es, s, f, HoldersOf(f, Hedge(h)), fw.(mode := Hedge(h)));
  }

  function Holding(f: nat, live: set<nat>): set<Holder> {
    set i | i in live :: Upstream(f, i)
  }

  lemma HoldingOf(f: nat, h: Hedged, live: set<nat>, next: nat)
    ensures Live(h) == live ==> HoldersOf(f, Hedge(h)) == Holding(f, live)
    ensures Live(h) == live + {next} ==> HoldersOf(f, Hedge(h)) == Holding(f, live) + {Upstream(f, next)}
  {
  }

  /** A reaction is committed with its books in order. */
  lemma CommitInv(es: seq<Entry>, s: State, f: nat, query: Query, h: Hedged, live: set<nat>, next: nat)
    requires f in s.forwards && s.forwards[f].mode.Hedge? && s.forwards[f].query == query
    requires s.forwards[f].mode.h.next == next && next !in live && |es| != 1 && OthersSound(es, s, f)
    requires Books(s, f, Holding(f, live)) && StartsAtMostNext(es, next, live, h, s.permits > 0)
    requires Sound(es, query, h) && !h.phase.Fresh?
    ensures Inv(es, Commit(s, f, h))
  {
    HoldingOf(f, h, live, next);
    if h.next != next {
      AcquireBooks(s, f, Holding(f, live), Upstream(f, next));
      SettleInv(es, Acquire(s, Upstream(f, next)), f, query, h);
    } else {
      SettleInv(es, s, f, query, h);
    }
  }

  lemma LiveBelowNext(es: seq<Entry>, query: Query, h: Hedged, ev: Event, now: nat)
    requires Sound(es, query, h) && Possible(h, ev, now)
    ensures h.next !in Live(h) && Stopped(h, ev) <= Live(h)
  {
  }

  lemma HoldingWithout(f: nat, h: Hedged, i: nat)
    ensures Holding(f, Live(h) - {i}) == HoldersOf(f, Hedge(h)) - {Upstream(f, i)}
  {
  }

  /** A finished attempt's permit is back before its outcome is looked at. */
  lemma FreedBooks(es: seq<Entry>, s: State, f: nat, ev: Event)
    requires Inv(es, s) && Enabled(es, s, Hedges(f, ev))
    ensures var t := Freed(s, f, ev);
            t.forwards == s.forwards && OthersSound(es, t, f)
            && Books(t, f, Holding(f, Live(s.forwards[f].mode.h) - Stopped(s.forwards[f].mode.h, ev)))
  {
    var h := s.forwards[f].mode.h;
    OpenBooks(es, s, f);
    LiveBelowNext(es, s.forwards[f].query, h, ev, s.now);
    var held := Holding(f, Live(h) - Stopped(h, ev));
    if ev.InlineEnds? || ev.AttemptEnds? {
      var i := if ev.InlineEnds? then h.phase.index else ev.index;
      ReleaseBooks(s, f, HoldersOf(f, Hedge(h)), Upstream(f, i));
      HoldingWithout(f, h, i);
    } else {
      assert held == HoldersOf(f, Hedge(h));
    }
  }

  lemma HedgesInv(es: seq<Entry>, s: State, f: nat, ev: Event)
    requires Inv(es, s) && Enabled(es, s, Hedges(f, ev))
    ensures Inv(es, HedgeStep(es, s, f, ev))
  {
    var fw := s.forwards[f];
    var h := fw.mode.h;
    FreedBooks(es, s, f, ev);
    LiveBelowNext(es, fw.query, h, ev, s.now);
    var t := Freed(s, f, ev);
    ReactStarts(es, fw.query, h, ev, s.now, t.permits > 0);
    ReactSound(es, fw.query, h, ev, s.now, t.permits > 0);
    NotFresh(es, fw.query, h, ev, s.now, t.permits > 0);
    CommitInv(es, t, f, fw.query, React(es, fw.query, h, ev, s.now, t.permits > 0), Live(h) - Stopped(h, ev), h.next);
  }

  lemma NotFresh(es: seq<Entry>, query: Query, h: Hedged, ev: Event, now: nat, free: bool)
    requires Possible(h, ev, now)
    ensures !React(es, query, h, ev, now, free).phase.Fresh?
  {
  }

  lemma ArrivesHedged(es: seq<Entry>, s: State, f: nat, query: Query)
    requires Books(s, f, {}) && OthersSound(es, s, f) && |es| != 1
    requires f in s.forwards && s.forwards[f].mode == Hedge(START) && s.forwards[f].query == query
    ensures Advance(es, START, s.now, s.permits > 0).next != 0 ==> s.permits > 0
    ensures Inv(es, Commit(s, f, Advance(es, START, s.now, s.permits > 0)))
  {
    AdvanceSound(es, query, START, s.now, s.permits > 0);
    assert Live(START) == {};
    AdvanceStarts(es, START, s.now, s.permits > 0);
    assert Holding(f, {}) == {};
    CommitInv(es, s, f, query, Advance(es, START, s.now, s.permits > 0), {}, 0);
  }

  lemma ArrivesInv(es: seq<Entry>, s: State, f: nat, query: Query)
    requires Inv(es, s) && f !in s.forwards
    ensures Inv(es, Arrive(es, s, f, query))
  {
    OpenBooks(es, s, f);
    if |es| == 1 {
      if s.permits == 0 {
        CloseBooks(es, s, f, {}, Forward(query, s.now, [], Replied(None)));
      } else {
        AcquireBooks(s, f, {}, Upstream(f, 0));
        CloseBooks(es, Acquire(s, Upstream(f, 0)), f, {Upstream(f, 0)}, Forward(query, s.now, [], Single));
      }
    } else {
      ArrivesHedged(es, s.(forwards := s.forwards[f := Forward(query, s.now, [], Hedge(START))]), f, query);
    }
  }

  lemma SingleInv(es: seq<Entry>, s: State, f: nat, o: Outcome)
    requires Inv(es, s) && f in s.forwards && s.forwards[f].mode.Single?
    ensures Inv(es, EndSingle(s, f, o))
  {
    OpenBooks(es, s, f);
    ReleaseBooks(s, f, {Upstream(f, 0)}, Upstream(f, 0));
    var t := Release(s, Upstream(f, 0));
    assert {Upstream(f, 0)} - {Upstream(f, 0)} == {};
    var query := s.forwards[f].query;
    AnswerExactly(query, o, if IsRejected(o) then [] else ConfiguredAnswer(query, o).value);
    if ConfiguredAnswer(query, o).Some? {
      assert IsAnswer(query, o, ConfiguredAnswer(query, o).value);
      CloseBooks(es, t, f, {}, s.forwards[f].(mode := Replied(ConfiguredAnswer(query, o))));
    } else {
      ToSystemInv(es, t, f);
    }
  }

  lemma SystemReplyIsGood(query: Query, o: Outcome)
    requires !IsRejected(o) && o.reply[0] == query[0] && o.reply[1] == query[1]
    ensures GoodAnswer(query, o.reply)
  {
    assert o.reply[..2] == query[..2];
    assert IsAnswer(query, o, o.reply);
  }

  lemma SystemAnswered(es: seq<Entry>, s: State, f: nat, answer: Option<Bytes>, t: State)
    requires Inv(es, s) && f in s.forwards && s.forwards[f].mode.System?
    requires answer.Some? ==> GoodAnswer(s.forwards[f].query, answer.value)
    requires t == SetMode(Release(s, SystemLookup(f)), f, Replied(answer))
    ensures Inv(es, t) && SystemLookup(f) !in t.holders && t.permits == s.permits + 1
  {
    var who := SystemLookup(f);
    OpenBooks(es, s, f);
    ReleaseBooks(s, f, {who}, who);
    assert {who} - {who} == {};
    CloseBooks(es, Release(s, who), f, {}, s.forwards[f].(mode := Replied(answer)));
  }

  lemma SystemGoesOn(es: seq<Entry>, s: State, f: nat, t: State)
    requires Inv(es, s) && f in s.forwards && s.forwards[f].mode.System? && |s.forwards[f].mode.servers| > 1
    requires t == SetMode(s, f, System(s.forwards[f].mode.servers[1..]))
    ensures Inv(es, t) && SystemLookup(f) in t.holders && t.permits == s.permits
  {
    OpenBooks(es, s, f);
    CloseBooks(es, s, f, {SystemLookup(f)}, s.forwards[f].(mode := System(s.forwards[f].mode.servers[1..])));
  }

  /**
   * The system servers are asked in order under one permit: an acceptable reply or the last rejection gives the permit
   * back, any other outcome moves on to the next server.
   */
  lemma SystemInv(es: seq<Entry>, s: State, f: nat, o: Outcome)
    requires Inv(es, s) && Enabled(es, s, SystemEnds(f, o))
    ensures Inv(es, EndSystem(s, f, o)) && f in EndSystem(s, f, o).forwards
    ensures var left, t := s.forwards[f].mode.servers, EndSystem(s, f, o);
            t.forwards[f].mode == (if !IsRejected(o) then Replied(Some(o.reply))
                                   else if |left| > 1 then System(left[1..])
                                   else Replied(None))
            && (SystemLookup(f) in t.holders <==> t.forwards[f].mode.System?)
            && t.permits == s.permits + if t.forwards[f].mode.System? then 0 else 1
  {
    var t := EndSystem(s, f, o);
    if !IsRejected(o) {
      SystemReplyIsGood(s.forwards[f].query, o);
      SystemAnswered(es, s, f, Some(o.reply), t);
    } else if |s.forwards[f].mode.servers| > 1 {
      SystemGoesOn(es, s, f, t);
    } else {
      SystemAnswered(es, s, f, None, t);
    }
  }

  lemma InlineHoldsOne(es: seq<Entry>, query: Query, f: nat, h: Hedged)
    requires Sound(es, query, h) && h.phase.Inline?
    ensures Losers(f, h) == {} && HoldersOf(f, Hedge(h)) == {Upstream(f, h.phase.index)}
  {
    assert Live(h) == {h.phase.index};
  }

  lemma CancelInline(es: seq<Entry>, s: State, f: nat, h: Hedged, t: State)
    requires Inv(es, s) && f in s.forwards && s.forwards[f].mode == Hedge(h) && h.phase.Inline?
    requires t == SetMode(Release(s, Upstream(f, h.phase.index)), f, Replied(None))
    ensures Inv(es, t)
  {
    var who := Upstream(f, h.phase.index);
    OpenBooks(es, s, f);
    InlineHoldsOne(es, s.forwards[f].query, f, h);
    ReleaseBooks(s, f, {who}, who);
    assert {who} - {who} == {};
    CloseBooks(es, Release(s, who), f, {}, s.forwards[f].(mode := Replied(None)));
  }

  lemma CancelWaiting(es: seq<Entry>, s: State, f: nat, h: Hedged, t: State)
    requires Inv(es, s) && f in s.forwards && s.forwards[f].mode == Hedge(h) && h.phase.Waiting?
    requires t == SetMode(s.(losers := s.losers + Losers(f, h)), f, Replied(None))
    ensures Inv(es, t)
  {
    OpenBooks(es, s, f);
    LosersAreLive(f, h);
    CloseWithLosers(es, s, f, Losers(f, h), s.forwards[f].(mode := Replied(None)));
  }

  lemma CancelHedged(es: seq<Entry>, s: State, f: nat, h: Hedged, t: State)
    requires Inv(es, s) && f in s.forwards && s.forwards[f].mode == Hedge(h) && t == Cancel(s, f)
    ensures Inv(es, t)
  {
    if h.phase.Inline? {
      InlineHoldsOne(es, s.forwards[f].query, f, h);
      var released := Release(s, Upstream(f, h.phase.index));
      assert released.losers + {} == released.losers;
      CancelInline(es, s, f, h, t);
    } else {
      CancelWaiting(es, s, f, h, t);
    }
  }

  lemma CancelInv(es: seq<Entry>, s: State, f: nat)
    requires Inv(es, s) && f in s.forwards && !s.forwards[f].mode.Replied?
    ensures Inv(es, Cancel(s, f))
  {
    OpenBooks(es, s, f);
    var gone := s.forwards[f].(mode := Replied(None));
    match s.forwards[f].mode
    case Hedge(h) => CancelHedged(es, s, f, h, Cancel(s, f));
    case Single =>
      ReleaseBooks(s, f, {Upstream(f, 0)}, Upstream(f, 0));
      CloseBooks(es, Release(s, Upstream(f, 0)), f, {}, gone);
    case System(_) =>
      ReleaseBooks(s, f, {SystemLookup(f)}, SystemLookup(f));
      CloseBooks(es, Release(s, SystemLookup(f)), f, {}, gone);
  }

  lemma LoserInv(es: seq<Entry>, s: State, who: Holder)
    requires Inv(es, s) && who in s.losers
    ensures Inv(es, Release(s, who))
  {
    assert who in s.holders;
  }

  lemma StepInv(es: seq<Entry>, s: State, l: Label)
    requires Inv(es, s) && Enabled(es, s, l)
    ensures Inv(es, Step(es, s, l))
  {
    match l
    case Arrives(f, query) => ArrivesInv(es, s, f, query);
    case Ticks(_) =>
    case ServersCaptured(_) =>
    case Hedges(f, ev) => HedgesInv(es, s, f, ev);
    case SingleEnds(f, o) => SingleInv(es, s, f, o);
    case SystemEnds(f, o) => SystemInv(es, s, f, o);
    case LoserEnds(who) => LoserInv(es, s, who);
    case Cancelled(f) => CancelInv(es, s, f);
  }

  // ---- Whole runs -------------------------------------------------------------------------------------

  predicate Legal(es: seq<Entry>, s: State, run: seq<Label>)
    decreases |run|
  {
    run == [] || (Enabled(es, s, run[0]) && Legal(es, Step(es, s, run[0]), run[1..]))
  }

  function Final(es: seq<Entry>, s: State, run: seq<Label>): State
    requires Legal(es, s, run)
    decreases |run|
  {
    if run == [] then s else Final(es, Step(es, s, run[0]), run[1..])
  }

  lemma {:induction false} RunInv(es: seq<Entry>, s: State, run: seq<Label>)
    requires Inv(es, s) && Legal(es, s, run)
    ensures Inv(es, Final(es, s, run))
    decreases |run|
  {
    if run != [] {
      StepInv(es, s, run[0]);
      RunInv(es, Step(es, s, run[0]), run[1..]);
    }
  }

  /** In every run free permits and live attempts, detached losers included, make up the whole budget. */
  lemma EveryRun(es: seq<Entry>, servers: seq<Server>, run: seq<Label>)
    requires Legal(es, Initial(servers), run)
    ensures var s := Final(es, Initial(servers), run);
            Inv(es, s) && s.permits + |s.holders| == 512
  {
    RunInv(es, Initial(servers), run);
  }

  /**
   * In every run a query holds a permit for system servers exactly while some of those it turned to are left,
   * in order.
   */
  lemma SystemServersInOrder(es: seq<Entry>, servers: seq<Server>, run: seq<Label>, f: nat)
    requires Legal(es, Initial(servers), run)
    ensures var s := Final(es, Initial(servers), run);
            (SystemLookup(f) in s.holders <==> f in s.forwards && s.forwards[f].mode.System?)
            && (f in s.forwards && s.forwards[f].mode.System? ==>
                  s.forwards[f].mode.servers != [] && IsSuffix(s.forwards[f].mode.servers, s.forwards[f].asked))
  {
    RunInv(es, Initial(servers), run);
    var s := Final(es, Initial(servers), run);
    if f in s.forwards {
      assert ForwardSound(es, s.forwards[f]);
      assert s.forwards[f].mode.System? <==> SystemLookup(f) in HoldersOf(f, s.forwards[f].mode);
    }
  }

  /** The list captured last, `servers` if none has been. */
  ghost function LastCaptured(servers: seq<Server>, run: seq<Label>): seq<Server>
    decreases |run|
  {
    if run == [] then servers
    else LastCaptured(if run[0].ServersCaptured? then run[0].servers else servers, run[1..])
  }

  /** The servers a query can turn to are always those captured last. */
  lemma {:induction false} ServersAreLastCaptured(es: seq<Entry>, s: State, run: seq<Label>)
    requires Legal(es, s, run)
    ensures Final(es, s, run).servers == LastCaptured(s.servers, run)
    decreases |run|
  {
    if run != [] {
      ServersOnlyCaptured(es, s, run[0]);
      ServersAreLastCaptured(es, Step(es, s, run[0]), run[1..]);
    }
  }

  lemma ServersOnlyCaptured(es: seq<Entry>, s: State, l: Label)
    requires Enabled(es, s, l)
    ensures Step(es, s, l).servers == if l.ServersCaptured? then l.servers else s.servers
  {
  }

  /** An attempt without a deadline runs alone in its query and is never left behind. */
  lemma UnboundedAttemptsRunAlone(es: seq<Entry>, s: State, f: nat, i: nat)
    requires Inv(es, s) && i < |es| && es[i].timeoutMs == 0
    ensures Upstream(f, i) !in s.losers
    ensures Upstream(f, i) in s.holders ==> forall k | Upstream(f, k) in s.holders :: k == i
  {
    if Upstream(f, i) in s.holders && s.forwards[f].mode.Hedge? {
      assert s.forwards[f].mode.h.phase == Inline(i);
    }
  }

  lemma HedgeStepMode(es: seq<Entry>, s: State, f: nat, ev: Event)
    requires Enabled(es, s, Hedges(f, ev))
    ensures var t := HedgeStep(es, s, f, ev); f in t.forwards && t.forwards[f].since == s.forwards[f].since
    ensures var mode := HedgeStep(es, s, f, ev).forwards[f].mode; var h := Reaction(es, s, f, ev);
            match h.phase
            case Returned(Some(a)) => mode == Replied(Some(a))
            case Returned(None) => mode.System? || mode == Replied(None)
            case _ => mode == Hedge(h)
  {
  }

  /** The servers captured last are asked, all of them, if there are any and a permit is free. */
  ghost predicate TurnsToSystem(s: State, t: State, f: nat) {
    f in t.forwards &&
    if s.permits > 0 && s.servers != [] then
      t.forwards[f].mode == System(s.servers) && t.forwards[f].asked == s.servers && t.permits == s.permits - 1
    else
      t.forwards[f].mode == Replied(None) && t.permits == s.permits
  }

  /**
   * What an arriving query meets: the only upstream, asked directly, or the first of several, polled at once and with
   * its hedge armed if both deadlines are bounded; without a permit the budget refuses it.
   */
  lemma ArriveExactly(es: seq<Entry>, s: State, f: nat, query: Query)
    requires f !in s.forwards
    ensures var t := Arrive(es, s, f, query);
            f in t.forwards && t.forwards[f].query == query && t.forwards[f].since == s.now
            && var mode := t.forwards[f].mode;
               if s.permits == 0 then mode == Replied(None)
               else if |es| == 1 then mode == Single
               else if |es| > 1 then
                 mode == Hedge(Hedged(1, if es[0].timeoutMs > 0 && es[1].timeoutMs > 0 then Some(s.now + 300) else None,
                                      map[], map[], Inline(0)))
               else TurnsToSystem(s, t, f)
  {
  }

  /** A single upstream's answer is the client's; failing that the system's servers are asked. */
  lemma SingleExactly(s: State, f: nat, o: Outcome)
    requires f in s.forwards && s.forwards[f].mode.Single?
    ensures var t := EndSingle(s, f, o);
            if IsRejected(o) then TurnsToSystem(Release(s, Upstream(f, 0)), t, f)
            else f in t.forwards && t.forwards[f].mode.Replied? && t.forwards[f].mode.answer.Some?
                 && IsAnswer(s.forwards[f].query, o, t.forwards[f].mode.answer.value)
  {
    var query := s.forwards[f].query;
    AnswerExactly(query, o, if IsRejected(o) then [] else ConfiguredAnswer(query, o).value);
  }

  /**
   * Configured upstreams are given up on only when all were started and rejected, or no permit was free and
   * nothing pending.
   */
  lemma GivesUpOnlyWhenSpent(es: seq<Entry>, s: State, f: nat, ev: Event)
    requires Inv(es, s) && Enabled(es, s, Hedges(f, ev))
    requires f in HedgeStep(es, s, f, ev).forwards && !HedgeStep(es, s, f, ev).forwards[f].mode.Hedge?
    requires forall a :: HedgeStep(es, s, f, ev).forwards[f].mode != Replied(Some(a))
    ensures var h := Reaction(es, s, f, ev);
            h.pending == map[] && AllRejected(h.ended)
            && ((h.next == |es| && forall i | 0 <= i < |es| :: i in h.ended) || Freed(s, f, ev).permits == 0)
    ensures TurnsToSystem(Freed(s, f, ev), HedgeStep(es, s, f, ev), f)
  {
    var query, h, freed := s.forwards[f].query, Reaction(es, s, f, ev), Freed(s, f, ev);
    assert h.phase == Returned(None) by {
      HedgeStepMode(es, s, f, ev);
    }
    SpentAfterReaction(es, query, s.forwards[f].mode.h, ev, s.now, freed.permits > 0, h);
    GivenUp(freed, f, h, HedgeStep(es, s, f, ev));
  }

  lemma GivenUp(s: State, f: nat, h: Hedged, t: State)
    requires f in s.forwards && s.forwards[f].mode.Hedge? && h.phase == Returned(None)
    requires h.next == s.forwards[f].mode.h.next && t == Commit(s, f, h)
    ensures TurnsToSystem(s, t, f)
  {
  }

  lemma SpentAfterReaction(es: seq<Entry>, query: Query, was: Hedged, ev: Event, now: nat, free: bool, h: Hedged)
    requires Sound(es, query, was) && Possible(was, ev, now)
    requires h == React(es, query, was, ev, now, free) && h.phase == Returned(None)
    ensures h.pending == map[] && AllRejected(h.ended)
    ensures (h.next == |es| && forall i | 0 <= i < |es| :: i in h.ended) || !free
    ensures h.next == was.next
  {
    ReactSound(es, query, was, ev, now, free);
    SpentWhenReturned(es, query, h);
    ReactStarts(es, query, was, ev, now, free);
    assert Live(h) == {};
  }

  lemma SpentWhenReturned(es: seq<Entry>, query: Query, h: Hedged)
    requires Sound(es, query, h) && h.phase == Returned(None)
    ensures h.pending == map[] && AllRejected(h.ended)
    ensures h.next == |es| ==> forall i | 0 <= i < |es| :: i in h.ended
  {
  }

  ghost function HedgeSteps(run: seq<Label>, f: nat): nat {
    if run == [] then 0
    else (if run[0].Hedges? && run[0].f == f then 1 else 0) + HedgeSteps(run[1..], f)
  }

  /** The hedged events query `f` can still have. */
  ghost function Left(es: seq<Entry>, s: State, f: nat): nat
    requires Inv(es, s)
  {
    if f !in s.forwards then 4 * |es|
    else if s.forwards[f].mode.Hedge? then Rank(es, s.forwards[f].mode.h)
    else 0
  }

  predicate Concerns(l: Label, f: nat) {
    match l
    case Arrives(g, _) => g == f
    case Hedges(g, _) => g == f
    case SingleEnds(g, _) => g == f
    case SystemEnds(g, _) => g == f
    case Cancelled(g) => g == f
    case _ => false
  }

  /** Query `f` is there after as before, and as it was. */
  ghost predicate Unmoved(s: State, t: State, f: nat) {
    (f in t.forwards <==> f in s.forwards) && (f in s.forwards ==> t.forwards[f] == s.forwards[f])
  }

  lemma SettleMovesOne(s: State, g: nat, h: Hedged, f: nat, t: State)
    requires g in s.forwards && f != g && t == Settle(s, g, h)
    ensures Unmoved(s, t, f)
  {
  }

  lemma CommitMovesOne(s: State, g: nat, h: Hedged, f: nat, t: State)
    requires g in s.forwards && s.forwards[g].mode.Hedge? && f != g
    requires h.next != s.forwards[g].mode.h.next ==> s.permits > 0
    requires t == Commit(s, g, h)
    ensures Unmoved(s, t, f)
  {
    var next := s.forwards[g].mode.h.next;
    SettleMovesOne(if h.next != next then Acquire(s, Upstream(g, next)) else s, g, h, f, t);
  }

  lemma ArrivalMovesOne(es: seq<Entry>, s: State, g: nat, query: Query, f: nat, t: State)
    requires g !in s.forwards && f != g && t == Arrive(es, s, g, query)
    ensures Unmoved(s, t, f)
  {
    if |es| != 1 {
      var begun := s.(forwards := s.forwards[g := Forward(query, s.now, [], Hedge(START))]);
      CommitMovesOne(begun, g, Advance(es, START, s.now, s.permits > 0), f, t);
    }
  }

  lemma HedgeMovesOne(es: seq<Entry>, s: State, g: nat, ev: Event, f: nat, t: State)
    requires Enabled(es, s, Hedges(g, ev)) && f != g && t == HedgeStep(es, s, g, ev)
    ensures Unmoved(s, t, f)
  {
    CommitMovesOne(Freed(s, g, ev), g, Reaction(es, s, g, ev), f, t);
  }

  lemma OthersUnmoved(es: seq<Entry>, s: State, l: Label, f: nat)
    requires Enabled(es, s, l) && !Concerns(l, f)
    ensures Unmoved(s, Step(es, s, l), f)
  {
    match l
    case Arrives(g, query) => ArrivalMovesOne(es, s, g, query, f, Step(es, s, l));
    case Hedges(g, ev) => HedgeMovesOne(es, s, g, ev, f, Step(es, s, l));
    case SingleEnds(g, o) => EndingsMoveOne(es, s, l, f, Step(es, s, l));
    case SystemEnds(g, o) => EndingsMoveOne(es, s, l, f, Step(es, s, l));
    case Cancelled(g) => EndingsMoveOne(es, s, l, f, Step(es, s, l));
    case _ =>
  }

  lemma EndingsMoveOne(es: seq<Entry>, s: State, l: Label, f: nat, t: State)
    requires Enabled(es, s, l) && !Concerns(l, f) && (l.SingleEnds? || l.SystemEnds? || l.Cancelled?)
    requires t == Step(es, s, l)
    ensures Unmoved(s, t, f)
  {
  }

  lemma NoLongerHedged(es: seq<Entry>, s: State, l: Label, f: nat)
    requires Enabled(es, s, l) && Concerns(l, f) && !l.Arrives? && !l.Hedges?
    ensures f in Step(es, s, l).forwards && !Step(es, s, l).forwards[f].mode.Hedge?
  {
  }

  lemma ArrivalMode(es: seq<Entry>, s: State, f: nat, query: Query)
    requires f !in s.forwards
    ensures var t := Arrive(es, s, f, query);
            f in t.forwards && t.forwards[f].since == s.now
            && (t.forwards[f].mode.Hedge? ==> t.forwards[f].mode.h == Advance(es, START, s.now, s.permits > 0))
  {
  }

  lemma StepLeft(es: seq<Entry>, s: State, l: Label, f: nat)
    requires Inv(es, s) && Enabled(es, s, l) && Inv(es, Step(es, s, l))
    ensures Left(es, Step(es, s, l), f) <= Left(es, s, f)
    ensures l.Hedges? && l.f == f ==> Left(es, Step(es, s, l), f) < Left(es, s, f)
  {
    if !Concerns(l, f) {
      OthersUnmoved(es, s, l, f);
    } else if l.Arrives? {
      ArrivalMode(es, s, f, l.query);
      AdvanceRank(es, l.query, START, s.now, s.permits > 0);
      assert Rank(es, START) == 4 * |es|;
    } else if l.Hedges? {
      HedgeStepMode(es, s, f, l.ev);
      ReactDescends(es, s.forwards[f].query, s.forwards[f].mode.h, l.ev, s.now, Freed(s, f, l.ev).permits > 0);
    } else {
      NoLongerHedged(es, s, l, f);
    }
  }

  /** No query keeps the loop busy for ever: at most four events for each upstream, whatever else happens. */
  lemma {:induction false} HedgingEnds(es: seq<Entry>, s: State, run: seq<Label>, f: nat)
    requires Inv(es, s) && Legal(es, s, run)
    ensures HedgeSteps(run, f) <= Left(es, s, f)
    decreases |run|
  {
    if run != [] {
      StepInv(es, s, run[0]);
      StepLeft(es, s, run[0], f);
      HedgingEnds(es, Step(es, s, run[0]), run[1..], f);
    }
  }

  /** And it is never stuck: once attempts end, every unanswered query can move. */
  lemma SomethingCanHappen(es: seq<Entry>, s: State, f: nat) returns (l: Label)
    requires Inv(es, s) && f in s.forwards && !s.forwards[f].mode.Replied?
    ensures Enabled(es, s, l) && ((l.Hedges? && l.f == f) || l == SingleEnds(f, Failed) || l == SystemEnds(f, Failed))
  {
    match s.forwards[f].mode
    case Hedge(h) =>
      var ev := NeverStuck(es, s.forwards[f].query, h, Failed, s.now);
      l := Hedges(f, ev);
    case Single => l := SingleEnds(f, Failed);
    case System(_) => l := SystemEnds(f, Failed);
  }

  // ---- Ideal scheduling --------------------------------------------------------------------------------

  /** A permit is free and no hedge is overdue. */
  ghost predicate Ideal(s: State) {
    s.permits > 0 && forall f | f in s.forwards && s.forwards[f].mode.Hedge? :: Prompt(s.forwards[f].mode.h, s.now)
  }

  ghost predicate IdealRun(es: seq<Entry>, s: State, run: seq<Label>)
    requires Legal(es, s, run)
    decreases |run|
  {
    Ideal(s) && (run != [] ==> IdealRun(es, Step(es, s, run[0]), run[1..]))
  }

  ghost predicate AllOnTime(es: seq<Entry>, s: State) {
    forall f | f in s.forwards && s.forwards[f].mode.Hedge? :: OnTime(es, s.forwards[f].mode.h, s.forwards[f].since)
  }

  lemma HedgesOnTime(es: seq<Entry>, s: State, f: nat, ev: Event)
    requires Inv(es, s) && Enabled(es, s, Hedges(f, ev)) && Ideal(s) && AllBounded(es)
    requires OnTime(es, s.forwards[f].mode.h, s.forwards[f].since)
    ensures OnTime(es, Reaction(es, s, f, ev), s.forwards[f].since)
  {
    ReactOnTime(es, s.forwards[f].query, s.forwards[f].mode.h, ev, s.now, s.forwards[f].since);
  }

  lemma StepOnTime(es: seq<Entry>, s: State, l: Label)
    requires Inv(es, s) && Enabled(es, s, l) && Ideal(s) && AllBounded(es) && AllOnTime(es, s)
    ensures AllOnTime(es, Step(es, s, l))
  {
    var t := Step(es, s, l);
    forall f | f in t.forwards && t.forwards[f].mode.Hedge?
      ensures OnTime(es, t.forwards[f].mode.h, t.forwards[f].since)
    {
      if !Concerns(l, f) {
        OthersUnmoved(es, s, l, f);
      } else if l.Arrives? {
        ArrivalMode(es, s, f, l.query);
      } else if l.Hedges? {
        HedgeStepMode(es, s, f, l.ev);
        HedgesOnTime(es, s, f, l.ev);
      } else {
        NoLongerHedged(es, s, l, f);
      }
    }
  }

  lemma {:induction false} RunOnTime(es: seq<Entry>, s: State, run: seq<Label>)
    requires Inv(es, s) && Legal(es, s, run) && IdealRun(es, s, run) && AllBounded(es) && AllOnTime(es, s)
    ensures AllOnTime(es, Final(es, s, run)) && Ideal(Final(es, s, run))
    decreases |run|
  {
    if run != [] {
      StepInv(es, s, run[0]);
      StepOnTime(es, s, run[0]);
      RunOnTime(es, Step(es, s, run[0]), run[1..]);
    }
  }

  /** With deadlines everywhere, permits free and no delay, an unanswered query has started upstream `k` by 300k ms. */
  lemma HedgedOnTime(es: seq<Entry>, servers: seq<Server>, run: seq<Label>, f: nat, k: nat)
    requires Legal(es, Initial(servers), run) && IdealRun(es, Initial(servers), run) && AllBounded(es) && k < |es|
    requires var s := Final(es, Initial(servers), run);
             f in s.forwards && s.forwards[f].mode.Hedge? && s.now > s.forwards[f].since + 300 * k
    ensures k < Final(es, Initial(servers), run).forwards[f].mode.h.next
  {
    RunInv(es, Initial(servers), run);
    RunOnTime(es, Initial(servers), run);
    var s := Final(es, Initial(servers), run);
    var h := s.forwards[f].mode.h;
    assert h.next < |es| ==> s.now <= s.forwards[f].since + 300 * h.next;
  }
}
