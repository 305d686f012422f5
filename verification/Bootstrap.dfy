/** Addresses of one upstream host: single-flight refresh, stale answers and a pause after failures. */
module BootstrapSlot {
  import opened Prelude

  type Addresses = seq<nat>

  datatype Result<T> = Ok(value: T) | Err(error: nat)

  const MAX_STALE: nat := 86_400 * NANOS
  const RETRY_AFTER_FAILURE: nat := 30 * NANOS
  const MIN_TTL_SECS: nat := 60
  const MAX_TTL_SECS: nat := 86_400

  datatype Entry = Entry(ips: Addresses, expires: nat)

  datatype Failure = Failure(error: nat, retryAt: nat)

  datatype Slot = Slot(entry: Option<Entry>, failure: Option<Failure>)

  predicate IsFresh(e: Entry, now: nat) {
    now < e.expires
  }

  predicate IsServable(e: Entry, now: nat) {
    SatSub(now, e.expires) <= MAX_STALE
  }

  datatype Plan = Answer(result: Result<Addresses>) | Refresh(stale: Option<Addresses>)

  /** Entries past the stale window are dropped as soon as someone looks. */
  function Pruned(s: Slot, now: nat): Slot {
    if s.entry.Some? && !IsServable(s.entry.value, now) then s.(entry := None) else s
  }

  function PlanOf(s: Slot, now: nat): Plan {
    if s.entry.Some? && IsFresh(s.entry.value, now) then Answer(Ok(s.entry.value.ips))
    else
      var kept := Pruned(s, now).entry;
      var stale := if kept.Some? then Some(kept.value.ips) else None;
      if s.failure.Some? && now < s.failure.value.retryAt
      then Answer(if stale.Some? then Ok(stale.value) else Err(s.failure.value.error))
      else Refresh(stale)
  }

  datatype Found = Found(ips: Addresses, ttl: nat)

  function Recorded(s: Slot, result: Result<Found>, now: nat): Slot {
    match result
    case Ok(found) => Slot(Some(Entry(found.ips, now + found.ttl * NANOS)), None)
    case Err(e) => Pruned(s, now).(failure := Some(Failure(e, now + RETRY_AFTER_FAILURE)))
  }

  /** What the caller who asked for the lookup is told. */
  function Reported(s: Slot, result: Result<Found>, now: nat): Result<Addresses> {
    match result
    case Ok(found) => Ok(found.ips)
    case Err(e) => if Pruned(s, now).entry.Some? then Ok(s.entry.value.ips) else Err(e)
  }

  function Expired(s: Slot, now: nat): Slot {
    if s.entry.Some? then s.(entry := Some(s.entry.value.(expires := Min(s.entry.value.expires, now)))) else s
  }

  class SlotObject {
    var entry: Option<Entry>
    var failure: Option<Failure>

    ghost function View(): Slot
      reads this
    {
      Slot(entry, failure)
    }

    constructor ()
      ensures View() == Slot(None, None)
    {
      entry, failure := None, None;
    }

    method MakePlan(now: nat) returns (plan: Plan)
      modifies this
      ensures plan == PlanOf(old(View()), now) && View() == Pruned(old(View()), now)
    {
      if entry.Some? {
        if IsFresh(entry.value, now) {
          return Answer(Ok(entry.value.ips));
        }
        if !IsServable(entry.value, now) {
          entry := None;
        }
      }
      var stale := if entry.Some? then Some(entry.value.ips) else None;
      if failure.Some? && now < failure.value.retryAt {
        return Answer(if stale.Some? then Ok(stale.value) else Err(failure.value.error));
      }
      return Refresh(stale);
    }

    method Record(result: Result<Found>, now: nat) returns (told: Result<Addresses>)
      modifies this
      ensures View() == Recorded(old(View()), result, now) && told == Reported(old(View()), result, now)
    {
      match result {
        case Ok(found) =>
          failure := None;
          entry := Some(Entry(found.ips, now + found.ttl * NANOS));
          told := Ok(found.ips);
        case Err(e) =>
          failure := Some(Failure(e, now + RETRY_AFTER_FAILURE));
          if entry.Some? && IsServable(entry.value, now) {
            told := Ok(entry.value.ips);
          } else {
            entry := None;
            told := Err(e);
          }
      }
    }

    /** Force a new lookup; the old addresses stay as a fallback. */
    method Invalidate(now: nat)
      modifies this
      ensures View() == Expired(old(View()), now)
    {
      if entry.Some? {
        entry := Some(entry.value.(expires := Min(entry.value.expires, now)));
      }
    }
  }
}

/** All hosts' slots, one for each address family setting. */
module BootstrapTable {
  import opened Prelude
  import opened Names
  import opened BootstrapSlot

  /** Host names are kept in lower case; `stack` says which address families are wanted. */
  datatype Key = Key(host: Bytes, stack: nat)

  class Table {
    var slots: map<Key, Slot>

    constructor ()
      ensures slots == map[]
    {
      slots := map[];
    }

    /** Force a new lookup of a host, whichever families were asked for, and of no other. */
    method Invalidate(host: Bytes, now: nat)
      modifies this
      ensures slots.Keys == old(slots).Keys
      ensures forall k | k in slots ::
                slots[k] == if k.host == Fold(host) then Expired(old(slots)[k], now) else old(slots)[k]
    {
      var name := Fold(host);
      var rest := slots.Keys;
      while rest != {}
        invariant rest <= slots.Keys == old(slots).Keys
        invariant forall k | k in slots ::
                    slots[k] == if k !in rest && k.host == name then Expired(old(slots)[k], now) else old(slots)[k]
        decreases |rest|
      {
        var k :| k in rest;
        if k.host == name && slots[k].entry.Some? {
          var e := slots[k].entry.value;
          slots := slots[k := slots[k].(entry := Some(e.(expires := Min(e.expires, now))))];
        }
        rest := rest - {k};
      }
    }
  }
}

/** Every interleaving of callers, lookups, invalidations and cancellations for one host. */
module BootstrapRuns {
  import opened Prelude
  import opened BootstrapSlot

  /** A recorded success: what was found, when, and when it ceased to be fresh. */
  datatype Success = Success(found: Found, at: nat, lapse: nat)

  /** What a caller was told, when, and the last success on record at that moment. */
  datatype Told = Told(result: Result<Addresses>, at: nat, last: Option<Success>)

  datatype Caller = Waiting | Holding | Asking | Gone | Done(told: Told)

  datatype Owner = Caller(c: nat) | Lookup(c: nat)

  /** A lookup that was recorded: when it began, when it ended, and how. */
  datatype Finished = Finished(begun: nat, ended: nat, ok: bool)

  /** `lookups` are the ones in flight, by the caller who began them, with their starting times. */
  datatype State = State(slot: Slot, now: nat, lock: Option<Owner>, callers: map<nat, Caller>, lookups: map<nat, nat>,
                         finished: seq<Finished>, last: Option<Success>)

  const START := State(Slot(None, None), 0, None, map[], map[], [], None)

  datatype Event =
    | Passes(ns: nat)
    | Resolves(c: nat)
    | Granted(c: nat)
    | Replans(c: nat)
    | LookupEnds(c: nat, result: Result<Found>)
    | Invalidates
    | Cancels(c: nat)

  /** Lookups find at least one address, and their TTL is clamped to between a minute and a day. */
  predicate Enabled(s: State, e: Event) {
    match e
    case Passes(_) => true
    case Resolves(c) => c !in s.callers
    case Granted(c) => c in s.callers && s.callers[c].Waiting? && s.lock.None?
    case Replans(c) => c in s.callers && s.callers[c].Holding?
    case LookupEnds(c, r) =>
      c in s.lookups && (r.Ok? ==> r.value.ips != [] && MIN_TTL_SECS <= r.value.ttl <= MAX_TTL_SECS)
    case Invalidates => true
    case Cancels(c) => c in s.callers && (s.callers[c].Waiting? || s.callers[c].Holding? || s.callers[c].Asking?)
  }

  function SetCaller(s: State, c: nat, phase: Caller): State {
    s.(callers := s.callers[c := phase])
  }

  function Tell(s: State, c: nat, result: Result<Addresses>): State {
    SetCaller(s, c, Done(Told(result, s.now, s.last)))
  }

  /** The lookup is a task of its own, so that it outlives a cancelled caller. */
  function Begin(s: State, c: nat): State {
    SetCaller(s, c, Asking).(lock := Some(Lookup(c)), lookups := s.lookups[c := s.now])
  }

  /** Plan and try for the lock; while another refresh runs, a stale answer beats waiting. */
  function Resolve(s: State, c: nat): State {
    var t := s.(slot := Pruned(s.slot, s.now));
    match PlanOf(s.slot, s.now)
    case Answer(result) => Tell(t, c, result)
    case Refresh(stale) =>
      if s.lock.None? then Begin(t, c)
      else if stale.Some? then Tell(t, c, Ok(stale.value))
      else SetCaller(t, c, Waiting)
  }

  /** The lock came free: plan again before looking up. */
  function Replan(s: State, c: nat): State {
    var t := s.(slot := Pruned(s.slot, s.now));
    match PlanOf(s.slot, s.now)
    case Answer(result) => Tell(t.(lock := None), c, result)
    case Refresh(_) => Begin(t, c)
  }

  function EndLookup(s: State, c: nat, result: Result<Found>): State
    requires c in s.lookups
  {
    var last := match result
      case Ok(found) => Some(Success(found, s.now, s.now + found.ttl * NANOS))
      case Err(_) => s.last;
    var t := s.(slot := Recorded(s.slot, result, s.now), lock := None, lookups := s.lookups - {c},
                finished := s.finished + [Finished(s.lookups[c], s.now, result.Ok?)], last := last);
    if c in s.callers && s.callers[c].Asking? then Tell(t, c, Reported(s.slot, result, s.now)) else t
  }

  function Invalidate(s: State): State {
    s.(slot := Expired(s.slot, s.now),
       last := if s.last.None? then None else Some(s.last.value.(lapse := Min(s.last.value.lapse, s.now))))
  }

  function Cancel(s: State, c: nat): State
    requires c in s.callers
  {
    SetCaller(if s.callers[c].Holding? then s.(lock := None) else s, c, Gone)
  }

  function Step(s: State, e: Event): State
    requires Enabled(s, e)
  {
    match e
    case Passes(ns) => s.(now := s.now + ns)
    case Resolves(c) => Resolve(s, c)
    case Granted(c) => SetCaller(s, c, Holding).(lock := Some(Caller(c)))
    case Replans(c) => Replan(s, c)
    case LookupEnds(c, result) => EndLookup(s, c, result)
    case Invalidates => Invalidate(s)
    case Cancels(c) => Cancel(s, c)
  }

  // ---- What every interleaving keeps --------------------------------------------------------------------

  /** The slot remembers the last success until a day after it lapsed. */
  ghost predicate Remembers(s: State) {
    match s.slot.entry
    case Some(e) => s.last.Some? && e == Entry(s.last.value.found.ips, s.last.value.lapse)
    case None => s.last.Some? ==> s.now > s.last.value.lapse + MAX_STALE
  }

  ghost predicate LastIsPast(s: State) {
    s.last.Some? ==>
      s.last.value.at <= s.now &&
      s.last.value.at <= s.last.value.lapse <= s.last.value.at + s.last.value.found.ttl * NANOS
  }

  /** A lookup in flight is the lock's owner, so there is at most one. */
  ghost predicate SingleFlight(s: State) {
    (forall c :: c in s.lookups <==> s.lock == Some(Lookup(c)))
    && (forall c :: c in s.callers && s.callers[c].Holding? <==> s.lock == Some(Caller(c)))
    && forall c | c in s.callers && s.callers[c].Asking? :: c in s.lookups
  }

  /** Lookups follow each other, and the next one after a failure waits out the pause. */
  ghost predicate Paced(s: State) {
    (forall i | 0 <= i < |s.finished| - 1 :: s.finished[i + 1].begun >= NotBefore(s.finished[i]))
    && (forall c | c in s.lookups :: s.lookups[c] <= s.now)
    && (s.finished != [] ==>
          s.finished[|s.finished| - 1].ended <= s.now
          && forall c | c in s.lookups :: s.lookups[c] >= NotBefore(s.finished[|s.finished| - 1]))
    && (match s.slot.failure
        case None => s.finished != [] ==> s.finished[|s.finished| - 1].ok
        case Some(f) => s.finished != [] && !s.finished[|s.finished| - 1].ok
                        && f.retryAt == NotBefore(s.finished[|s.finished| - 1]))
  }

  function NotBefore(f: Finished): nat {
    f.ended + if f.ok then 0 else RETRY_AFTER_FAILURE
  }

  /** Addresses come from the last success and at most a day after it lapsed; errors only without such a success. */
  ghost predicate Honest(t: Told) {
    match t.result
    case Ok(ips) => t.last.Some? && ips == t.last.value.found.ips && t.at <= t.last.value.lapse + MAX_STALE
                    && t.last.value.lapse <= t.last.value.at + t.last.value.found.ttl * NANOS
    case Err(_) => t.last.Some? ==> t.at > t.last.value.lapse + MAX_STALE
  }

  ghost predicate AllHonest(s: State) {
    forall c | c in s.callers && s.callers[c].Done? :: Honest(s.callers[c].told)
  }

  ghost predicate Inv(s: State) {
    Remembers(s) && LastIsPast(s) && SingleFlight(s) && Paced(s) && AllHonest(s)
  }

  lemma PlanIsHonest(s: State)
    requires Remembers(s) && LastIsPast(s)
    ensures Remembers(s.(slot := Pruned(s.slot, s.now)))
    ensures var plan := PlanOf(s.slot, s.now);
            (plan.Answer? ==> Honest(Told(plan.result, s.now, s.last)))
            && (plan.Refresh? && plan.stale.Some? ==> Honest(Told(Ok(plan.stale.value), s.now, s.last)))
            && (plan.Refresh? && s.slot.failure.Some? ==> s.now >= s.slot.failure.value.retryAt)
  {
  }

  lemma ToldInv(s: State, c: nat, result: Result<Addresses>, t: State)
    requires Inv(s) && t == Tell(s, c, result) && Honest(Told(result, s.now, s.last))
    requires c !in s.callers
    ensures Inv(t)
  {
  }

  lemma BegunInv(s: State, c: nat, t: State)
    requires Inv(s) && t == Begin(s, c) && s.lookups == map[]
    requires s.slot.failure.Some? ==> s.now >= s.slot.failure.value.retryAt
    requires if s.lock.Some? then s.lock == Some(Caller(c)) && c in s.callers else c !in s.callers
    ensures Inv(t)
  {
  }

  lemma PrunedInv(s: State, t: State)
    requires Inv(s) && t == s.(slot := Pruned(s.slot, s.now))
    ensures Inv(t)
  {
  }

  lemma NoLookups(s: State)
    requires SingleFlight(s) && (s.lock.None? || s.lock.value.Caller?)
    ensures s.lookups == map[]
  {
  }

  lemma ResolveInv(s: State, c: nat, t: State)
    requires Inv(s) && Enabled(s, Resolves(c)) && t == Resolve(s, c)
    ensures Inv(t)
  {
    PlanIsHonest(s);
    var pruned := s.(slot := Pruned(s.slot, s.now));
    PrunedInv(s, pruned);
    match PlanOf(s.slot, s.now)
    case Answer(result) => ToldInv(pruned, c, result, t);
    case Refresh(stale) =>
      if s.lock.None? {
        NoLookups(pruned);
        BegunInv(pruned, c, t);
      } else if stale.Some? {
        ToldInv(pruned, c, Ok(stale.value), t);
      } else {
        WaitsInv(pruned, c, t);
      }
  }

  lemma WaitsInv(s: State, c: nat, t: State)
    requires Inv(s) && c !in s.callers && t == SetCaller(s, c, Waiting)
    ensures Inv(t)
  {
  }

  lemma AnsweredInv(s: State, c: nat, result: Result<Addresses>, t: State)
    requires Inv(s) && c in s.callers && s.callers[c].Holding? && Honest(Told(result, s.now, s.last))
    requires t == Tell(s.(lock := None), c, result)
    ensures Inv(t)
  {
  }

  lemma ReplanInv(s: State, c: nat, t: State)
    requires Inv(s) && Enabled(s, Replans(c)) && t == Replan(s, c)
    ensures Inv(t)
  {
    PlanIsHonest(s);
    var pruned := s.(slot := Pruned(s.slot, s.now));
    PrunedInv(s, pruned);
    match PlanOf(s.slot, s.now)
    case Answer(result) => AnsweredInv(pruned, c, result, t);
    case Refresh(_) =>
      NoLookups(pruned);
      BegunInv(pruned, c, t);
  }

  /** The outcome of a lookup is on record before its caller, if still there, is told. */
  lemma RecordedInv(s: State, c: nat, result: Result<Found>, told: bool, t: State)
    requires Inv(s) && Enabled(s, LookupEnds(c, result)) && t == EndLookup(s, c, result)
    requires told <==> c in s.callers && s.callers[c].Asking?
    ensures Remembers(t) && LastIsPast(t) && SingleFlight(t) && AllHonest(t)
  {
  }

  lemma RecordedPaced(s: State, c: nat, result: Result<Found>, t: State)
    requires Inv(s) && Enabled(s, LookupEnds(c, result)) && t == EndLookup(s, c, result)
    ensures Paced(t)
  {
    var finished := Finished(s.lookups[c], s.now, result.Ok?);
    assert t.finished == s.finished + [finished] && t.lookups == s.lookups - {c};
    assert forall d :: d !in t.lookups;
  }

  lemma EndLookupInv(s: State, c: nat, result: Result<Found>, t: State)
    requires Inv(s) && Enabled(s, LookupEnds(c, result)) && t == EndLookup(s, c, result)
    ensures Inv(t)
  {
    RecordedInv(s, c, result, c in s.callers && s.callers[c].Asking?, t);
    RecordedPaced(s, c, result, t);
  }

  lemma InvalidateInv(s: State, t: State)
    requires Inv(s) && t == Invalidate(s)
    ensures Inv(t)
  {
  }

  lemma CancelInv(s: State, c: nat, t: State)
    requires Inv(s) && Enabled(s, Cancels(c)) && t == Cancel(s, c)
    ensures Inv(t)
  {
  }

  lemma GrantedInv(s: State, c: nat, t: State)
    requires Inv(s) && Enabled(s, Granted(c)) && t == SetCaller(s, c, Holding).(lock := Some(Caller(c)))
    ensures Inv(t)
  {
  }

  lemma PassesInv(s: State, ns: nat, t: State)
    requires Inv(s) && t == s.(now := s.now + ns)
    ensures Inv(t)
  {
  }

  lemma StepInv(s: State, e: Event, t: State)
    requires Inv(s) && Enabled(s, e) && t == Step(s, e)
    ensures Inv(t)
  {
    match e
    case Passes(ns) => PassesInv(s, ns, t);
    case Resolves(c) => ResolveInv(s, c, t);
    case Granted(c) => GrantedInv(s, c, t);
    case Replans(c) => ReplanInv(s, c, t);
    case LookupEnds(c, result) => EndLookupInv(s, c, result, t);
    case Invalidates => InvalidateInv(s, t);
    case Cancels(c) => CancelInv(s, c, t);
  }

  // ---- Whole runs -------------------------------------------------------------------------------------------

  predicate Legal(s: State, run: seq<Event>)
    decreases |run|
  {
    run == [] || (Enabled(s, run[0]) && Legal(Step(s, run[0]), run[1..]))
  }

  function Final(s: State, run: seq<Event>): State
    requires Legal(s, run)
    decreases |run|
  {
    if run == [] then s else Final(Step(s, run[0]), run[1..])
  }

  lemma {:induction false} RunInv(s: State, run: seq<Event>)
    requires Inv(s) && Legal(s, run)
    ensures Inv(Final(s, run))
    decreases |run|
  {
    if run != [] {
      StepInv(s, run[0], Step(s, run[0]));
      RunInv(Step(s, run[0]), run[1..]);
    }
  }

  /**
   * At most one lookup is in flight, and after a failure recorded at f the next one, finished or still in
   * flight, begins no earlier than f + 30 s.
   */
  lemma LookupsArePaced(run: seq<Event>, i: nat)
    requires Legal(START, run)
    ensures |Final(START, run).lookups| <= 1
    ensures var finished := Final(START, run).finished;
            i + 1 < |finished| && !finished[i].ok ==> finished[i + 1].begun >= finished[i].ended + 30_000_000_000
    ensures var s := Final(START, run);
            i + 1 == |s.finished| && !s.finished[i].ok ==>
              forall c | c in s.lookups :: s.lookups[c] >= s.finished[i].ended + 30_000_000_000
  {
    RunInv(START, run);
    OneLookup(Final(START, run));
    PacedAt(Final(START, run), i);
  }

  lemma OneLookup(s: State)
    requires SingleFlight(s)
    ensures |s.lookups| <= 1
  {
    if c :| c in s.lookups {
      assert s.lookups.Keys == {c};
      assert |s.lookups| == |s.lookups.Keys|;
    } else {
      assert s.lookups == map[];
    }
  }

  lemma PacedAt(s: State, i: nat)
    requires Paced(s)
    ensures i + 1 < |s.finished| ==> s.finished[i + 1].begun >= NotBefore(s.finished[i])
    ensures i + 1 == |s.finished| ==> forall c | c in s.lookups :: s.lookups[c] >= NotBefore(s.finished[i])
  {
  }

  /** The pause of 30 seconds after a lookup that failed last. */
  ghost predicate InPause(s: State) {
    s.finished != [] && !s.finished[|s.finished| - 1].ok
    && s.now < s.finished[|s.finished| - 1].ended + 30_000_000_000
  }

  /** The addresses found last, while they are fresh or may stand in for fresh ones. */
  ghost predicate Fresh(s: State) {
    s.last.Some? && s.now < s.last.value.lapse
  }

  ghost predicate Servable(s: State) {
    s.last.Some? && s.now <= s.last.value.lapse + 86_400_000_000_000
  }

  ghost predicate Answered(s: State, c: nat, with: Option<Addresses>) {
    c in s.callers && s.callers[c].Done?
    && if with.Some? then s.callers[c].told.result == Ok(with.value) else s.callers[c].told.result.Err?
  }

  /**
   * What a caller meets: fresh addresses at once; in the pause stale ones or the error; else it looks up itself, unless
   * somebody already does, when stale addresses beat waiting.
   */
  lemma ResolveExactly(s: State, c: nat)
    requires Inv(s) && c !in s.callers
    ensures var t := Resolve(s, c);
            var found := if s.last.Some? then Some(s.last.value.found.ips) else None;
            (if Fresh(s) then Answered(t, c, found)
             else if InPause(s) then Answered(t, c, if Servable(s) then found else None)
             else if s.lock.None? then c in t.lookups && t.callers[c].Asking?
             else if Servable(s) then Answered(t, c, found)
             else t.callers[c].Waiting?)
            && t.lookups == if !Fresh(s) && !InPause(s) && s.lock.None? then s.lookups[c := s.now] else s.lookups
  {
    PlanExactly(s);
  }

  lemma PlanExactly(s: State)
    requires Remembers(s) && Paced(s)
    ensures var found := if s.last.Some? then Some(s.last.value.found.ips) else None;
            match PlanOf(s.slot, s.now)
            case Answer(Ok(ips)) => (Fresh(s) || (InPause(s) && Servable(s))) && found == Some(ips)
            case Answer(Err(_)) => !Fresh(s) && InPause(s) && !Servable(s)
            case Refresh(stale) => !Fresh(s) && !InPause(s) && stale == if Servable(s) then found else None
  {
  }

  /** A caller that was answered or has gone is told nothing more. */
  lemma DoneIsDone(s: State, e: Event, c: nat)
    requires Enabled(s, e) && c in s.callers && (s.callers[c].Done? || s.callers[c].Gone?)
    ensures c in Step(s, e).callers && Step(s, e).callers[c] == s.callers[c]
  {
  }

  /** With the lock in hand a caller looks up exactly if it still has to. */
  lemma ReplanExactly(s: State, c: nat)
    requires Inv(s) && Enabled(s, Replans(c))
    ensures var t := Replan(s, c);
            t.lookups == if !Fresh(s) && !InPause(s) then s.lookups[c := s.now] else s.lookups
  {
    PlanExactly(s);
  }

  /**
   * Addresses are never older than a day past their TTL, whatever was invalidated; an error means none were
   * that young.
   */
  lemma AnswersAreHonest(run: seq<Event>, c: nat)
    requires Legal(START, run) && c in Final(START, run).callers && Final(START, run).callers[c].Done?
    ensures var told := Final(START, run).callers[c].told;
            match told.result
            case Ok(ips) =>
              told.last.Some? && ips == told.last.value.found.ips
              && told.at <= told.last.value.at + told.last.value.found.ttl * 1_000_000_000 + 86_400_000_000_000
            case Err(_) => told.last.None? || told.at > told.last.value.lapse + 86_400_000_000_000
  {
    RunInv(START, run);
  }
}
