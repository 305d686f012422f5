/** Every interleaving of queries over one connection slot. */
module ChannelRuns {
  import opened Prelude
  import opened ConnectionSlot

  datatype Lease = Lease(conn: Conn, generation: nat, reused: bool)

  datatype End = Open | Answered | Expired | Broken

  /** One send of a query, and how it ended. */
  datatype Send = Send(lease: Lease, end: End)

  datatype Phase =
    | Acquiring
    | Dialing(since: nat)
    | Sending
    | Failing
    | Done

  /** `retried` once the query has been back for a second lease. */
  datatype Client = Client(deadline: Option<nat>, retried: bool, sends: seq<Send>, phase: Phase)

  /**
   * The slot and, for the record, which connection each generation named, which generations are over, which were
   * charged a backoff for a failed send, and when the dials that failed since the last store were begun.
   */
  datatype Ledger = Ledger(slot: Slot, named: map<nat, Conn>, over: set<nat>, charged: seq<nat>, failedDials: seq<nat>)

  datatype State = State(ledger: Ledger, lock: Option<nat>, clients: map<nat, Client>, now: Stamp)

  const START := State(Ledger(EMPTY, map[], {}, [], []), None, map[], Stamp(0, 0))

  datatype Event =
    | Starts(c: nat, deadline: Option<nat>)
    | Passes(now: Stamp)
    | Acquires(c: nat)
    | Dialed(c: nat, conn: Option<Conn>)
    | SendEnds(c: nat, end: End)
    | Handles(c: nat)
    | Cancels(c: nat)

  predicate BudgetAllowsRedial(deadline: Option<nat>, mono: nat) {
    deadline.None? || SatSub(deadline.value, mono) > MIN_REDIAL_BUDGET
  }

  function Last(c: Client): Send
    requires c.sends != []
  {
    c.sends[|c.sends| - 1]
  }

  predicate Redials(c: Client, mono: nat)
    requires c.sends != []
  {
    Last(c).end.Broken? && Last(c).lease.reused && !c.retried && BudgetAllowsRedial(c.deadline, mono)
  }

  /** The lock keeps everyone else out of the slot for the length of a dial. */
  predicate Enabled(s: State, e: Event) {
    match e
    case Starts(c, _) => c !in s.clients
    case Passes(now) => now.mono >= s.now.mono
    case Acquires(c) => c in s.clients && s.clients[c].phase.Acquiring? && s.lock.None?
    case Dialed(c, conn) =>
      c in s.clients && s.clients[c].phase.Dialing? && (conn.Some? ==> conn.value !in s.ledger.named.Values)
    case SendEnds(c, end) =>
      c in s.clients && s.clients[c].phase.Sending? && s.clients[c].sends != [] && !end.Open?
      && (end.Expired? ==> s.clients[c].deadline.Some? && s.now.mono >= s.clients[c].deadline.value)
    case Handles(c) => c in s.clients && s.clients[c].phase.Failing? && s.clients[c].sends != [] && s.lock.None?
    case Cancels(c) => c in s.clients && !s.clients[c].phase.Done?
  }

  // ---- The slot under the lock --------------------------------------------------------------------------

  function Touch(l: Ledger, now: Stamp): Ledger {
    var slot := Touched(l.slot, now);
    l.(slot := slot, over := l.over + if l.slot.exchange.Some? && slot.exchange.None? then {l.slot.generation} else {})
  }

  function DialWorked(l: Ledger, conn: Conn, now: Stamp): Ledger {
    var slot := Stored(l.slot, conn, now);
    l.(slot := slot, named := l.named[slot.generation := conn], failedDials := [])
  }

  function DialFailed(l: Ledger, since: nat, mono: nat): Ledger {
    l.(slot := BackedOff(l.slot, mono), failedDials := l.failedDials + [since])
  }

  /** Blame generation `g` if it is still the current one, with a backoff when the query gives up. */
  function Blame(l: Ledger, g: nat, final: bool, mono: nat): Ledger {
    if !Current(l.slot, g) then l.(slot := Blamed(l.slot, g, final, mono))
    else
      l.(slot := Blamed(l.slot, g, final, mono), over := l.over + {g},
         charged := l.charged + if final then [g] else [])
  }

  // ---- The queries -----------------------------------------------------------------------------------------

  function SendOn(c: Client, l: Ledger, reused: bool): Client
    requires l.slot.exchange.Some?
  {
    c.(phase := Sending, sends := c.sends + [Send(Lease(l.slot.exchange.value, l.slot.generation, reused), Open)])
  }

  function Ended(c: Client, end: End): Client
    requires c.sends != []
  {
    c.(sends := c.sends[|c.sends| - 1 := Last(c).(end := end)], phase := if end.Answered? then Done else Failing)
  }

  predicate CoolingDown(slot: Slot, mono: nat) {
    slot.cooldownUntil.Some? && mono < slot.cooldownUntil.value
  }

  /** Lease the live connection, else refuse inside a cooldown, else dial under the lock. */
  function Acquire(s: State, c: nat): State
    requires c in s.clients
  {
    var l := Touch(s.ledger, s.now);
    var client := s.clients[c];
    if l.slot.exchange.Some? then s.(ledger := l, clients := s.clients[c := SendOn(client, l, true)])
    else if CoolingDown(l.slot, s.now.mono) then s.(ledger := l, clients := s.clients[c := client.(phase := Done)])
    else s.(ledger := l, lock := Some(c), clients := s.clients[c := client.(phase := Dialing(s.now.mono))])
  }

  function EndDial(s: State, c: nat, conn: Option<Conn>): State
    requires c in s.clients && s.clients[c].phase.Dialing?
  {
    match conn
    case Some(x) =>
      var l := DialWorked(s.ledger, x, s.now);
      s.(ledger := l, lock := None, clients := s.clients[c := SendOn(s.clients[c], l, false)])
    case None =>
      s.(ledger := DialFailed(s.ledger, s.clients[c].phase.since, s.now.mono), lock := None,
         clients := s.clients[c := s.clients[c].(phase := Done)])
  }

  /** Redial once, or give up. */
  function Handle(s: State, c: nat): State
    requires c in s.clients && s.clients[c].sends != []
  {
    var client := s.clients[c];
    var final := !Redials(client, s.now.mono);
    s.(ledger := Blame(s.ledger, Last(client).lease.generation, final, s.now.mono),
       clients := s.clients[c := if final then client.(phase := Done)
                                 else client.(retried := true, phase := Acquiring)])
  }

  function Cancel(s: State, c: nat): State
    requires c in s.clients
  {
    s.(lock := if s.clients[c].phase.Dialing? then None else s.lock,
       clients := s.clients[c := s.clients[c].(phase := Done)])
  }

  function Step(s: State, e: Event): State
    requires Enabled(s, e)
  {
    match e
    case Starts(c, deadline) => s.(clients := s.clients[c := Client(deadline, false, [], Acquiring)])
    case Passes(now) => s.(now := now)
    case Acquires(c) => Acquire(s, c)
    case Dialed(c, conn) => EndDial(s, c, conn)
    case SendEnds(c, end) => s.(clients := s.clients[c := Ended(s.clients[c], end)])
    case Handles(c) => Handle(s, c)
    case Cancels(c) => Cancel(s, c)
  }

  // ---- What every interleaving keeps ------------------------------------------------------------------

  /** A live connection has a clean record and is the one its generation names. */
  ghost predicate CleanWhenLive(l: Ledger) {
    l.slot.exchange.Some? ==>
      l.slot.failures == 0 && l.slot.cooldownUntil.None? && l.failedDials == []
      && l.slot.generation in l.named && l.named[l.slot.generation] == l.slot.exchange.value
  }

  /** Generations count up from 1, each names one connection for ever, and only the current one can be live. */
  ghost predicate Generations(l: Ledger) {
    (forall g :: g in l.named <==> 1 <= g <= l.slot.generation)
    && (forall g, h | g in l.named && h in l.named && l.named[g] == l.named[h] :: g == h)
    && (forall g :: g in l.over <==> g in l.named && !Current(l.slot, g))
  }

  /** No generation is charged twice, and a charged one is over. */
  ghost predicate ChargedOnce(l: Ledger) {
    (forall i, j | 0 <= i < j < |l.charged| :: l.charged[i] != l.charged[j])
    && forall i | 0 <= i < |l.charged| :: l.charged[i] in l.over
  }

  /** The pauses after the first n failures. */
  ghost function Pauses(n: nat): nat {
    if n == 0 then 0 else Pauses(n - 1) + PauseSeconds(n) * 1_000_000_000
  }

  /** The n-th failed dial since the last store began after n - 1 growing pauses; the next one must wait for n. */
  ghost predicate Spaced(l: Ledger) {
    Min(|l.failedDials|, MAX_BACKOFF_SHIFT) <= l.slot.failures
    && (forall k | 0 <= k < |l.failedDials| :: l.failedDials[k] >= l.failedDials[0] + Pauses(k))
    && (l.failedDials != [] ==>
          l.slot.cooldownUntil.Some? && l.slot.cooldownUntil.value >= l.failedDials[0] + Pauses(|l.failedDials|))
  }

  ghost predicate LedgerInv(l: Ledger) {
    CleanWhenLive(l) && Generations(l) && ChargedOnce(l) && Spaced(l)
  }

  lemma TouchInv(l: Ledger, now: Stamp)
    requires LedgerInv(l)
    ensures LedgerInv(Touch(l, now)) && Touch(l, now).named == l.named
    ensures !CoolingDown(l.slot, now.mono) || l.slot.exchange.None?
  {
  }

  lemma DialWorkedInv(l: Ledger, conn: Conn, now: Stamp)
    requires LedgerInv(l) && l.slot.exchange.None? && conn !in l.named.Values
    ensures LedgerInv(DialWorked(l, conn, now))
  {
    assert forall g | g in l.named :: l.named[g] in l.named.Values;
  }

  lemma {:induction false} ShiftGrows(a: nat, b: nat)
    requires a <= b
    ensures Shift(a) <= Shift(b)
    decreases b
  {
    if a < b {
      ShiftGrows(a, b - 1);
    }
  }

  /** A dial begun outside the cooldown fails: the next must wait for one more pause. */
  lemma DialFailedInv(l: Ledger, since: nat, mono: nat)
    requires LedgerInv(l) && l.slot.exchange.None? && !CoolingDown(l.slot, since) && since <= mono
    ensures LedgerInv(DialFailed(l, since, mono))
  {
    var n := |l.failedDials| + 1;
    var failures := BackedOff(l.slot, mono).failures;
    ShiftGrows(Min(n, MAX_BACKOFF_SHIFT), Min(failures, MAX_BACKOFF_SHIFT));
    PauseExactly(n);
    assert Pause(n) <= Pause(failures);
    assert Pauses(n) == Pauses(n - 1) + Pause(n);
  }

  lemma BlameInv(l: Ledger, g: nat, final: bool, mono: nat)
    requires LedgerInv(l)
    ensures LedgerInv(Blame(l, g, final, mono)) && Blame(l, g, final, mono).named == l.named
  {
  }

  /** Only the holder of the lock dials, from outside any cooldown, and nothing is live meanwhile. */
  ghost predicate OneDialer(s: State) {
    (forall c :: s.lock == Some(c) <==> c in s.clients && s.clients[c].phase.Dialing?)
    && forall c | c in s.clients && s.clients[c].phase.Dialing? ::
         s.ledger.slot.exchange.None? && s.clients[c].phase.since <= s.now.mono
         && !CoolingDown(s.ledger.slot, s.clients[c].phase.since)
  }

  /** At most two sends, the second only after a transport error on a reused lease. */
  ghost predicate SendsOnce(c: Client) {
    |c.sends| <= (if c.retried then 2 else 1)
    && (c.phase.Acquiring? || c.phase.Dialing? ==> |c.sends| == if c.retried then 1 else 0)
    && (c.phase.Sending? || c.phase.Failing? ==> |c.sends| == if c.retried then 2 else 1)
    && (c.phase.Failing? ==> Last(c).end.Broken? || Last(c).end.Expired?)
    && (c.retried ==> c.sends != [] && c.sends[0].end.Broken? && c.sends[0].lease.reused)
  }

  /** A query sends at most twice, on connections its generations name. */
  ghost predicate ClientInv(l: Ledger, c: Client) {
    SendsOnce(c) && forall k | 0 <= k < |c.sends| ::
      c.sends[k].lease.generation in l.named && l.named[c.sends[k].lease.generation] == c.sends[k].lease.conn
  }

  ghost predicate Inv(s: State) {
    LedgerInv(s.ledger) && OneDialer(s) && forall c | c in s.clients :: ClientInv(s.ledger, s.clients[c])
  }

  /** One query moves on while the names only grow. */
  lemma ClientsKept(s: State, t: State, c: nat)
    requires forall d | d in s.clients :: ClientInv(s.ledger, s.clients[d])
    requires forall g | g in s.ledger.named :: g in t.ledger.named && t.ledger.named[g] == s.ledger.named[g]
    requires c in t.clients && ClientInv(t.ledger, t.clients[c]) && t.clients == s.clients[c := t.clients[c]]
    ensures forall d | d in t.clients :: ClientInv(t.ledger, t.clients[d])
  {
    forall d | d in t.clients && d != c ensures ClientInv(t.ledger, t.clients[d]) {
      assert d in s.clients && t.clients[d] == s.clients[d];
    }
  }

  lemma AcquireInv(s: State, c: nat)
    requires Inv(s) && Enabled(s, Acquires(c))
    ensures Inv(Acquire(s, c))
  {
    TouchInv(s.ledger, s.now);
    ClientsKept(s, Acquire(s, c), c);
  }

  lemma EndDialInv(s: State, c: nat, conn: Option<Conn>)
    requires Inv(s) && Enabled(s, Dialed(c, conn))
    ensures Inv(EndDial(s, c, conn))
  {
    if conn.None? {
      DialFailedInv(s.ledger, s.clients[c].phase.since, s.now.mono);
    } else {
      DialWorkedInv(s.ledger, conn.value, s.now);
    }
    ClientsKept(s, EndDial(s, c, conn), c);
  }

  lemma EndSendInv(s: State, c: nat, end: End)
    requires Inv(s) && Enabled(s, SendEnds(c, end))
    ensures Inv(Step(s, SendEnds(c, end)))
  {
    ClientsKept(s, Step(s, SendEnds(c, end)), c);
  }

  lemma HandleInv(s: State, c: nat)
    requires Inv(s) && Enabled(s, Handles(c))
    ensures Inv(Handle(s, c))
  {
    var client := s.clients[c];
    BlameInv(s.ledger, Last(client).lease.generation, !Redials(client, s.now.mono), s.now.mono);
    ClientsKept(s, Handle(s, c), c);
  }

  lemma CancelInv(s: State, c: nat)
    requires Inv(s) && Enabled(s, Cancels(c))
    ensures Inv(Cancel(s, c))
  {
    ClientsKept(s, Cancel(s, c), c);
  }

  lemma StepInv(s: State, e: Event)
    requires Inv(s) && Enabled(s, e)
    ensures Inv(Step(s, e))
  {
    match e
    case Starts(c, deadline) => ClientsKept(s, Step(s, e), c);
    case Passes(_) =>
    case Acquires(c) => AcquireInv(s, c);
    case Dialed(c, conn) => EndDialInv(s, c, conn);
    case SendEnds(c, end) => EndSendInv(s, c, end);
    case Handles(c) => HandleInv(s, c);
    case Cancels(c) => CancelInv(s, c);
  }

  // ---- Whole runs ---------------------------------------------------------------------------------------

  predicate Legal(s: State, run: seq<Event>)
    decreases |run|
  {
    run == [] || (Enabled(s, run[0]) && Legal(Step(s, run[0]), run[1..]))
  }

  function Final(s: State, run: seq<Event>): State
    requires Legal(s, run)
    decreases |run|
  {
    if run == [] then s else Final(Step(s, run[0]), run[1..])
  }

  ghost predicate Extends(a: Ledger, b: Ledger) {
    a.over <= b.over && forall g | g in a.named :: g in b.named && b.named[g] == a.named[g]
  }

  lemma StepExtends(s: State, e: Event)
    requires Inv(s) && Enabled(s, e)
    ensures Extends(s.ledger, Step(s, e).ledger)
  {
  }

  /** What a generation names never changes, and a generation that is over stays over. */
  lemma {:induction false} RunInv(s: State, run: seq<Event>)
    requires Inv(s) && Legal(s, run)
    ensures Inv(Final(s, run)) && Extends(s.ledger, Final(s, run).ledger)
    decreases |run|
  {
    if run != [] {
      StepInv(s, run[0]);
      StepExtends(s, run[0]);
      RunInv(Step(s, run[0]), run[1..]);
    }
  }

  /** Whatever the interleaving, a generation that is over at some point can fail as often as it likes later on. */
  lemma StaleFailuresAreHarmless(before: State, run: seq<Event>, c: nat)
    requires Inv(before) && Legal(before, run) && Enabled(Final(before, run), Handles(c))
    requires Last(Final(before, run).clients[c]).lease.generation in before.ledger.over
    ensures Handle(Final(before, run), c).ledger == Final(before, run).ledger
  {
    RunInv(before, run);
  }

  /** A failed send costs a backoff only while its generation is live, so only once for each generation. */
  lemma ChargedAtMostOnce(run: seq<Event>, i: nat, j: nat)
    requires Legal(START, run) && i < j < |Final(START, run).ledger.charged|
    ensures Final(START, run).ledger.charged[i] != Final(START, run).ledger.charged[j]
  {
    RunInv(START, run);
  }

  /** A query sends at most twice, the second time only after a transport error on a reused connection. */
  lemma SecondSendFollowsStaleLease(run: seq<Event>, c: nat)
    requires Legal(START, run) && c in Final(START, run).clients
    ensures var sends := Final(START, run).clients[c].sends;
            |sends| <= 2 && (|sends| == 2 ==> sends[0].lease.reused && sends[0].end.Broken?)
  {
    RunInv(START, run);
  }

  /** Dials keep out of cooldowns: each failure since the last store pushes the next dial one pause further. */
  lemma DialsAreSpaced(run: seq<Event>, c: nat)
    requires Legal(START, run) && c in Final(START, run).clients && Final(START, run).clients[c].phase.Dialing?
    ensures var s := Final(START, run);
            (s.ledger.slot.cooldownUntil.Some? ==> s.clients[c].phase.since >= s.ledger.slot.cooldownUntil.value)
            && var failed := s.ledger.failedDials + [s.clients[c].phase.since];
               forall n | 0 <= n < |failed| :: failed[n] >= failed[0] + Pauses(n)
  {
    RunInv(START, run);
  }

  /** The connection is live and the host has been awake since the slot was last used. */
  ghost predicate Reusable(slot: Slot, now: Stamp) {
    slot.exchange.Some? && (slot.lastUsed.Some? ==> Awake(now, slot.lastUsed.value))
  }

  /** A query reuses the connection exactly if it may, else is refused inside a cooldown, else dials at once. */
  lemma AcquireExactly(s: State, c: nat)
    requires Inv(s) && Enabled(s, Acquires(c))
    ensures var slot, phase := s.ledger.slot, Acquire(s, c).clients[c].phase;
            (phase.Sending? <==> Reusable(slot, s.now))
            && (phase.Done? <==> !Reusable(slot, s.now) && slot.exchange.None?
                                 && slot.cooldownUntil.Some? && s.now.mono < slot.cooldownUntil.value)
            && (phase.Sending? || phase.Done? || phase == Dialing(s.now.mono))
    ensures var slot, after, t := s.ledger.slot, Acquire(s, c).ledger, Acquire(s, c);
            after.slot == slot.(exchange := if Reusable(slot, s.now) then slot.exchange else None,
                                lastUsed := Some(s.now))
            && after.named == s.ledger.named && after.charged == s.ledger.charged
            && after.failedDials == s.ledger.failedDials
            && t.lock == if t.clients[c].phase.Dialing? then Some(c) else s.lock
  {
    SleptExactly(s.ledger.slot, s.now);
  }

  /** A dial that worked stores its connection under the next generation and is leased as new. */
  lemma DialWorkedExactly(s: State, c: nat, conn: Conn)
    requires Enabled(s, Dialed(c, Some(conn)))
    ensures var slot, t := s.ledger.slot, EndDial(s, c, Some(conn));
            t.ledger.slot == Slot(Some(conn), slot.generation + 1, 0, None, Some(s.now)) && t.lock.None?
            && t.ledger.named == s.ledger.named[slot.generation + 1 := conn] && t.ledger.failedDials == []
            && t.clients[c].phase.Sending?
            && t.clients[c].sends == s.clients[c].sends + [Send(Lease(conn, slot.generation + 1, false), Open)]
  {
  }

  /** A dial that failed is charged a longer pause, counted from its end; its query is over. */
  lemma DialFailedExactly(s: State, c: nat)
    requires Enabled(s, Dialed(c, None))
    ensures var slot, t := s.ledger.slot, EndDial(s, c, None);
            PausedAfter(slot, t.ledger.slot, s.now.mono) && t.ledger.slot.exchange == slot.exchange
            && t.ledger.failedDials == s.ledger.failedDials + [s.clients[c].phase.since]
            && t.lock.None? && t.clients[c].phase.Done? && t.clients[c].sends == s.clients[c].sends
  {
    PauseExactly(EndDial(s, c, None).ledger.slot.failures);
  }

  /** One failure more, and a pause that grows with them. */
  ghost predicate PausedAfter(slot: Slot, after: Slot, mono: nat) {
    after.failures == Min(slot.failures + 1, 0xffff_ffff)
    && after.cooldownUntil == Some(mono + PauseSeconds(after.failures) * 1_000_000_000)
    && after.generation == slot.generation && after.lastUsed == slot.lastUsed
  }

  /** The end of a send is on record; only an answer ends the query there. */
  lemma SendEndsExactly(s: State, c: nat, end: End)
    requires Enabled(s, SendEnds(c, end))
    ensures var was, now, t := s.clients[c], Step(s, SendEnds(c, end)).clients[c], Step(s, SendEnds(c, end));
            now.phase == (if end.Answered? then Done else Failing) && |now.sends| == |was.sends|
            && now.sends == was.sends[|was.sends| - 1 := Send(was.sends[|was.sends| - 1].lease, end)]
            && t.ledger == s.ledger && t.lock == s.lock && t.now == s.now
  {
  }

  lemma TimePassesExactly(s: State, now: Stamp)
    requires Enabled(s, Passes(now))
    ensures Step(s, Passes(now)) == State(s.ledger, s.lock, s.clients, now)
  {
  }

  /** Renewing after sleep never leaves the channel cooling down: the query that noticed dials at once. */
  lemma SleepRenewalDials(s: State, c: nat)
    requires Inv(s) && Enabled(s, Acquires(c)) && s.ledger.slot.exchange.Some? && s.ledger.slot.lastUsed.Some?
    requires !Awake(s.now, s.ledger.slot.lastUsed.value)
    ensures var t := Acquire(s, c);
            t.clients[c].phase == Dialing(s.now.mono) &&
            t.ledger.slot.cooldownUntil.None? && t.ledger.slot.failures == 0
            && s.ledger.slot.generation in t.ledger.over
  {
    SleptExactly(s.ledger.slot, s.now);
  }

  /** A connection is reused only while live and only if the host has not slept since the slot was last used. */
  lemma ReusedOnlyAwake(s: State, c: nat)
    requires Inv(s) && Enabled(s, Acquires(c)) && Acquire(s, c).clients[c].phase.Sending?
    ensures s.ledger.slot.lastUsed.Some? ==> Awake(s.now, s.ledger.slot.lastUsed.value)
    ensures var lease := Last(Acquire(s, c).clients[c]).lease;
            lease.reused && lease.generation !in Acquire(s, c).ledger.over
            && lease.generation in s.ledger.named && s.ledger.named[lease.generation] == lease.conn
  {
    SleptExactly(s.ledger.slot, s.now);
  }

  /** The query may try again: a transport error on its first, reused lease, with more than 250 ms left. */
  ghost predicate MayRetry(client: Client, mono: nat)
    requires client.sends != []
  {
    client.sends[|client.sends| - 1].end.Broken? && client.sends[|client.sends| - 1].lease.reused && !client.retried
    && (client.deadline.Some? ==> client.deadline.value > mono + 250_000_000)
  }

  /**
   * A failed send is followed by a second acquisition exactly if it may be; otherwise the query is over. A connection
   * that is still the current one is dropped, at the price of a longer pause if the query is over; any other is left.
   */
  lemma RetriesExactly(s: State, c: nat)
    requires Enabled(s, Handles(c))
    ensures var client, after := s.clients[c], Handle(s, c).clients[c];
            after.sends == client.sends
            && if MayRetry(client, s.now.mono) then after.phase.Acquiring? && after.retried else after.phase.Done?
    ensures var client, slot, after := s.clients[c], s.ledger.slot, Handle(s, c).ledger;
            var g := client.sends[|client.sends| - 1].lease.generation;
            if slot.generation != g || slot.exchange.None? then after == s.ledger
            else
              after.slot.exchange.None? && after.over == s.ledger.over + {g} && after.named == s.ledger.named
              && after.failedDials == s.ledger.failedDials
              && if MayRetry(client, s.now.mono) then
                   after.slot == slot.(exchange := None) && after.charged == s.ledger.charged
                 else PausedAfter(slot, after.slot, s.now.mono) && after.charged == s.ledger.charged + [g]
  {
    PauseExactly(Handle(s, c).ledger.slot.failures);
  }
}
