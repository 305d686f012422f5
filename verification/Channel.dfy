/** One encrypted upstream: many queries share a connection slot whose generations tell stale failures apart. */
module ConnectionSlot {
  import opened Prelude

  type Conn = nat

  const MAX_BACKOFF_SHIFT: nat := 5
  const RENEW_AFTER_SLEEP: nat := 5 * NANOS
  const MIN_REDIAL_BUDGET: nat := 250_000_000

  /** Paired clock readings: the monotonic clock stops while the host sleeps, the wall clock does not. */
  datatype Stamp = Stamp(mono: nat, wall: nat)

  function SleptSince(now: Stamp, earlier: Stamp): nat {
    SatSub(SatSub(now.wall, earlier.wall), SatSub(now.mono, earlier.mono))
  }

  datatype Slot = Slot(exchange: Option<Conn>, generation: nat, failures: u32, cooldownUntil: Option<nat>,
                       lastUsed: Option<Stamp>)

  const EMPTY := Slot(None, 0, 0, None, None)

  function Shift(n: nat): (r: nat)
    ensures r >= 1
  {
    if n == 0 then 1 else 2 * Shift(n - 1)
  }

  /** The pause after the n-th failure in a row: 2, 4, 8, 16, then 32 seconds. */
  function Pause(failures: nat): nat {
    Shift(Min(failures, MAX_BACKOFF_SHIFT)) * NANOS
  }

  function Stored(s: Slot, conn: Conn, now: Stamp): Slot {
    Slot(Some(conn), s.generation + 1, 0, None, Some(now))
  }

  function Slept(s: Slot, now: Stamp): bool {
    s.lastUsed.Some? && SleptSince(now, s.lastUsed.value) > RENEW_AFTER_SLEEP
  }

  /** The wall clock has run at most five seconds ahead of the monotonic one; set back, it counts as standing still. */
  ghost predicate Awake(now: Stamp, earlier: Stamp) {
    now.wall - earlier.wall <= Max(now.mono - earlier.mono, 0) + 5_000_000_000
  }

  lemma SleptExactly(s: Slot, now: Stamp)
    ensures Slept(s, now) <==> s.lastUsed.Some? && !Awake(now, s.lastUsed.value)
  {
  }

  /** Using the slot drops a connection from before a sleep. */
  function Touched(s: Slot, now: Stamp): Slot {
    s.(exchange := if Slept(s, now) then None else s.exchange, lastUsed := Some(now))
  }

  /** Seconds of pause after the n-th failure in a row. */
  ghost function PauseSeconds(n: nat): nat {
    match n
    case 0 => 1
    case 1 => 2
    case 2 => 4
    case 3 => 8
    case 4 => 16
    case _ => 32
  }

  lemma PauseExactly(n: nat)
    ensures Pause(n) == PauseSeconds(n) * 1_000_000_000
  {
    assert Shift(5) == 2 * Shift(4) && Shift(4) == 2 * Shift(3) && Shift(3) == 2 * Shift(2);
    assert Shift(2) == 2 * Shift(1) && Shift(1) == 2 * Shift(0);
  }

  predicate Current(s: Slot, generation: nat) {
    s.generation == generation && s.exchange.Some?
  }

  function Invalidated(s: Slot, generation: nat): Slot {
    if Current(s, generation) then s.(exchange := None) else s
  }

  function BackedOff(s: Slot, mono: nat): Slot {
    var failures: u32 := Min(s.failures + 1, U32_MAX);
    s.(failures := failures, cooldownUntil := Some(mono + Pause(failures)))
  }

  /** The slot as the code updates it, field by field. */
  class SlotObject {
    var exchange: Option<Conn>
    var generation: nat
    var connectFailures: u32
    var cooldownUntil: Option<nat>
    var lastUsed: Option<Stamp>

    ghost function View(): Slot
      reads this
    {
      Slot(exchange, generation, connectFailures, cooldownUntil, lastUsed)
    }

    constructor ()
      ensures View() == EMPTY
    {
      exchange, generation, connectFailures, cooldownUntil, lastUsed := None, 0, 0, None, None;
    }

    method Lease() returns (r: Option<(Conn, nat)>)
      ensures r == if View().exchange.None? then None else Some((View().exchange.value, View().generation))
    {
      r := if exchange.Some? then Some((exchange.value, generation)) else None;
    }

    method Store(conn: Conn, now: Stamp) returns (g: nat)
      modifies this
      ensures View() == Stored(old(View()), conn, now) && g == View().generation
    {
      generation := generation + 1;
      exchange := Some(conn);
      connectFailures := 0;
      cooldownUntil := None;
      lastUsed := Some(now);
      g := generation;
    }

    /** How long the host slept, when that cost the slot its connection. */
    method DropIfSlept(now: Stamp) returns (slept: Option<nat>)
      modifies this
      ensures View() == Touched(old(View()), now)
      ensures lastUsed == Some(now)
      ensures exchange == if old(lastUsed).None? || Awake(now, old(lastUsed).value) then old(exchange) else None
      ensures slept.Some? <==> old(exchange).Some? && exchange.None?
      ensures slept.Some? ==>
                slept.value == now.wall - old(lastUsed).value.wall - Max(now.mono - old(lastUsed).value.mono, 0)
    {
      SleptExactly(View(), now);
      var before := lastUsed;
      lastUsed := Some(now);
      if before.None? {
        return None;
      }
      var gap := SleptSince(now, before.value);
      if gap > RENEW_AFTER_SLEEP && exchange.Some? {
        exchange := None;
        return Some(gap);
      }
      return None;
    }

    method Invalidate(g: nat) returns (ok: bool)
      modifies this
      ensures ok == Current(old(View()), g) && View() == Invalidated(old(View()), g)
    {
      ok := generation == g && exchange.Some?;
      if ok {
        exchange := None;
      }
    }

    method Backoff(mono: nat) returns (pause: nat)
      modifies this
      ensures View() == BackedOff(old(View()), mono) && pause == PauseSeconds(View().failures) * 1_000_000_000
      ensures cooldownUntil == Some(mono + pause)
    {
      connectFailures := Min(connectFailures + 1, U32_MAX);
      pause := Pause(connectFailures);
      PauseExactly(connectFailures);
      cooldownUntil := Some(mono + pause);
    }

    /** A send on generation `g` failed; `final` when the query will not redial. */
    method SendFailed(g: nat, final: bool, mono: nat)
      modifies this
      ensures View() == Blamed(old(View()), g, final, mono)
    {
      var invalidated := Invalidate(g);
      if final && invalidated {
        var _ := Backoff(mono);
      }
    }
  }

  function Blamed(s: Slot, generation: nat, final: bool, mono: nat): Slot {
    if final && Current(s, generation) then BackedOff(Invalidated(s, generation), mono) else Invalidated(s, generation)
  }
}
