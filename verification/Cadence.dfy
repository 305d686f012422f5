/** How often the takeover watchdog looks, and how it notices that another program keeps rewriting DNS. */
module WatchdogCadence {
  import opened Prelude

  /** What one tick reported; a tick whose task died counts as failed. */
  datatype Outcome = NotActive | Clean | Reasserted | Failed

  const NORMAL_INTERVAL: nat := 120
  const SLOW_INTERVAL: nat := 1800
  const FLAP_WINDOW_TICKS: nat := 3
  const FLAP_STRIKES: nat := 3

  // ---- The history of outcomes --------------------------------------------------------------------

  function LastReassert(h: seq<Outcome>): (p: Option<nat>)
    ensures p.Some? ==> p.value < |h| && h[p.value] == Reasserted
    ensures forall i | (if p.Some? then p.value + 1 else 0) <= i < |h| :: h[i] != Reasserted
  {
    if h == [] then None
    else if h[|h| - 1] == Reasserted then Some(|h| - 1)
    else LastReassert(h[..|h| - 1])
  }

  /** Clean ticks after the last reassert. */
  function CleansAfter(h: seq<Outcome>): nat {
    if h == [] || h[|h| - 1] == Reasserted then 0
    else CleansAfter(h[..|h| - 1]) + if h[|h| - 1] == Clean then 1 else 0
  }

  /** The place of the last reassert in its chain, 0 when there was none. */
  ghost function Rank(h: seq<Outcome>): nat
    decreases |h|, 0
  {
    match LastReassert(h)
    case None => 0
    case Some(p) => if Linked(h[..p]) then Rank(h[..p]) + 1 else 1
  }

  /** A reassert now would continue the chain: fewer than three clean ticks, or none once the chain is slow. */
  ghost predicate Linked(h: seq<Outcome>)
    decreases |h|, 1
  {
    LastReassert(h).Some? && CleansAfter(h) < if Rank(h) < 3 then 3 else 1
  }

  ghost predicate Slow(h: seq<Outcome>) {
    Linked(h) && Rank(h) >= 3
  }

  /** Reassert `i` opens a chain, `j` follows it within the window, and the window of `j` is still open. */
  ghost predicate TwoStrikes(h: seq<Outcome>, i: nat, j: nat) {
    i < j < |h| && LastReassert(h) == Some(j) && LastReassert(h[..j]) == Some(i)
    && !Linked(h[..i]) && CleansAfter(h[..j]) < 3 && CleansAfter(h) < 3
  }

  lemma ExtendHistory(h: seq<Outcome>, o: Outcome)
    ensures (h + [o])[..|h|] == h && (h + [o])[|h|] == o
    ensures o == Reasserted ==> LastReassert(h + [o]) == Some(|h|) && CleansAfter(h + [o]) == 0
    ensures o != Reasserted ==> LastReassert(h + [o]) == LastReassert(h) && Rank(h + [o]) == Rank(h)
    ensures o != Reasserted ==> CleansAfter(h + [o]) == CleansAfter(h) + if o == Clean then 1 else 0
    ensures o == Reasserted ==> Rank(h + [o]) == if Linked(h) then Rank(h) + 1 else 1
  {
    assert (h + [o])[..|h|] == h;
    if o != Reasserted && LastReassert(h).Some? {
      assert (h + [o])[..LastReassert(h).value] == h[..LastReassert(h).value];
    }
  }

  lemma ExtendLink(h: seq<Outcome>, o: Outcome)
    ensures o == Reasserted ==> Linked(h + [o])
    ensures o == Clean ==>
              (Linked(h + [o]) <==> Linked(h) && Rank(h) < 3 && CleansAfter(h) + 1 < 3)
    ensures o == NotActive || o == Failed ==> Linked(h + [o]) == Linked(h)
  {
    ExtendHistory(h, o);
  }

  /** Slow mode begins exactly at the third reassert of a chain, and ends exactly at the next clean tick. */
  lemma SlowModeTurns(h: seq<Outcome>, o: Outcome)
    ensures !Slow(h) && Slow(h + [o]) <==> o == Reasserted && exists i, j :: TwoStrikes(h, i, j)
    ensures Slow(h) ==> (Slow(h + [o]) <==> o != Clean)
  {
    ExtendHistory(h, o);
    if exists i, j :: TwoStrikes(h, i, j) {
      var i, j :| TwoStrikes(h, i, j);
      TwoStrikesRank(h, i, j);
    }
    if Linked(h) && Rank(h) == 2 {
      var i, j := SecondStrike(h);
    }
  }

  lemma TwoStrikesRank(h: seq<Outcome>, i: nat, j: nat)
    requires TwoStrikes(h, i, j)
    ensures Linked(h) && Rank(h) == 2
  {
    assert h[..j][..i] == h[..i];
    assert Rank(h[..j]) == 1;
  }

  lemma RankPositive(h: seq<Outcome>)
    ensures LastReassert(h).Some? ==> Rank(h) >= 1
  {
  }

  lemma SecondStrike(h: seq<Outcome>) returns (i: nat, j: nat)
    requires Linked(h) && Rank(h) == 2
    ensures TwoStrikes(h, i, j)
  {
    j := LastReassert(h).value;
    assert Linked(h[..j]) && Rank(h[..j]) == 1;
    i := LastReassert(h[..j]).value;
    assert h[..j][..i] == h[..i];
    RankPositive(h[..i]);
  }

  // ---- The loop's own state ------------------------------------------------------------------------

  class Watchdog {
    var ticksSinceReassert: Option<nat>
    var flapStrikes: nat
    var slowMode: bool
    var interval: nat
    ghost var history: seq<Outcome>

    /** The counters are a summary of the whole history. */
    ghost predicate Valid()
      reads this
    {
      ticksSinceReassert == (if Linked(history) then Some(CleansAfter(history)) else None)
      && flapStrikes == (if Linked(history) then Rank(history) else 0)
      && slowMode == Slow(history)
      && interval == if Slow(history) then 1800 else 120
    }

    constructor ()
      ensures Valid() && history == []
    {
      ticksSinceReassert, flapStrikes, slowMode, interval, history := None, 0, false, NORMAL_INTERVAL, [];
    }

    method OnTick(o: Outcome)
      requires Valid()
      modifies this
      ensures Valid() && history == old(history) + [o]
      ensures o == NotActive || o == Failed ==>
                unchanged(`ticksSinceReassert) && unchanged(`flapStrikes) &&
                unchanged(`slowMode) && unchanged(`interval)
    {
      ExtendHistory(history, o);
      ExtendLink(history, o);
      match o {
        case NotActive =>
        case Failed =>
        case Clean =>
          if slowMode {
            slowMode, flapStrikes, ticksSinceReassert, interval := false, 0, None, NORMAL_INTERVAL;
          } else if ticksSinceReassert.Some? {
            ticksSinceReassert := Some(ticksSinceReassert.value + 1);
            if ticksSinceReassert.value >= FLAP_WINDOW_TICKS {
              ticksSinceReassert, flapStrikes := None, 0;
            }
          }
        case Reasserted =>
          flapStrikes := if ticksSinceReassert.Some? then flapStrikes + 1 else 1;
          ticksSinceReassert := Some(0);
          if flapStrikes >= FLAP_STRIKES && !slowMode {
            slowMode, interval := true, SLOW_INTERVAL;
          }
      }
      history := history + [o];
    }
  }
}
