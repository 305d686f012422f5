/** The hedging loop as it runs: one shared semaphore, and variables updated between awaits. */
module HedgeLoop {
  import opened Prelude
  import opened Hedging

  class Semaphore {
    var permits: nat

    constructor (permits: nat)
      ensures this.permits == permits
    {
      this.permits := permits;
    }

    method TryAcquire() returns (ok: bool)
      modifies this
      ensures ok == (old(permits) > 0) && permits == old(permits) - if ok then 1 else 0
    {
      ok := permits > 0;
      if ok {
        permits := permits - 1;
      }
    }

    method Release()
      modifies this
      ensures permits == old(permits) + 1
    {
      permits := permits + 1;
    }
  }

  class Forwarding {
    const entries: seq<Entry>
    const query: Query
    var next: nat
    var hedgeAt: Option<nat>
    var pending: map<nat, Status>
    var ended: map<nat, Outcome>
    var phase: Phase

    ghost function View(): Hedged
      reads this
    {
      Hedged(next, hedgeAt, pending, ended, phase)
    }

    constructor (entries: seq<Entry>, query: Query)
      ensures View() == START && this.entries == entries && this.query == query
    {
      this.entries, this.query := entries, query;
      next, hedgeAt, pending, ended, phase := 0, None, map[], map[], Fresh;
    }

    /** The loop from its top to the next await. */
    method RunToAwait(now: nat, budget: Semaphore)
      modifies this, budget
      ensures View() == Advance(entries, old(View()), now, old(budget.permits) > 0)
      ensures budget.permits == old(budget.permits) - (next - old(next))
    {
      ghost var before := View();
      ghost var first := true;
      while true
        invariant first ==> View() == before && budget.permits == old(budget.permits)
        invariant !first ==> pending.Keys != {} && !Due(View(), now)
        invariant !first ==> View().(phase := Waiting) == Advance(entries, before, now, old(budget.permits) > 0)
        invariant !first ==> budget.permits == old(budget.permits) - (next - before.next)
        decreases first
      {
        if pending.Keys == {} || (hedgeAt.Some? && now >= hedgeAt.value) {
          hedgeAt := None;
          first := false;
          if next >= |entries| {
            if pending.Keys == {} {
              phase := Returned(None);
              return;
            }
            continue;
          }
          var permit := budget.TryAcquire();
          if !permit {
            if pending.Keys == {} {
              phase := Returned(None);
              return;
            }
            continue;
          }
          var index := next;
          next := next + 1;
          if entries[index].timeoutMs > 0 && next < |entries| && entries[next].timeoutMs > 0 {
            hedgeAt := Some(now + HEDGE_DELAY);
          }
          if pending.Keys == {} {
            phase := Inline(index);
            return;
          }
          pending := pending[index := Running];
          assert index in pending.Keys;
          continue;
        }
        phase := Waiting;
        return;
      }
    }

    /** An answer ends the loop; anything else goes back to its top. */
    method Judge(i: nat, o: Outcome, now: nat, budget: Semaphore)
      modifies this, budget
      ensures View() == Hedging.Judge(entries, query, old(View()), i, o, now, old(budget.permits) > 0)
      ensures budget.permits == old(budget.permits) - (next - old(next))
    {
      ended := ended[i := o];
      var answer := ConfiguredAnswer(query, o);
      if answer.Some? {
        phase := Returned(answer);
      } else {
        RunToAwait(now, budget);
      }
    }

    /** What the loop rests on has happened; a finished attempt's permit comes back first. */
    method Resume(ev: Event, now: nat, budget: Semaphore)
      requires Possible(View(), ev, now)
      modifies this, budget
      ensures var freed := old(budget.permits) + if ev.InlineEnds? || ev.AttemptEnds? then 1 else 0;
              View() == React(entries, query, old(View()), ev, now, freed > 0)
              && budget.permits == freed - (next - old(next))
    {
      match ev {
        case InlineEnds(o) =>
          budget.Release();
          Judge(phase.index, o, now, budget);
        case InlineSlow =>
          pending := pending[phase.index := Running];
          RunToAwait(now, budget);
        case Joined(i) =>
          var o := pending[i].outcome;
          pending := pending - {i};
          Judge(i, o, now, budget);
        case HedgeDue =>
          RunToAwait(now, budget);
        case AttemptEnds(i, o) =>
          budget.Release();
          pending := pending[i := Finished(o)];
      }
    }
  }
}
