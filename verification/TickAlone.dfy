/** A watchdog cycle nobody disturbs leaves every saved service on the proxy, and says so truthfully. */
module TickAlone {
  import opened Prelude
  import opened OsDns
  import opened Takeover
  import opened TakeoverRuns
  import opened TakeoverAlone
  import opened TakeAlone

  ghost predicate SameLists(was: map<Sid, Service>, services: map<Sid, Service>) {
    SameServices(was, services) && forall sid | sid in was :: services[sid].dns == was[sid].dns
  }

  /** Lists of enabled services that the backup does not know. */
  ghost predicate NewLines(was: map<Sid, Service>, b: Backup, found: seq<Saved>) {
    forall i | 0 <= i < |found| ::
      found[i].name !in NamesOf(b.services)
      && exists sid :: sid in was && was[sid].enabled && found[i] == Saved(was[sid].name, was[sid].dns)
  }

  /** The first `k` lines are known to the backup or were found. */
  ghost predicate KnownLines(names: seq<Listed>, b: Backup, found: seq<Saved>, k: nat)
    requires k <= |names|
  {
    forall i | 0 <= i < k :: names[i].name in NamesOf(b.services) + NamesOf(found)
  }

  ghost predicate AllNew(was: map<Sid, Service>, b: Backup, found: seq<Saved>) {
    NewLines(was, b, found) && EnabledNames(was) <= NamesOf(b.services) + NamesOf(found)
  }

  /** The backup that is on disk before any service is touched. */
  ghost predicate ReadyFrom(was: map<Sid, Service>, b: Backup, server: Addr, loopback: Addr -> bool, ready: Backup) {
    exists found :: AllNew(was, b, found) && Grown(b, found, server, loopback).Some?
      && ready == Remembering(Grown(b, found, server, loopback).value, server)
  }

  ghost predicate Drifts(was: map<Sid, Service>, name: Name, server: Addr) {
    exists sid :: sid in was && was[sid].name == name && was[sid].dns != [Plain(server)]
  }

  ghost predicate DriftedAmong(was: map<Sid, Service>, ready: Backup, k: nat, drifted: seq<Name>, server: Addr)
    requires k <= |ready.services|
  {
    forall n :: n in drifted <==> n in NamesOf(ready.services[..k]) && Drifts(was, n, server)
  }

  /** The services named in the first `k` of `drifted` may have been, and if no call failed have been, put right. */
  ghost predicate Corrected(was: map<Sid, Service>, services: map<Sid, Service>, drifted: seq<Name>, k: nat,
                            server: Addr, clean: bool)
    requires k <= |drifted|
  {
    SameServices(was, services)
    && forall sid | sid in was ::
         (services[sid].dns == was[sid].dns || (was[sid].name in drifted[..k] && services[sid].dns == [Plain(server)]))
         && (clean && was[sid].name in drifted[..k] ==> services[sid].dns == [Plain(server)])
  }

  ghost predicate Ticking(was: map<Sid, Service>, b: Backup, server: Addr, s: State, clean: bool) {
    match s.section
    case TickList(a) => a == server && SameLists(was, s.services) && s.backup == Some(b) && s.marker
    case TickRead(a, names, k, found) =>
      a == server && SameLists(was, s.services) && s.backup == Some(b) && k <= |names| && IsListing(was, false, names)
      && NewLines(was, b, found) && KnownLines(names, b, found, k)
    case TickDrift(a, drifted, k) =>
      a == server && SameLists(was, s.services) && s.backup.Some?
      && ReadyFrom(was, b, server, s.loopback, s.backup.value)
      && k <= |s.backup.value.services| && DriftedAmong(was, s.backup.value, k, drifted, server)
    case TickSet(a, drifted, k) =>
      a == server && s.backup.Some? && ReadyFrom(was, b, server, s.loopback, s.backup.value)
      && k <= |drifted| && Corrected(was, s.services, drifted, k, server, clean)
      && DriftedAmong(was, s.backup.value, |s.backup.value.services|, drifted, server)
    case _ => false
  }

  /** Each saved service that exists points at the proxy alone. */
  ghost predicate OnProxy(services: map<Sid, Service>, b: Backup, server: Addr) {
    forall sid | sid in services && services[sid].name in NamesOf(b.services) :: services[sid].dns == [Plain(server)]
  }

  ghost predicate OnlyToProxy(was: map<Sid, Service>, services: map<Sid, Service>, b: Backup, server: Addr) {
    SameServices(was, services)
    && forall sid | sid in was ::
         services[sid].dns == was[sid].dns
         || (was[sid].name in NamesOf(b.services) && services[sid].dns == [Plain(server)])
  }

  /** An unknown service already uses the proxy, so that its list cannot be saved. */
  ghost predicate CannotGrow(was: map<Sid, Service>, b: Backup, server: Addr, loopback: Addr -> bool) {
    exists found :: AllNew(was, b, found) && Grown(b, found, server, loopback).None?
  }

  /** The cycle is over. */
  ghost predicate Ticked(was: map<Sid, Service>, b: Backup, server: Addr, s: State, clean: bool) {
    s.section.Free? && s.backup.Some? && OnlyToProxy(was, s.services, s.backup.value, server)
    && ((s.backup == Some(b) && SameLists(was, s.services)) || ReadyFrom(was, b, server, s.loopback, s.backup.value))
    && (clean ==>
          if SameLists(was, s.services) && s.backup == Some(b) && CannotGrow(was, b, server, s.loopback) then true
          else OnProxy(s.services, s.backup.value, server) && ReadyFrom(was, b, server, s.loopback, s.backup.value))
  }

  ghost predicate TickingOrDone(was: map<Sid, Service>, b: Backup, server: Addr, s: State, clean: bool) {
    Ticking(was, b, server, s, clean) || Ticked(was, b, server, s, clean)
  }

  // ---- Reading ---------------------------------------------------------------------------------------------

  lemma GivenUp(was: map<Sid, Service>, b: Backup, server: Addr, s: State, t: State)
    requires SameLists(was, s.services) && t == s.(section := Free) && s.backup.Some?
    requires s.backup == Some(b) || ReadyFrom(was, b, server, s.loopback, s.backup.value)
    ensures Ticked(was, b, server, t, false)
  {
  }

  lemma ListTicks(was: map<Sid, Service>, b: Backup, server: Addr, s: State, ok: bool, names: seq<Listed>, t: State,
                  clean: bool)
    requires Ticking(was, b, server, s, clean) && s.section == TickList(server)
    requires (ok ==> CallsCanWork(s, names)) && t == ListForTick(s, ok, server, names)
    ensures TickingOrDone(was, b, server, t, clean && ok)
  {
    if !ok {
      GivenUp(was, b, server, s, t);
    }
  }

  lemma KnownOrFound(services: seq<Saved>, name: Name)
    ensures FindSaved(services, name).Some? <==> name in NamesOf(services)
  {
  }

  lemma LineFound(was: map<Sid, Service>, b: Backup, s: State, names: seq<Listed>, k: nat, found: seq<Saved>,
                  more: seq<Saved>)
    requires SameLists(was, s.services) && IsListing(was, false, names) && k < |names| && NewLines(was, b, found)
    requires KnownLines(names, b, found, k) && names[k].name !in NamesOf(b.services)
    requires Exists(s.services, names[k].name)
    requires more == found + [Saved(names[k].name, DnsOf(s.services, names[k].name))]
    ensures NewLines(was, b, more) && KnownLines(names, b, more, k + 1)
  {
    var sid := names[k].sid;
    assert HolderOf(s.services, names[k].name) == sid by {
      assert was[HolderOf(s.services, names[k].name)].name == was[sid].name;
    }
    OneMoreFound(was, b, found, Saved(was[sid].name, was[sid].dns), sid);
    NamesOfMore(more, |found|);
    assert more[..|found| + 1] == more && more[..|found|] == found;
  }

  lemma OneMoreFound(was: map<Sid, Service>, b: Backup, found: seq<Saved>, last: Saved, sid: Sid)
    requires NewLines(was, b, found) && last.name !in NamesOf(b.services)
    requires sid in was && was[sid].enabled && last == Saved(was[sid].name, was[sid].dns)
    ensures NewLines(was, b, found + [last])
  {
    var more := found + [last];
    forall i | 0 <= i < |more|
      ensures more[i].name !in NamesOf(b.services)
      ensures exists sid :: sid in was && was[sid].enabled && more[i] == Saved(was[sid].name, was[sid].dns)
    {
      if i < |found| {
        assert more[i] == found[i];
      }
    }
  }

  lemma ReadTicks(was: map<Sid, Service>, b: Backup, server: Addr, s: State, ok: bool, names: seq<Listed>, k: nat,
                  found: seq<Saved>, t: State, clean: bool)
    requires Ticking(was, b, server, s, clean) && s.section == TickRead(server, names, k, found) && k < |names|
    requires (ok ==> Exists(s.services, names[k].name)) && t == ReadForTick(s, ok, server, names, k, found)
    ensures TickingOrDone(was, b, server, t, clean && ok)
  {
    KnownOrFound(b.services, names[k].name);
    if names[k].name in NamesOf(b.services) {
      KnownLineTicks(was, b, server, s, names, k, found, t, clean && ok);
    } else if ok {
      NewLineTicks(was, b, server, s, names, k, found, t, clean);
    } else {
      GivenUp(was, b, server, s, t);
    }
  }

  lemma KnownLineTicks(was: map<Sid, Service>, b: Backup, server: Addr, s: State, names: seq<Listed>, k: nat,
                       found: seq<Saved>, t: State, clean: bool)
    requires Ticking(was, b, server, s, clean) || Ticking(was, b, server, s, true)
    requires s.section == TickRead(server, names, k, found) && k < |names| && names[k].name in NamesOf(b.services)
    requires t == s.(section := TickRead(server, names, k + 1, found))
    ensures Ticking(was, b, server, t, clean)
  {
    assert KnownLines(names, b, found, k + 1);
  }

  lemma NewLineTicks(was: map<Sid, Service>, b: Backup, server: Addr, s: State, names: seq<Listed>, k: nat,
                     found: seq<Saved>, t: State, clean: bool)
    requires Ticking(was, b, server, s, clean) && s.section == TickRead(server, names, k, found) && k < |names|
    requires names[k].name !in NamesOf(b.services) && Exists(s.services, names[k].name)
    requires var line := Saved(names[k].name, DnsOf(s.services, names[k].name));
             t == s.(section := TickRead(server, names, k + 1, found + [line]))
    ensures Ticking(was, b, server, t, clean)
  {
    LineFound(was, b, s, names, k, found, found + [Saved(names[k].name, DnsOf(s.services, names[k].name))]);
  }

  lemma AllLinesKnown(was: map<Sid, Service>, b: Backup, names: seq<Listed>, found: seq<Saved>)
    requires IsListing(was, false, names) && NewLines(was, b, found) && KnownLines(names, b, found, |names|)
    ensures AllNew(was, b, found)
  {
    forall n | n in EnabledNames(was) ensures n in NamesOf(b.services) + NamesOf(found) {
      var sid :| sid in was && was[sid].enabled && was[sid].name == n;
      var i :| 0 <= i < |names| && names[i] == Listed(was[sid].name, sid);
      assert names[i].name == n;
    }
  }

  lemma PrepareTicks(was: map<Sid, Service>, b: Backup, server: Addr, s: State, ok: bool, found: seq<Saved>, t: State,
                     clean: bool)
    requires SameLists(was, s.services) && s.backup == Some(b) && AllNew(was, b, found)
    requires t == PrepareTick(s, ok, server, found)
    ensures TickingOrDone(was, b, server, t, clean && ok)
  {
    var grown := Grown(b, found, server, s.loopback);
    if grown.None? {
      assert CannotGrow(was, b, server, s.loopback);
      assert Ticked(was, b, server, t, clean && ok);
    } else {
      var ready := Remembering(grown.value, server);
      assert ReadyFrom(was, b, server, s.loopback, ready);
      if ready != b && !ok {
        GivenUp(was, b, server, s, t);
      } else {
        NothingAmong(was, ready, server);
        assert Ticking(was, b, server, t, clean && ok);
      }
    }
  }

  lemma NothingAmong(was: map<Sid, Service>, ready: Backup, server: Addr)
    ensures DriftedAmong(was, ready, 0, [], server)
  {
  }

  lemma ScanTicks(was: map<Sid, Service>, b: Backup, server: Addr, s: State, ok: bool, names: seq<Listed>, k: nat,
                  found: seq<Saved>, t: State, clean: bool)
    requires Ticking(was, b, server, s, clean) && s.section == TickRead(server, names, k, found)
    requires ok && k < |names| ==> Exists(s.services, names[k].name)
    requires t == ScanForTick(s, ok, server, names, k, found)
    ensures TickingOrDone(was, b, server, t, clean && ok)
  {
    if k < |names| {
      ReadTicks(was, b, server, s, ok, names, k, found, t, clean);
    } else {
      AllLinesKnown(was, b, names, found);
      PrepareTicks(was, b, server, s, ok, found, t, clean);
    }
  }

  // ---- Looking for drift ------------------------------------------------------------------------------------

  lemma LineDrifts(was: map<Sid, Service>, services: map<Sid, Service>, name: Name, server: Addr)
    requires SameLists(was, services)
    ensures Exists(services, name) && DnsOf(services, name) != [Plain(server)] <==> Drifts(was, name, server)
  {
    if Exists(services, name) {
      var holder := HolderOf(services, name);
      assert was[holder].name == name;
    }
    if Drifts(was, name, server) {
      var sid :| sid in was && was[sid].name == name && was[sid].dns != [Plain(server)];
      assert services[sid].name == name;
    }
  }

  lemma OneMoreLooked(was: map<Sid, Service>, ready: Backup, k: nat, drifted: seq<Name>, more: seq<Name>, server: Addr)
    requires k < |ready.services| && DriftedAmong(was, ready, k, drifted, server)
    requires more == if Drifts(was, ready.services[k].name, server) then drifted + [ready.services[k].name] else drifted
    ensures DriftedAmong(was, ready, k + 1, more, server)
  {
    NamesOfMore(ready.services, k);
  }

  lemma NothingDrifted(was: map<Sid, Service>, services: map<Sid, Service>, ready: Backup, server: Addr)
    requires SameLists(was, services) && DriftedAmong(was, ready, |ready.services|, [], server)
    ensures OnProxy(services, ready, server)
  {
    assert ready.services[..|ready.services|] == ready.services;
    forall sid | sid in services && services[sid].name in NamesOf(ready.services)
      ensures services[sid].dns == [Plain(server)]
    {
      assert !Drifts(was, services[sid].name, server);
      assert was[sid].name == services[sid].name;
    }
  }

  lemma DriftEnds(was: map<Sid, Service>, b: Backup, server: Addr, s: State, drifted: seq<Name>, t: State, clean: bool)
    requires SameLists(was, s.services) && s.backup.Some? && ReadyFrom(was, b, server, s.loopback, s.backup.value)
    requires DriftedAmong(was, s.backup.value, |s.backup.value.services|, drifted, server)
    requires t == s.(section := if drifted == [] then Free else TickSet(server, drifted, 0))
    ensures TickingOrDone(was, b, server, t, clean)
  {
    if drifted == [] {
      NothingDrifted(was, s.services, s.backup.value, server);
      assert Ticked(was, b, server, t, clean);
    } else {
      assert Corrected(was, s.services, drifted, 0, server, clean);
      assert Ticking(was, b, server, t, clean);
    }
  }

  lemma DriftTicks(was: map<Sid, Service>, b: Backup, server: Addr, s: State, ok: bool, drifted: seq<Name>, k: nat,
                   t: State, clean: bool)
    requires Ticking(was, b, server, s, clean) && s.section == TickDrift(server, drifted, k)
    requires t == DriftForTick(s, ok, server, drifted, k)
    ensures TickingOrDone(was, b, server, t, clean && ok)
  {
    var ready := s.backup.value;
    if !ok {
      GivenUp(was, b, server, s, t);
    } else if k == |ready.services| {
      DriftEnds(was, b, server, s, drifted, t, clean);
    } else {
      var name := ready.services[k].name;
      LineDrifts(was, s.services, name, server);
      OneMoreLooked(was, ready, k, drifted, if Drifts(was, name, server) then drifted + [name] else drifted, server);
    }
  }

  // ---- Correcting -------------------------------------------------------------------------------------------

  lemma OneCorrected(was: map<Sid, Service>, services: map<Sid, Service>, drifted: seq<Name>, k: nat, server: Addr,
                     clean: bool)
    requires k < |drifted| && Corrected(was, services, drifted, k, server, clean)
    ensures Corrected(was, Written(services, drifted[k], [Plain(server)], Some(server)), drifted, k + 1, server, clean)
  {
    assert drifted[..k + 1] == drifted[..k] + [drifted[k]];
  }

  lemma OneSkipped(was: map<Sid, Service>, services: map<Sid, Service>, drifted: seq<Name>, k: nat, server: Addr,
                   clean: bool)
    requires k < |drifted| && Corrected(was, services, drifted, k, server, clean)
    ensures Corrected(was, services, drifted, k + 1, server, false)
  {
    assert drifted[..k + 1] == drifted[..k] + [drifted[k]];
  }

  lemma AllCorrected(was: map<Sid, Service>, services: map<Sid, Service>, ready: Backup, drifted: seq<Name>,
                     server: Addr, clean: bool)
    requires Corrected(was, services, drifted, |drifted|, server, clean)
    requires DriftedAmong(was, ready, |ready.services|, drifted, server)
    ensures OnlyToProxy(was, services, ready, server) && (clean ==> OnProxy(services, ready, server))
  {
    assert drifted[..|drifted|] == drifted && ready.services[..|ready.services|] == ready.services;
    forall sid | clean && sid in services && services[sid].name in NamesOf(ready.services)
      ensures services[sid].dns == [Plain(server)]
    {
      assert was[sid].name == services[sid].name;
      if was[sid].dns != [Plain(server)] {
        assert Drifts(was, was[sid].name, server);
      }
    }
  }

  lemma SetTicks(was: map<Sid, Service>, b: Backup, server: Addr, s: State, ok: bool, drifted: seq<Name>, k: nat,
                 t: State, clean: bool)
    requires Ticking(was, b, server, s, clean) && s.section == TickSet(server, drifted, k)
    requires t == SetForTick(s, ok, server, drifted, k)
    ensures TickingOrDone(was, b, server, t, clean && ok)
  {
    if k == |drifted| {
      AllCorrected(was, s.services, s.backup.value, drifted, server, clean);
      assert Ticked(was, b, server, t, clean && ok);
    } else if ok {
      OneCorrected(was, s.services, drifted, k, server, clean);
    } else {
      OneSkipped(was, s.services, drifted, k, server, clean);
    }
  }

  // ---- From the first effect to the last ----------------------------------------------------------------------

  lemma TickGoesOn(was: map<Sid, Service>, b: Backup, server: Addr, s: State, ok: bool, names: seq<Listed>, t: State,
                   clean: bool)
    requires Ticking(was, b, server, s, clean) && (ok ==> CallsCanWork(s, names)) && t == SectionStep(s, ok, names)
    ensures TickingOrDone(was, b, server, t, clean && ok)
  {
    match s.section
    case TickList(_) => ListTicks(was, b, server, s, ok, names, t, clean);
    case TickRead(_, listed, k, found) => ScanTicks(was, b, server, s, ok, listed, k, found, t, clean);
    case TickDrift(_, drifted, k) => DriftTicks(was, b, server, s, ok, drifted, k, t, clean);
    case TickSet(_, drifted, k) => SetTicks(was, b, server, s, ok, drifted, k, t, clean);
  }

  lemma OneTick(was: map<Sid, Service>, b: Backup, server: Addr, s: State, e: Event, t: State, clean: bool)
    requires Ticking(was, b, server, s, clean) && Enabled(s, e) && e.SectionSteps? && t == Step(s, e)
    ensures TickingOrDone(was, b, server, t, clean && e.ok)
  {
    TickGoesOn(was, b, server, s, e.ok, e.names, t, clean);
  }

  lemma {:induction false} TicksAlone(was: map<Sid, Service>, b: Backup, server: Addr, s: State, run: seq<Event>,
                                      clean: bool)
    requires Ticking(was, b, server, s, clean) && Legal(s, run) && Undisturbed(run) && Final(s, run).section.Free?
    ensures Ticked(was, b, server, Final(s, run), clean && AllWork(run))
    decreases |run|
  {
    if run != [] {
      var t := Step(s, run[0]);
      OneTick(was, b, server, s, run[0], t, clean);
      if t.section.Free? {
        FreeIsTheEnd(t, run[1..]);
      } else {
        TicksAlone(was, b, server, t, run[1..], clean && run[0].ok);
      }
      assert AllWork(run) <==> run[0].ok && AllWork(run[1..]);
    }
  }

  /**
   * A watchdog cycle with nobody else acting only ever points saved services at the proxy, with the lists of new ones
   * saved first. If no call fails, then every saved service that exists ends up there and every enabled one is saved,
   * unless an unknown one already uses the proxy, when nothing changes at all.
   */
  lemma AloneAsWatchdogTick(s: State, run: seq<Event>, b: Backup, server: Addr)
    requires Inv(s) && s.section == TickList(server) && s.backup == Some(b) && s.marker
    requires Legal(s, run) && Undisturbed(run) && Final(s, run).section.Free?
    ensures var was, t := s.services, Final(s, run);
            t.backup.Some? && OnlyToProxy(was, t.services, t.backup.value, server) && Extends(b, t.backup.value)
            && (AllWork(run) ==>
                  (CannotGrow(was, b, server, t.loopback) && SameLists(was, t.services) && t.backup == Some(b))
                  || (OnProxy(t.services, t.backup.value, server)
                      && EnabledNames(was) <= NamesOf(t.backup.value.services)))
  {
    TicksAlone(s.services, b, server, s, run, true);
    var t := Final(s, run);
    if ReadyFrom(s.services, b, server, t.loopback, t.backup.value) {
      ReadyExtends(s.services, b, server, t.loopback, t.backup.value);
    }
  }

  lemma ReadyExtends(was: map<Sid, Service>, b: Backup, server: Addr, loopback: Addr -> bool, ready: Backup)
    requires UniqueNames(b.services) && ReadyFrom(was, b, server, loopback, ready)
    ensures Extends(b, ready) && EnabledNames(was) <= NamesOf(ready.services)
  {
    var found :| AllNew(was, b, found) && Grown(b, found, server, loopback).Some?
      && ready == Remembering(Grown(b, found, server, loopback).value, server);
    GrownExtends(b, found, server, loopback);
  }
}
