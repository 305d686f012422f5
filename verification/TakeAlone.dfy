/** A takeover nobody disturbs does, effect by effect, what the sequential one does. */
module TakeAlone {
  import opened Prelude
  import opened OsDns
  import opened Takeover
  import opened TakeoverRuns
  import opened TakeoverAlone

  /** The names of the enabled services. */
  ghost function EnabledNames(services: map<Sid, Service>): set<Name> {
    set sid | sid in services && services[sid].enabled :: services[sid].name
  }

  /** Some service is enabled, and none that is lists the proxy already. */
  ghost predicate CanTake(was: map<Sid, Service>, server: Addr) {
    (exists sid :: sid in was && was[sid].enabled)
    && forall sid | sid in was && was[sid].enabled :: Plain(server) !in was[sid].dns
  }

  /** The same services: only lists, and whose they are, may differ. */
  ghost predicate SameServices(was: map<Sid, Service>, services: map<Sid, Service>) {
    NamesUnique(was) && services.Keys == was.Keys
    && forall sid | sid in was :: services[sid].name == was[sid].name && services[sid].enabled == was[sid].enabled
  }

  /** The lists of the first `n` lines, as they were, none with the proxy in it. */
  ghost predicate SavedLines(was: map<Sid, Service>, names: seq<Listed>, saved: seq<Saved>, n: nat, server: Addr) {
    |saved| == n <= |names| && IsListing(was, false, names)
    && forall i | 0 <= i < n ::
         names[i].sid in was && saved[i] == Saved(names[i].name, was[names[i].sid].dns)
         && Plain(server) !in saved[i].servers
  }

  /** The services of the first `k` lines, and no others, point at the proxy alone. */
  ghost predicate SwitchedLines(was: map<Sid, Service>, services: map<Sid, Service>, names: seq<Listed>, k: nat,
                                server: Addr)
    requires k <= |names|
  {
    SameServices(was, services)
    && forall sid | sid in was ::
         services[sid].dns == if sid in SidsOf(names[..k]) then [Plain(server)] else was[sid].dns
  }

  ghost predicate Mixed(was: map<Sid, Service>, services: map<Sid, Service>, server: Addr) {
    SameServices(was, services)
    && forall sid | sid in was :: services[sid].dns == was[sid].dns || services[sid].dns == [Plain(server)]
  }

  ghost predicate SavedAll(was: map<Sid, Service>, names: seq<Listed>, backup: Option<Backup>, server: Addr) {
    names != [] && backup.Some? && backup.value.history == Some([server])
    && SavedLines(was, names, backup.value.services, |names|, server)
  }

  /** Where an undisturbed takeover stands; `clean` while no call has failed, `once` while at most one has. */
  ghost predicate Taking(was: map<Sid, Service>, server: Addr, s: State, clean: bool, once: bool) {
    match s.section
    case TakeList(a) => a == server && s.backup.None? && SwitchedLines(was, s.services, [], 0, server)
    case TakeRead(a, names, saved) =>
      a == server && s.backup.None? && SwitchedLines(was, s.services, [], 0, server)
      && SavedLines(was, names, saved, |saved|, server)
    case TakeSet(a, names, k) =>
      a == server && k <= |names| && SavedAll(was, names, s.backup, server)
      && SwitchedLines(was, s.services, names, k, server)
    case TakeUndo(a, names, k, fine) =>
      a == server && k <= |names| && SavedAll(was, names, s.backup, server) && Mixed(was, s.services, server)
      && !clean && (once ==> fine) && (fine ==> SwitchedLines(was, s.services, names, k, server))
    case TakeDrop(a) =>
      a == server && SwitchedLines(was, s.services, [], 0, server) && !clean
      && exists names :: SavedAll(was, names, s.backup, server)
    case TakeMark(a) =>
      a == server &&
      exists names :: SavedAll(was, names, s.backup, server) && SwitchedLines(was, s.services, names, |names|, server)
    case _ => false
  }

  /** The takeover is over: done, undone, or neither, with the backup kept. */
  ghost predicate Took(was: map<Sid, Service>, server: Addr, s: State, clean: bool, once: bool) {
    s.section.Free? && (s.command.NoCommand? || s.command.StartFailed?)
    && (clean ==> (s.command.NoCommand? <==> CanTake(was, server)))
    && if s.backup.None? then s.command.StartFailed? && SwitchedLines(was, s.services, [], 0, server)
       else
         Mixed(was, s.services, server) && (s.command.NoCommand? ==> s.marker)
         && exists names :: SavedAll(was, names, s.backup, server)
              && (once || s.command.NoCommand? ==> SwitchedLines(was, s.services, names, |names|, server))
  }

  ghost predicate TakingOrDone(was: map<Sid, Service>, server: Addr, s: State, clean: bool, once: bool) {
    Taking(was, server, s, clean, once) || Took(was, server, s, clean, once)
  }

  // ---- Listing and reading ------------------------------------------------------------------------------

  lemma LinesOfNone(names: seq<Listed>)
    ensures SidsOf(names[..0]) == {} && SidsOf([]) == {}
  {
  }

  lemma UnchangedLines(was: map<Sid, Service>, services: map<Sid, Service>, names: seq<Listed>, server: Addr)
    requires SameServices(was, services)
    ensures SwitchedLines(was, services, [], 0, server) <==>
            forall sid | sid in was :: services[sid].dns == was[sid].dns
    ensures SwitchedLines(was, services, names, 0, server) <==> SwitchedLines(was, services, [], 0, server)
  {
    LinesOfNone(names);
  }

  lemma ListingTaken(was: map<Sid, Service>, server: Addr, s: State, ok: bool, names: seq<Listed>, t: State,
                     clean: bool, once: bool)
    requires Taking(was, server, s, clean, once) && s.section == TakeList(server) && (ok ==> CallsCanWork(s, names))
    requires t == ListForTake(s, ok, server, names)
    ensures TakingOrDone(was, server, t, clean && ok, once && (ok || clean))
  {
    UnchangedLines(was, s.services, names, server);
  }

  lemma LineRead(was: map<Sid, Service>, server: Addr, s: State, names: seq<Listed>, saved: seq<Saved>)
    requires SwitchedLines(was, s.services, [], 0, server) && NamesUnique(s.services)
    requires SavedLines(was, names, saved, |saved|, server) && |saved| < |names|
    requires Exists(s.services, names[|saved|].name)
    ensures var line := names[|saved|];
            line.sid in was && was[line.sid].enabled && DnsOf(s.services, line.name) == was[line.sid].dns
  {
    var line := names[|saved|];
    UnchangedLines(was, s.services, names, server);
    assert HolderOf(s.services, line.name) == line.sid;
  }

  lemma AllLinesRead(was: map<Sid, Service>, names: seq<Listed>, saved: seq<Saved>, server: Addr)
    requires SavedLines(was, names, saved, |names|, server)
    ensures names != [] <==> CanTake(was, server)
    ensures names == [] ==> forall sid | sid in was :: !was[sid].enabled
  {
    forall sid | sid in was && was[sid].enabled ensures names != [] && Plain(server) !in was[sid].dns {
      var i :| 0 <= i < |names| && names[i] == Listed(was[sid].name, sid);
      assert saved[i].servers == was[sid].dns;
    }
    if names != [] {
      assert names[0].sid in was;
    }
  }

  lemma OneRead(was: map<Sid, Service>, server: Addr, s: State, names: seq<Listed>, saved: seq<Saved>, t: State,
                clean: bool, once: bool)
    requires SwitchedLines(was, s.services, [], 0, server) && NamesUnique(s.services) && s.backup.None?
    requires SavedLines(was, names, saved, |saved|, server) && |saved| < |names|
    requires Exists(s.services, names[|saved|].name) && t == ReadForTake(s, true, server, names, saved)
    ensures TakingOrDone(was, server, t, clean, once)
  {
    LineRead(was, server, s, names, saved);
    if Plain(server) in DnsOf(s.services, names[|saved|].name) {
      assert !CanTake(was, server);
    }
  }

  lemma ReadFailed(was: map<Sid, Service>, server: Addr, s: State, t: State, once: bool)
    requires SwitchedLines(was, s.services, [], 0, server) && s.backup.None? && t == EndTake(s, false)
    ensures Took(was, server, t, false, once)
  {
  }

  lemma AllRead(was: map<Sid, Service>, server: Addr, s: State, names: seq<Listed>, saved: seq<Saved>, t: State,
                clean: bool, once: bool)
    requires SwitchedLines(was, s.services, [], 0, server) && s.backup.None?
    requires SavedLines(was, names, saved, |names|, server) && t == ReadForTake(s, true, server, names, saved)
    ensures TakingOrDone(was, server, t, clean, once)
  {
    AllLinesRead(was, names, saved, server);
    UnchangedLines(was, s.services, names, server);
  }

  lemma ReadTaken(was: map<Sid, Service>, server: Addr, s: State, ok: bool, names: seq<Listed>, saved: seq<Saved>,
                  t: State, clean: bool, once: bool)
    requires Taking(was, server, s, clean, once) && s.section == TakeRead(server, names, saved)
    requires NamesUnique(s.services) && (ok && |saved| < |names| ==> Exists(s.services, names[|saved|].name))
    requires t == ReadForTake(s, ok, server, names, saved)
    ensures TakingOrDone(was, server, t, clean && ok, once && (ok || clean))
  {
    if !ok {
      ReadFailed(was, server, s, t, once && clean);
    } else if |saved| < |names| {
      OneRead(was, server, s, names, saved, t, clean, once);
    } else {
      AllRead(was, server, s, names, saved, t, clean, once);
    }
  }

  // ---- Switching ------------------------------------------------------------------------------------------

  lemma OneMoreSid(names: seq<Listed>, k: nat)
    requires k < |names|
    ensures SidsOf(names[..k + 1]) == SidsOf(names[..k]) + {names[k].sid}
  {
    var more, less := names[..k + 1], names[..k];
    assert forall i | 0 <= i < k :: more[i] == less[i];
    assert more[k] == names[k];
    forall sid | sid in SidsOf(less) ensures sid in SidsOf(more) {
      var i :| 0 <= i < k && less[i].sid == sid;
      assert more[i].sid == sid;
    }
    forall sid | sid in SidsOf(more) ensures sid in SidsOf(less) + {names[k].sid} {
      var i :| 0 <= i < |more| && more[i].sid == sid;
      if i < k {
        assert less[i].sid == sid;
      }
    }
  }

  lemma LineWritten(was: map<Sid, Service>, services: map<Sid, Service>, names: seq<Listed>, k: nat, dns: DnsList,
                    ours: Option<Addr>)
    requires SameServices(was, services) && k < |names| && IsListing(was, false, names)
    requires Exists(services, names[k].name)
    ensures var after := Written(services, names[k].name, dns, ours);
            LineSet(was, services, after, names[k].sid, dns) && HolderOf(services, names[k].name) == names[k].sid
  {
    var sid := HolderOf(services, names[k].name);
    assert was[sid].name == was[names[k].sid].name;
  }

  /** `after` differs from `services` in the list of the service of line `k` alone. */
  ghost predicate LineSet(was: map<Sid, Service>, services: map<Sid, Service>, after: map<Sid, Service>, sid: Sid,
                          dns: DnsList)
  {
    SameServices(was, services) && SameServices(was, after)
    && forall other | other in was :: after[other].dns == if other == sid then dns else services[other].dns
  }

  lemma OneMoreSwitched(was: map<Sid, Service>, services: map<Sid, Service>, after: map<Sid, Service>,
                        names: seq<Listed>, k: nat, server: Addr)
    requires k < |names| && SwitchedLines(was, services, names, k, server)
    requires LineSet(was, services, after, names[k].sid, [Plain(server)])
    ensures SwitchedLines(was, after, names, k + 1, server)
  {
    OneMoreSid(names, k);
  }

  lemma OneFewerSwitched(was: map<Sid, Service>, services: map<Sid, Service>, after: map<Sid, Service>,
                         names: seq<Listed>, k: nat, server: Addr)
    requires k < |names| && SwitchedLines(was, services, names, k + 1, server) && names[k].sid in was
    requires LineSet(was, services, after, names[k].sid, was[names[k].sid].dns)
    requires forall i, j | 0 <= i < j < |names| :: names[i].sid != names[j].sid
    ensures SwitchedLines(was, after, names, k, server)
  {
    OneMoreSid(names, k);
    SidNotBefore(names, k);
  }

  lemma SwitchTaken(was: map<Sid, Service>, server: Addr, s: State, names: seq<Listed>, k: nat, t: State)
    requires k < |names| && SwitchedLines(was, s.services, names, k, server) && IsListing(was, false, names)
    requires Exists(s.services, names[k].name) && t == SwitchLine(s, server, names, k)
    ensures t.section == TakeSet(server, names, k + 1) && SwitchedLines(was, t.services, names, k + 1, server)
  {
    LineWritten(was, s.services, names, k, [Plain(server)], Some(server));
    assert names[k := Listed(names[k].name, names[k].sid)] == names;
    OneMoreSwitched(was, s.services, t.services, names, k, server);
  }

  lemma SwitchedIsMixed(was: map<Sid, Service>, services: map<Sid, Service>, names: seq<Listed>, k: nat, server: Addr)
    requires k <= |names| && SwitchedLines(was, services, names, k, server)
    ensures Mixed(was, services, server)
  {
  }

  lemma SetTaken(was: map<Sid, Service>, server: Addr, s: State, ok: bool, names: seq<Listed>, k: nat, t: State,
                 clean: bool, once: bool)
    requires Taking(was, server, s, clean, once) && s.section == TakeSet(server, names, k)
    requires ok && k < |names| ==> Exists(s.services, names[k].name)
    requires t == SetForTake(s, ok, server, names, k)
    ensures TakingOrDone(was, server, t, clean && ok, once && (ok || clean))
  {
    if k < |names| && ok {
      SwitchTaken(was, server, s, names, k, t);
    } else if k < |names| {
      SwitchedIsMixed(was, s.services, names, k, server);
    }
  }

  // ---- Undoing --------------------------------------------------------------------------------------------

  lemma UndoTaken(was: map<Sid, Service>, server: Addr, s: State, names: seq<Listed>, k: nat, fine: bool, t: State)
    requires SavedAll(was, names, s.backup, server) && Mixed(was, s.services, server) && k < |names|
    requires fine ==> SwitchedLines(was, s.services, names, k + 1, server)
    requires t == UndoLine(s, server, names, k, fine)
    ensures Mixed(was, t.services, server) && (fine ==> SwitchedLines(was, t.services, names, k, server))
  {
    var saved := s.backup.value.services[k];
    assert Exists(s.services, names[k].name) by {
      assert s.services[names[k].sid].name == names[k].name;
    }
    LineWritten(was, s.services, names, k, saved.servers, None);
    if fine {
      OneFewerSwitched(was, s.services, t.services, names, k, server);
    }
    StaysMixed(was, s.services, t.services, names[k].sid, server);
  }

  lemma StaysMixed(was: map<Sid, Service>, services: map<Sid, Service>, after: map<Sid, Service>, sid: Sid,
                   server: Addr)
    requires Mixed(was, services, server) && sid in was && LineSet(was, services, after, sid, was[sid].dns)
    ensures Mixed(was, after, server)
  {
  }

  lemma SidNotBefore(names: seq<Listed>, k: nat)
    requires k < |names| && forall i, j | 0 <= i < j < |names| :: names[i].sid != names[j].sid
    ensures names[k].sid !in SidsOf(names[..k])
  {
  }

  lemma UndoStepTaken(was: map<Sid, Service>, server: Addr, s: State, ok: bool, names: seq<Listed>, k: nat, fine: bool,
                      t: State, clean: bool, once: bool)
    requires Taking(was, server, s, clean, once) && s.section == TakeUndo(server, names, k, fine)
    requires t == UndoForTake(s, ok, server, names, k, fine)
    ensures TakingOrDone(was, server, t, clean && ok, once && (ok || clean))
  {
    if k == 0 {
      UndoEnds(was, server, s, names, fine, t, clean && ok, once && (ok || clean));
    } else if ok {
      UndoTaken(was, server, s, names, k - 1, fine, t);
    }
  }

  lemma UndoEnds(was: map<Sid, Service>, server: Addr, s: State, names: seq<Listed>, fine: bool, t: State, clean: bool,
                 once: bool)
    requires SavedAll(was, names, s.backup, server) && Mixed(was, s.services, server) && !clean && (once ==> fine)
    requires fine ==> SwitchedLines(was, s.services, names, 0, server)
    requires t == if fine then s.(section := TakeDrop(server)) else EndTake(s, false)
    ensures TakingOrDone(was, server, t, clean, once)
  {
    UnchangedLines(was, s.services, names, server);
    if fine {
      assert Taking(was, server, t, clean, once);
    } else {
      assert Took(was, server, t, clean, once);
    }
  }

  lemma DropTaken(was: map<Sid, Service>, server: Addr, s: State, ok: bool, t: State, clean: bool, once: bool)
    requires Taking(was, server, s, clean, once) && s.section == TakeDrop(server)
    requires t == EndTake(if ok then s.(backup := None) else s, false)
    ensures Took(was, server, t, clean && ok, once && (ok || clean))
  {
    var names :| SavedAll(was, names, s.backup, server);
    SwitchedIsMixed(was, s.services, [], 0, server);
  }

  lemma MarkTaken(was: map<Sid, Service>, server: Addr, s: State, ok: bool, t: State, clean: bool, once: bool)
    requires Taking(was, server, s, clean, once) && s.section == TakeMark(server)
    requires t == EndTake(if ok then s.(marker := true) else s, ok)
    ensures Took(was, server, t, clean && ok, once && (ok || clean))
  {
    var names :| SavedAll(was, names, s.backup, server) && SwitchedLines(was, s.services, names, |names|, server);
    SwitchedIsMixed(was, s.services, names, |names|, server);
    AllLinesRead(was, names, s.backup.value.services, server);
  }

  // ---- From the first effect to the last --------------------------------------------------------------------

  /** One more effect of a takeover that nobody disturbs. */
  lemma TakeGoesOn(was: map<Sid, Service>, server: Addr, s: State, ok: bool, names: seq<Listed>, t: State, clean: bool,
                   once: bool)
    requires Taking(was, server, s, clean, once) && NamesUnique(s.services) && (ok ==> CallsCanWork(s, names))
    requires t == SectionStep(s, ok, names)
    ensures TakingOrDone(was, server, t, clean && ok, once && (ok || clean))
  {
    match s.section
    case TakeList(_) => ListingTaken(was, server, s, ok, names, t, clean, once);
    case TakeRead(_, listed, saved) => ReadTaken(was, server, s, ok, listed, saved, t, clean, once);
    case TakeSet(_, listed, k) => SetTaken(was, server, s, ok, listed, k, t, clean, once);
    case TakeUndo(_, listed, k, fine) => UndoStepTaken(was, server, s, ok, listed, k, fine, t, clean, once);
    case TakeDrop(_) => DropTaken(was, server, s, ok, t, clean, once);
    case TakeMark(_) => MarkTaken(was, server, s, ok, t, clean, once);
  }

  /** The calls of the run that failed. */
  function Failures(run: seq<Event>): nat {
    if run == [] then 0 else (if run[0].SectionSteps? && !run[0].ok then 1 else 0) + Failures(run[1..])
  }

  lemma NothingFollows(s: State, run: seq<Event>)
    requires Legal(s, run) && Undisturbed(run) && s.section.Free?
    ensures run == []
  {
  }

  lemma CountedStep(was: map<Sid, Service>, server: Addr, s: State, e: Event, t: State, failed: nat, now: nat)
    requires Taking(was, server, s, failed == 0, failed <= 1) && NamesUnique(s.services)
    requires Enabled(s, e) && e.SectionSteps? && t == Step(s, e) && now == failed + if e.ok then 0 else 1
    ensures TakingOrDone(was, server, t, now == 0, now <= 1) && NamesUnique(t.services)
  {
    TakeGoesOn(was, server, s, e.ok, e.names, t, failed == 0, failed <= 1);
    StillTheSame(was, server, t, failed == 0 && e.ok, failed <= 1 && (e.ok || failed == 0));
  }

  lemma StillTheSame(was: map<Sid, Service>, server: Addr, s: State, clean: bool, once: bool)
    requires TakingOrDone(was, server, s, clean, once)
    ensures NamesUnique(s.services)
  {
    assert SameServices(was, s.services);
  }

  lemma {:induction false} TakesAlone(was: map<Sid, Service>, server: Addr, s: State, run: seq<Event>, failed: nat)
    requires Taking(was, server, s, failed == 0, failed <= 1) && NamesUnique(s.services)
    requires Legal(s, run) && Undisturbed(run) && Final(s, run).section.Free?
    ensures Took(was, server, Final(s, run), failed + Failures(run) == 0, failed + Failures(run) <= 1)
    decreases |run|
  {
    if run != [] {
      var t := Step(s, run[0]);
      var now := failed + if run[0].ok then 0 else 1;
      CountedStep(was, server, s, run[0], t, failed, now);
      if t.section.Free? {
        NothingFollows(t, run[1..]);
      } else {
        TakesAlone(was, server, t, run[1..], now);
      }
    }
  }

  // ---- In terms of the settings -------------------------------------------------------------------------------

  lemma SameNamesOfServices(was: map<Sid, Service>, services: map<Sid, Service>)
    requires SameServices(was, services)
    ensures NamesUnique(services) && Settings(services).Keys == Settings(was).Keys
  {
    forall n ensures n in Settings(services) <==> n in Settings(was) {
      if n in Settings(was) {
        var sid :| sid in was && was[sid].name == n;
        SettingsOf(services, sid);
      }
      if n in Settings(services) {
        var sid :| sid in services && services[sid].name == n;
        SettingsOf(was, sid);
      }
    }
  }

  lemma MixedSettings(was: map<Sid, Service>, services: map<Sid, Service>, server: Addr)
    requires Mixed(was, services, server)
    ensures NamesUnique(services) && forall n | n in Settings(services) ::
              n in Settings(was)
              && (Settings(services)[n] == Settings(was)[n] || Settings(services)[n] == [Plain(server)])
  {
    SameNamesOfServices(was, services);
    forall n | n in Settings(services)
      ensures Settings(services)[n] == Settings(was)[n] || Settings(services)[n] == [Plain(server)]
    {
      var sid :| sid in services && services[sid].name == n;
      SettingsOf(services, sid);
      SettingsOf(was, sid);
    }
  }

  lemma UnchangedSettings(was: map<Sid, Service>, services: map<Sid, Service>, server: Addr)
    requires SwitchedLines(was, services, [], 0, server)
    ensures NamesUnique(services) && Settings(services) == Settings(was)
  {
    SameNamesOfServices(was, services);
    UnchangedLines(was, services, [], server);
    forall n | n in Settings(services) ensures Settings(services)[n] == Settings(was)[n] {
      var sid :| sid in services && services[sid].name == n;
      SettingsOf(services, sid);
      SettingsOf(was, sid);
    }
  }

  /** The lines name exactly the enabled services. */
  lemma LinesAreEnabled(was: map<Sid, Service>, names: seq<Listed>, sid: Sid)
    requires IsListing(was, false, names) && sid in was
    ensures sid in SidsOf(names[..|names|]) <==> was[sid].enabled
  {
    assert names[..|names|] == names;
    if was[sid].enabled {
      var i :| 0 <= i < |names| && names[i] == Listed(was[sid].name, sid);
      assert names[i].sid == sid;
    }
  }

  lemma SwitchedSettings(was: map<Sid, Service>, services: map<Sid, Service>, names: seq<Listed>, server: Addr)
    requires SwitchedLines(was, services, names, |names|, server) && IsListing(was, false, names)
    ensures NamesUnique(services)
    ensures Switched(Settings(services), Settings(was), EnabledNames(was), server)
  {
    SameNamesOfServices(was, services);
    forall n | n in Settings(services)
      ensures Settings(services)[n] == if n in EnabledNames(was) then [Plain(server)] else Settings(was)[n]
    {
      var sid :| sid in services && services[sid].name == n;
      SettingsOf(services, sid);
      SettingsOf(was, sid);
      LinesAreEnabled(was, names, sid);
      if n in EnabledNames(was) {
        var other :| other in was && was[other].enabled && was[other].name == n;
        assert other == sid;
      }
    }
  }

  lemma SavedSettings(was: map<Sid, Service>, names: seq<Listed>, saved: seq<Saved>, server: Addr)
    requires NamesUnique(was) && SavedLines(was, names, saved, |names|, server)
    ensures SavedFrom(saved, Settings(was)) && UniqueNames(saved) && NamesOf(saved) == EnabledNames(was)
  {
    forall i | 0 <= i < |saved|
      ensures saved[i].name in Settings(was) && saved[i].servers == Settings(was)[saved[i].name]
      ensures saved[i].name in EnabledNames(was)
    {
      SettingsOf(was, names[i].sid);
      assert was[names[i].sid].enabled;
    }
    forall n | n in EnabledNames(was) ensures n in NamesOf(saved) {
      var sid :| sid in was && was[sid].enabled && was[sid].name == n;
      var i :| 0 <= i < |names| && names[i] == Listed(was[sid].name, sid);
      assert saved[i].name == n;
    }
    forall i, j | 0 <= i < j < |saved| ensures saved[i].name != saved[j].name {
      assert names[i].sid != names[j].sid;
    }
  }

  lemma OutcomeOfTake(was: map<Sid, Service>, server: Addr, t: State, clean: bool, once: bool)
    requires NamesUnique(was) && Took(was, server, t, clean, once)
    ensures NamesUnique(t.services)
    ensures TakeOutcome(Settings(was), EnabledNames(was), Settings(t.services), t.backup, t.command.NoCommand?, server)
    ensures once && t.backup.Some? ==> Switched(Settings(t.services), Settings(was), EnabledNames(was), server)
  {
    EnabledAreNamed(was);
    if t.backup.None? {
      UnchangedSettings(was, t.services, server);
    } else {
      var names :| SavedAll(was, names, t.backup, server)
        && (once || t.command.NoCommand? ==> SwitchedLines(was, t.services, names, |names|, server));
      SavedSettings(was, names, t.backup.value.services, server);
      SameNamesOfServices(was, t.services);
      MixedSettings(was, t.services, server);
      if once || t.command.NoCommand? {
        SwitchedSettings(was, t.services, names, server);
      }
    }
  }

  lemma EnabledAreNamed(was: map<Sid, Service>)
    requires NamesUnique(was)
    ensures Settings(was).Keys * EnabledNames(was) == EnabledNames(was)
  {
    forall n | n in EnabledNames(was) ensures n in Settings(was) {
      var sid :| sid in was && was[sid].enabled && was[sid].name == n;
      SettingsOf(was, sid);
    }
  }

  /**
   * From the first effect of a takeover to the last, with nobody else acting, the outcome is the one TakeOver promises.
   * If no call fails it succeeds exactly if it can. If one call fails everything is rolled back, unless it was the last
   * one, on the marker.
   */
  lemma AloneAsTakeOver(s: State, run: seq<Event>, server: Addr)
    requires Inv(s) && s.section == TakeList(server) && s.backup.None?
    requires Legal(s, run) && Undisturbed(run) && Final(s, run).section.Free?
    ensures NamesUnique(s.services) && NamesUnique(Final(s, run).services)
    ensures var was, t := s.services, Final(s, run);
            TakeOutcome(Settings(was), EnabledNames(was), Settings(t.services), t.backup, t.command.NoCommand?, server)
            && (t.command.NoCommand? ==> t.marker)
            && (Failures(run) == 0 ==> (t.command.NoCommand? <==> CanTake(was, server)))
            && (Failures(run) <= 1 && t.backup.Some? ==>
                  Switched(Settings(t.services), Settings(was), EnabledNames(was), server))
  {
    UnchangedLines(s.services, s.services, [], server);
    TakesAlone(s.services, server, s, run, 0);
    OutcomeOfTake(s.services, server, Final(s, run), Failures(run) == 0, Failures(run) <= 1);
  }
}
