/** What every interleaving of a takeover keeps, and exactly when it cannot. */
module TakeoverRuns {
  import opened Prelude
  import opened OsDns
  import opened Takeover

  // ---- The invariant ----------------------------------------------------------------------------------

  /** A service that still carries our list can be restored, and the proxy it points at is kept running. */
  ghost predicate Recoverable(s: State, sid: Sid)
    requires sid in s.services && s.services[sid].ours.Some?
  {
    var addr := s.services[sid].ours.value;
    s.services[sid].dns == [Plain(addr)] && s.loaded
    && s.backup.Some? && s.backup.value.history.Some? && addr in s.backup.value.history.value
  }

  ghost predicate Safe(s: State) {
    (forall sid | sid in s.services && s.services[sid].ours.Some? :: Recoverable(s, sid))
    && (s.marker ==> s.backup.Some?)
  }

  function SidsOf(names: seq<Listed>): set<Sid> {
    set k | 0 <= k < |names| :: names[k].sid
  }

  /** Only these services carry our list. */
  ghost predicate OursAmong(services: map<Sid, Service>, sids: set<Sid>) {
    forall sid | sid in services && services[sid].ours.Some? :: sid in sids
  }

  /** What was passed by still carries our list, and nothing has been outside a verification or rollback. */
  ghost predicate MisreadIsOurs(s: State) {
    (forall sid | sid in s.misread :: sid in s.services && s.services[sid].ours.Some?)
    && (!Checking(s.section) ==> s.misread == {})
  }

  ghost predicate DistinctNames(names: seq<Listed>) {
    forall j, k | 0 <= j < k < |names| :: names[j].name != names[k].name
  }

  ghost predicate SameNames(saved: seq<Saved>, names: seq<Listed>) {
    |saved| <= |names| && forall k | 0 <= k < |saved| :: saved[k].name == names[k].name
  }

  ghost predicate TakeInv(s: State) {
    match s.section
    case TakeRead(_, names, saved) => s.backup.None? && SameNames(saved, names) && DistinctNames(names)
    case TakeSet(server, names, k) =>
      s.backup.Some? && s.backup.value.history == Some([server]) && SameNames(s.backup.value.services, names)
      && |s.backup.value.services| == |names| && k <= |names| && !s.marker
      && OursAmong(s.services, SidsOf(names[..k]))
    case TakeUndo(server, names, k, fine) =>
      s.backup.Some? && SameNames(s.backup.value.services, names) && |s.backup.value.services| == |names|
      && k <= |names| && !s.marker && (fine ==> OursAmong(s.services, SidsOf(names[..k]) + s.misread))
    case TakeDrop(_) => s.backup.Some? && !s.marker && OursAmong(s.services, s.misread)
    case TakeMark(_) => s.backup.Some?
    case _ => true
  }

  ghost predicate ReleaseInv(s: State) {
    match s.section
    case ReleaseOrphan => s.backup.None?
    case RestoreList => s.backup.Some? && !s.marker
    case RestoreSet(_, _, _) => s.backup.Some? && !s.marker
    case RestoreRelist(_) => s.backup.Some? && !s.marker
    case RestoreVerify(names, k, fine) =>
      s.backup.Some? && !s.marker && k <= |names| && (fine ==> OursAmong(s.services, SidsOf(names[k..]) + s.misread))
    case RestoreDrop => s.backup.Some? && !s.marker && OursAmong(s.services, s.misread)
    case _ => true
  }

  ghost predicate Remembered(s: State, server: Addr) {
    s.backup.Some? && s.backup.value.history.Some? && server in s.backup.value.history.value
  }

  ghost predicate TickInv(s: State) {
    match s.section
    case TickDrift(server, _, _) => Remembered(s, server)
    case TickSet(server, _, _) => Remembered(s, server)
    case _ => true
  }

  /** Who is inside a section, and what a command may count on. */
  ghost predicate Owners(s: State) {
    (OfTake(s.section) <==> s.command.StartTaking?)
    && (!OfTake(s.section) && !OfDaemon(s.section) && !s.section.Free? <==> s.command.Stopping?)
    && (OfDaemon(s.section) ==> s.loaded)
    && (s.command.StartProbing? || s.command.StartWaiting? || s.command.StartTaking? ==> s.loaded)
    && (s.command.StartLoading? || s.command.StartProbing? || s.command.StartWaiting? ==> s.backup.None?)
    && (s.command.StartCleaning? || s.command.StopUnloading? ==> s.backup.None?)
  }

  ghost predicate Files(s: State) {
    s.backup.Some? ==> s.backup.value.history.Some? && UniqueNames(s.backup.value.services)
  }

  ghost predicate Services(s: State) {
    NamesUnique(s.services) && s.services.Keys <= s.used && MisreadIsOurs(s)
  }

  ghost predicate Inv(s: State) {
    Safe(s) && Files(s) && Owners(s) && Services(s) && TakeInv(s) && ReleaseInv(s) && TickInv(s)
  }

  // ---- Writes by name ------------------------------------------------------------------------------------

  lemma WrittenFacts(services: map<Sid, Service>, name: Name, dns: DnsList, ours: Option<Addr>)
    requires NamesUnique(services)
    ensures var after := Written(services, name, dns, ours);
            after.Keys == services.Keys && NamesUnique(after)
            && (forall sid | sid in services && services[sid].name != name :: after[sid] == services[sid])
            && (forall sid | sid in services && services[sid].name == name ::
                  after[sid].dns == dns && after[sid].ours == ours)
  {
  }

  /** Pointing a service at an address of the backup's history, or giving it a list that is not ours, is safe. */
  lemma WriteKeepsSafe(s: State, t: State, name: Name, dns: DnsList, ours: Option<Addr>)
    requires Safe(s) && NamesUnique(s.services) && t.services == Written(s.services, name, dns, ours)
    requires t.backup == s.backup && t.loaded == s.loaded && t.marker == s.marker
    requires ours.Some? ==> dns == [Plain(ours.value)] && s.loaded && Remembered(s, ours.value)
    ensures Safe(t)
  {
    WrittenFacts(s.services, name, dns, ours);
    forall sid | sid in t.services && t.services[sid].ours.Some? ensures Recoverable(t, sid) {
      if s.services[sid].name != name {
        assert Recoverable(s, sid);
      }
    }
  }

  lemma SameServicesSafe(s: State, t: State)
    requires Safe(s) && t.services == s.services && t.backup == s.backup && t.loaded == s.loaded && t.marker == s.marker
    ensures Safe(t)
  {
    forall sid | sid in t.services && t.services[sid].ours.Some? ensures Recoverable(t, sid) {
      assert Recoverable(s, sid);
    }
  }

  /** Another command, in the middle of whatever section. */
  lemma CommandInv(s: State, command: Command, t: State)
    requires Inv(s) && t == s.(command := command) && Owners(t)
    ensures Inv(t)
  {
    SameServicesSafe(s, t);
  }

  /** A section begins, or a watchdog cycle ends. */
  lemma EnterInv(s: State, t: State)
    requires Inv(s) && t == s.(section := t.section, command := t.command) && Owners(t)
    requires s.section.Free? || OfDaemon(s.section)
    requires t.section.Free? || t.section.TakeList? || t.section.ReleaseMark? || t.section.TickList?
    ensures Inv(t)
  {
    SameServicesSafe(s, t);
  }

  /** With nothing of ours about, neither the backup nor the job is needed. */
  lemma NothingOursIsSafe(t: State)
    requires OursAmong(t.services, {}) && (t.marker ==> t.backup.Some?)
    ensures Safe(t)
  {
  }

  lemma NoBackupNothingOurs(s: State)
    requires Safe(s) && s.backup.None?
    ensures OursAmong(s.services, {})
  {
    forall sid | sid in s.services ensures s.services[sid].ours.None? {
      assert s.services[sid].ours.Some? ==> Recoverable(s, sid);
    }
  }

  lemma SidsOfSplit(names: seq<Listed>, k: nat)
    requires k < |names|
    ensures SidsOf(names[..k + 1]) == SidsOf(names[..k]) + {names[k].sid}
    ensures SidsOf(names[k..]) == {names[k].sid} + SidsOf(names[k + 1..])
  {
    assert names[..k + 1] == names[..k] + [names[k]];
    assert names[k..] == [names[k]] + names[k + 1..];
    SidsOfConcat(names[..k], [names[k]]);
    SidsOfConcat([names[k]], names[k + 1..]);
  }

  lemma SidsOfConcat(a: seq<Listed>, b: seq<Listed>)
    ensures SidsOf(a + b) == SidsOf(a) + SidsOf(b)
  {
    forall x | x in SidsOf(b) ensures x in SidsOf(a + b) {
      var k :| 0 <= k < |b| && b[k].sid == x;
      assert (a + b)[|a| + k].sid == x;
    }
    forall x | x in SidsOf(a) ensures x in SidsOf(a + b) {
      var k :| 0 <= k < |a| && a[k].sid == x;
      assert (a + b)[k].sid == x;
    }
  }

  lemma ListingFacts(services: map<Sid, Service>, all: bool, names: seq<Listed>)
    requires NamesUnique(services) && IsListing(services, all, names)
    ensures DistinctNames(names)
    ensures all ==> OursAmong(services, SidsOf(names))
  {
    forall sid | all && sid in services ensures sid in SidsOf(names) {
      var k :| 0 <= k < |names| && names[k] == Listed(services[sid].name, sid);
      assert names[k].sid in SidsOf(names);
    }
  }

  // ---- Taking over ------------------------------------------------------------------------------------------

  lemma ListForTakeInv(s: State, ok: bool, server: Addr, names: seq<Listed>, t: State)
    requires Inv(s) && s.section == TakeList(server) && t == ListForTake(s, ok, server, names)
    requires ok ==> IsListing(s.services, false, names)
    ensures Inv(t)
  {
    SameServicesSafe(s, t);
    if ok {
      ListingFacts(s.services, false, names);
    }
  }

  lemma ReadForTakeInv(s: State, ok: bool, server: Addr, listed: seq<Listed>, saved: seq<Saved>, t: State)
    requires Inv(s) && s.section == TakeRead(server, listed, saved)
    requires ok && |saved| < |listed| ==> Exists(s.services, listed[|saved|].name)
    requires t == ReadForTake(s, ok, server, listed, saved)
    ensures Inv(t)
  {
    NoBackupNothingOurs(s);
    NothingOursIsSafe(t);
  }

  /** The line of a switched service joins the lines that carry our list. */
  lemma SwitchedAmong(services: map<Sid, Service>, listed: seq<Listed>, k: nat, name: Name, server: Addr)
    requires NamesUnique(services) && k < |listed| && Exists(services, name)
    requires OursAmong(services, SidsOf(listed[..k]))
    ensures var reached := listed[k := Listed(name, HolderOf(services, name))];
            OursAmong(Written(services, name, [Plain(server)], Some(server)), SidsOf(reached[..k + 1]))
  {
    var reached := listed[k := Listed(name, HolderOf(services, name))];
    WrittenFacts(services, name, [Plain(server)], Some(server));
    SidsOfSplit(reached, k);
    assert reached[..k] == listed[..k];
  }

  /** Switching one more service: the backup names its address, and its line records whom the write reached. */
  lemma SwitchLineInv(s: State, server: Addr, listed: seq<Listed>, k: nat, t: State)
    requires Inv(s) && s.section == TakeSet(server, listed, k) && k < |listed| && Exists(s.services, listed[k].name)
    requires t == SwitchLine(s, server, listed, k)
    ensures Inv(t)
  {
    var name := listed[k].name;
    WrittenFacts(s.services, name, [Plain(server)], Some(server));
    WriteKeepsSafe(s, t, name, [Plain(server)], Some(server));
    SwitchedAmong(s.services, listed, k, name, server);
  }

  lemma SetForTakeInv(s: State, ok: bool, server: Addr, listed: seq<Listed>, k: nat, t: State)
    requires Inv(s) && s.section == TakeSet(server, listed, k)
    requires ok && k < |listed| ==> Exists(s.services, listed[k].name)
    requires t == SetForTake(s, ok, server, listed, k)
    ensures Inv(t)
  {
    if ok && k < |listed| {
      SwitchLineInv(s, server, listed, k, t);
    } else {
      SameServicesSafe(s, t);
    }
  }

  /** Undoing a line leaves nothing of ours behind, save what the line's name passed by. */
  lemma UndoLineInv(s: State, server: Addr, listed: seq<Listed>, k: nat, fine: bool, t: State)
    requires Inv(s) && s.section == TakeUndo(server, listed, k + 1, fine) && k < |listed|
    requires t == UndoLine(s, server, listed, k, fine)
    ensures Inv(t)
  {
    var servers := s.backup.value.services[k].servers;
    WrittenFacts(s.services, listed[k].name, servers, None);
    WriteKeepsSafe(s, t, listed[k].name, servers, None);
    SidsOfSplit(listed, k);
  }

  lemma UndoForTakeInv(s: State, ok: bool, server: Addr, listed: seq<Listed>, k: nat, fine: bool, t: State)
    requires Inv(s) && s.section == TakeUndo(server, listed, k, fine)
    requires t == UndoForTake(s, ok, server, listed, k, fine)
    ensures Inv(t)
  {
    if k > 0 && ok {
      UndoLineInv(s, server, listed, k - 1, fine, t);
    } else {
      SameServicesSafe(s, t);
      assert listed[..0] == [] && SidsOf([]) == {};
    }
  }

  lemma DropInv(s: State, dropped: State, t: State)
    requires Inv(s) && (s.section.TakeDrop? || s.section.RestoreDrop?) && s.misread == {}
    requires dropped == s.(backup := None)
    requires t == if s.section.TakeDrop? then EndTake(dropped, false) else EndRelease(dropped, true)
    ensures Inv(t)
  {
    NothingOursIsSafe(t);
  }

  lemma TakeStepInv(s: State, ok: bool, names: seq<Listed>, t: State)
    requires Inv(s) && OfTake(s.section) && (ok ==> CallsCanWork(s, names)) && t == TakeStep(s, ok, names)
    requires !Escapes(s, SectionSteps(ok, names))
    ensures Inv(t)
  {
    match s.section
    case TakeList(server) => ListForTakeInv(s, ok, server, names, t);
    case TakeRead(server, listed, saved) => ReadForTakeInv(s, ok, server, listed, saved, t);
    case TakeSet(server, listed, k) => SetForTakeInv(s, ok, server, listed, k, t);
    case TakeUndo(server, listed, k, fine) => UndoForTakeInv(s, ok, server, listed, k, fine, t);
    case TakeDrop(_) =>
      if ok {
        DropInv(s, s.(backup := None), t);
      } else {
        SameServicesSafe(s, t);
      }
    case TakeMark(_) => MarkInv(s, ok, t);
  }

  lemma MarkInv(s: State, ok: bool, t: State)
    requires Inv(s) && s.section.TakeMark? && t == EndTake(if ok then s.(marker := true) else s, ok)
    ensures Inv(t)
  {
    forall sid | sid in t.services && t.services[sid].ours.Some? ensures Recoverable(t, sid) {
      assert Recoverable(s, sid);
    }
  }

  // ---- Releasing ---------------------------------------------------------------------------------------------

  lemma UnmarkInv(s: State, ok: bool, t: State)
    requires Inv(s) && s.section.ReleaseMark? && t == Unmark(s, ok)
    ensures Inv(t)
  {
    if s.backup.Some? && ok {
      UnmarkedInv(s, t);
    } else {
      SameServicesSafe(s, t);
    }
  }

  lemma UnmarkedInv(s: State, t: State)
    requires Inv(s) && s.section.ReleaseMark? && s.backup.Some? && t == s.(marker := false, section := RestoreList)
    ensures Inv(t)
  {
    forall sid | sid in t.services && t.services[sid].ours.Some? ensures Recoverable(t, sid) {
      assert Recoverable(s, sid);
    }
  }

  lemma OrphanInv(s: State, ok: bool, t: State)
    requires Inv(s) && s.section.ReleaseOrphan?
    requires t == if ok then EndRelease(s.(marker := false), true) else EndRelease(s, false)
    ensures Inv(t)
  {
    NoBackupNothingOurs(s);
    NothingOursIsSafe(t);
  }

  lemma ListForRestoreInv(s: State, ok: bool, names: seq<Listed>, t: State)
    requires Inv(s) && s.section.RestoreList?
    requires t == if ok then s.(section := RestoreSet(names, 0, true)) else EndRelease(s, false)
    ensures Inv(t)
  {
    SameServicesSafe(s, t);
  }

  lemma PutBackInv(s: State, ok: bool, listed: seq<Listed>, k: nat, fine: bool, t: State)
    requires Inv(s) && s.section == RestoreSet(listed, k, fine) && t == PutBackLine(s, ok, listed, k, fine)
    ensures Inv(t)
  {
    var services := s.backup.value.services;
    if k < |services| && IsListed(listed, services[k].name) && ok {
      PutBackWritten(s, listed, k, fine, services[k], t);
    } else {
      SameServicesSafe(s, t);
    }
  }

  lemma PutBackWritten(s: State, listed: seq<Listed>, k: nat, fine: bool, saved: Saved, t: State)
    requires Inv(s) && s.section == RestoreSet(listed, k, fine)
    requires t == s.(services := Written(s.services, saved.name, saved.servers, None),
                     section := RestoreSet(listed, k + 1, fine))
    ensures Inv(t)
  {
    WrittenFacts(s.services, saved.name, saved.servers, None);
    WriteKeepsSafe(s, t, saved.name, saved.servers, None);
  }

  lemma RelistInv(s: State, ok: bool, names: seq<Listed>, fine: bool, t: State)
    requires Inv(s) && s.section == RestoreRelist(fine) && (ok ==> IsListing(s.services, true, names))
    requires t == if ok then s.(section := RestoreVerify(names, 0, fine), misread := {}) else EndRelease(s, false)
    ensures Inv(t)
  {
    SameServicesSafe(s, t);
    if ok {
      ListingFacts(s.services, true, names);
      assert names[0..] == names;
    }
  }

  lemma OursIsSeen(s: State, sid: Sid)
    requires Safe(s) && sid in s.services && s.services[sid].ours.Some?
    ensures s.backup.Some? && s.backup.value.history.Some?
    ensures Uses(s.services[sid].dns, s.backup.value.history.value)
  {
    assert Recoverable(s, sid);
    assert s.services[sid].dns[0] == Plain(s.services[sid].ours.value);
  }

  /** A line that was read clean is not ours, or its name passed its service by. */
  lemma CleanLine(s: State, names: seq<Listed>, k: nat)
    requires Safe(s) && NamesUnique(s.services) && k < |names| && Exists(s.services, names[k].name)
    requires s.section.RestoreVerify? && s.section.names == names && s.section.k == k && ReadsClean(s, names[k].name)
    requires OursAmong(s.services, SidsOf(names[k..]) + s.misread)
    ensures OursAmong(s.services, SidsOf(names[k + 1..]) + s.misread + PassedBy(s))
  {
    SidsOfSplit(names, k);
    var sid := HolderOf(s.services, names[k].name);
    if s.services[sid].ours.Some? {
      OursIsSeen(s, sid);
    }
  }

  lemma VerifyLineInv(s: State, ok: bool, names: seq<Listed>, k: nat, fine: bool, t: State)
    requires Inv(s) && s.section == RestoreVerify(names, k, fine)
    requires ok && k < |names| ==> Exists(s.services, names[k].name)
    requires t == VerifyLine(s, ok, names, k, fine)
    ensures Inv(t)
  {
    SameServicesSafe(s, t);
    if k >= |names| {
      assert names[k..] == [] && SidsOf([]) == {};
    } else if ok && fine && ReadsClean(s, names[k].name) {
      CleanLine(s, names, k);
    }
  }

  lemma ReleaseStepInv(s: State, ok: bool, names: seq<Listed>, t: State)
    requires Inv(s) && s.command.Stopping? && (ok ==> CallsCanWork(s, names)) && t == ReleaseStep(s, ok, names)
    requires !Escapes(s, SectionSteps(ok, names))
    ensures Inv(t)
  {
    match s.section
    case ReleaseMark => UnmarkInv(s, ok, t);
    case ReleaseOrphan => OrphanInv(s, ok, t);
    case RestoreList => ListForRestoreInv(s, ok, names, t);
    case RestoreSet(listed, k, fine) => PutBackInv(s, ok, listed, k, fine, t);
    case RestoreRelist(fine) => RelistInv(s, ok, names, fine, t);
    case RestoreVerify(listed, k, fine) => VerifyLineInv(s, ok, listed, k, fine, t);
    case RestoreDrop =>
      if ok {
        DropInv(s, s.(backup := None), t);
      } else {
        SameServicesSafe(s, t);
      }
  }

  // ---- Keeping watch -----------------------------------------------------------------------------------------

  lemma ListForTickInv(s: State, ok: bool, server: Addr, names: seq<Listed>, t: State)
    requires Inv(s) && s.section == TickList(server) && t == ListForTick(s, ok, server, names)
    ensures Inv(t)
  {
    SameServicesSafe(s, t);
  }

  lemma LongerHistoryIsSafe(s: State, later: Backup, t: State)
    requires Safe(s) && s.backup.Some? && Extends(s.backup.value, later) && t.backup == Some(later)
    requires t.services == s.services && t.loaded == s.loaded && t.marker == s.marker
    ensures Safe(t)
  {
    forall sid | sid in s.services && s.services[sid].ours.Some? ensures Recoverable(t, sid) {
      assert Recoverable(s, sid);
    }
  }

  lemma BackupGrowsInv(s: State, later: Backup, server: Addr, t: State)
    requires Inv(s) && s.section.TickRead? && s.backup.Some? && Extends(s.backup.value, later)
    requires UniqueNames(later.services) && later.history.Some? && server in later.history.value
    requires t == s.(backup := Some(later), section := TickDrift(server, [], 0))
    ensures Inv(t)
  {
    LongerHistoryIsSafe(s, later, t);
  }

  /** The watchdog's backup names its address before it touches a service, and forgets nothing. */
  lemma PrepareTickInv(s: State, ok: bool, server: Addr, found: seq<Saved>, t: State)
    requires Inv(s) && s.section.TickRead? && s.backup.Some? && t == PrepareTick(s, ok, server, found)
    ensures Inv(t)
  {
    var grown := Grown(s.backup.value, found, server, s.loopback);
    if grown.Some? && (ok || Remembering(grown.value, server) == s.backup.value) {
      GrownExtends(s.backup.value, found, server, s.loopback);
      BackupGrowsInv(s, Remembering(grown.value, server), server, t);
    } else {
      SameServicesSafe(s, t);
    }
  }

  lemma ScanForTickInv(s: State, ok: bool, server: Addr, listed: seq<Listed>, k: nat, found: seq<Saved>, t: State)
    requires Inv(s) && s.section == TickRead(server, listed, k, found)
    requires ok && k < |listed| ==> Exists(s.services, listed[k].name)
    requires t == ScanForTick(s, ok, server, listed, k, found)
    ensures Inv(t)
  {
    if s.backup.Some? && k >= |listed| {
      PrepareTickInv(s, ok, server, found, t);
    } else {
      SameServicesSafe(s, t);
    }
  }

  lemma DriftForTickInv(s: State, ok: bool, server: Addr, drifted: seq<Name>, k: nat, t: State)
    requires Inv(s) && s.section == TickDrift(server, drifted, k) && t == DriftForTick(s, ok, server, drifted, k)
    ensures Inv(t)
  {
    SameServicesSafe(s, t);
  }

  lemma SetForTickInv(s: State, ok: bool, server: Addr, drifted: seq<Name>, k: nat, t: State)
    requires Inv(s) && s.section == TickSet(server, drifted, k) && t == SetForTick(s, ok, server, drifted, k)
    ensures Inv(t)
  {
    if ok && k < |drifted| {
      WrittenFacts(s.services, drifted[k], [Plain(server)], Some(server));
      WriteKeepsSafe(s, t, drifted[k], [Plain(server)], Some(server));
    } else {
      SameServicesSafe(s, t);
    }
  }

  lemma TickStepInv(s: State, ok: bool, names: seq<Listed>, t: State)
    requires Inv(s) && OfDaemon(s.section) && (ok ==> CallsCanWork(s, names)) && t == TickStep(s, ok, names)
    ensures Inv(t)
  {
    match s.section
    case TickList(server) => ListForTickInv(s, ok, server, names, t);
    case TickRead(server, listed, k, found) => ScanForTickInv(s, ok, server, listed, k, found, t);
    case TickDrift(server, drifted, k) => DriftForTickInv(s, ok, server, drifted, k, t);
    case TickSet(server, drifted, k) => SetForTickInv(s, ok, server, drifted, k, t);
  }

  // ---- Commands, crashes and everyone else ---------------------------------------------------------------------

  lemma UnloadInv(s: State, t: State)
    requires Inv(s) && (s.command.StartCleaning? || s.command.StopUnloading?) && t == Unloaded(s)
    ensures Inv(t)
  {
    NoBackupNothingOurs(s);
    NothingOursIsSafe(t);
  }

  lemma LoadInv(s: State, server: Addr, t: State)
    requires Inv(s) && s.command == StartLoading(server) && t == s.(loaded := true, command := StartProbing(server))
    ensures Inv(t)
  {
    NoBackupNothingOurs(s);
    NothingOursIsSafe(t);
  }

  /** Commands load before they take over, and unload only when nothing is left to restore. */
  lemma CommandStepInv(s: State, ok: bool, t: State)
    requires Inv(s) && Enabled(s, CommandSteps(ok)) && t == CommandStep(s, ok)
    ensures Inv(t)
  {
    if ok && (s.command.StartCleaning? || s.command.StopUnloading?) {
      UnloadInv(s, t);
    } else if ok && s.command.StartLoading? {
      LoadInv(s, s.command.server, t);
    } else if ok && (s.command.StartWaiting? || s.command.StopWaiting?) {
      EnterInv(s, t);
    } else {
      CommandInv(s, t.command, t);
    }
  }

  lemma DiesInv(s: State, t: State)
    requires Inv(s) && !OfDaemon(s.section) && t == s.(command := NoCommand, section := Free, misread := {})
    ensures Inv(t)
  {
    SameServicesSafe(s, t);
  }

  lemma ProcessInv(s: State, e: Event, t: State)
    requires Inv(s) && Enabled(s, e) && t == Step(s, e)
    requires e.StartBegins? || e.StopBegins? || e.TickBegins? || e.CommandDies? || e.DaemonDies?
    ensures Inv(t)
  {
    if e.TickBegins? || (e.DaemonDies? && OfDaemon(s.section)) {
      EnterInv(s, t);
    } else if e.CommandDies? && !OfDaemon(s.section) {
      DiesInv(s, t);
    } else {
      CommandInv(s, t.command, t);
    }
  }

  /** Whatever else happens to the services makes none of them ours. */
  lemma WorldChange(s: State, services: map<Sid, Service>, used: set<Sid>, t: State)
    requires Inv(s) && NamesUnique(services) && services.Keys <= used && t == Changed(s.(used := used), services)
    requires forall sid | sid in services && services[sid].ours.Some? ::
               sid in s.services && services[sid].ours == s.services[sid].ours
               && services[sid].dns == s.services[sid].dns
    ensures Inv(t)
  {
    forall sid | sid in t.services && t.services[sid].ours.Some? ensures Recoverable(t, sid) {
      assert Recoverable(s, sid);
    }
  }

  lemma AppearsInv(s: State, sid: Sid, service: Service, t: State)
    requires Inv(s) && Enabled(s, Appears(sid, service)) && t == Step(s, Appears(sid, service))
    ensures Inv(t)
  {
    WorldChange(s, s.services[sid := service], s.used + {sid}, t);
  }

  lemma RenamedInv(s: State, sid: Sid, name: Name, t: State)
    requires Inv(s) && Enabled(s, Renamed(sid, name)) && t == Step(s, Renamed(sid, name))
    ensures Inv(t)
  {
    WorldChange(s, s.services[sid := s.services[sid].(name := name)], s.used, t);
  }

  lemma KeptNamesInv(s: State, services: map<Sid, Service>, t: State)
    requires Inv(s) && services.Keys <= s.services.Keys && t == Changed(s, services)
    requires forall x | x in services :: services[x].name == s.services[x].name
                && (services[x].ours.Some? ==>
                      services[x].ours == s.services[x].ours && services[x].dns == s.services[x].dns)
    ensures Inv(t)
  {
    WorldChange(s, services, s.used, t);
  }

  lemma RewrittenInv(s: State, sid: Sid, dns: DnsList, t: State)
    requires Inv(s) && Enabled(s, Rewritten(sid, dns)) && t == Step(s, Rewritten(sid, dns))
    ensures Inv(t)
  {
    KeptNamesInv(s, s.services[sid := s.services[sid].(dns := dns, ours := None)], t);
  }

  lemma ToggledInv(s: State, sid: Sid, t: State)
    requires Inv(s) && Enabled(s, Toggled(sid)) && t == Step(s, Toggled(sid))
    ensures Inv(t)
  {
    KeptNamesInv(s, s.services[sid := s.services[sid].(enabled := !s.services[sid].enabled)], t);
  }

  lemma ServicesInv(s: State, e: Event, t: State)
    requires Inv(s) && Enabled(s, e) && t == Step(s, e)
    requires e.Appears? || e.Vanishes? || e.Renamed? || e.Rewritten? || e.Toggled?
    ensures Inv(t)
  {
    match e
    case Appears(sid, service) => AppearsInv(s, sid, service, t);
    case Renamed(sid, name) => RenamedInv(s, sid, name, t);
    case Vanishes(sid) => KeptNamesInv(s, s.services - {sid}, t);
    case Rewritten(sid, dns) => RewrittenInv(s, sid, dns, t);
    case Toggled(sid) => ToggledInv(s, sid, t);
  }

  lemma SectionInv(s: State, ok: bool, names: seq<Listed>, t: State)
    requires Inv(s) && !s.section.Free? && (ok ==> CallsCanWork(s, names)) && t == SectionStep(s, ok, names)
    requires !Escapes(s, SectionSteps(ok, names))
    ensures Inv(t)
  {
    if OfTake(s.section) {
      TakeStepInv(s, ok, names, t);
    } else if OfDaemon(s.section) {
      TickStepInv(s, ok, names, t);
    } else {
      ReleaseStepInv(s, ok, names, t);
    }
  }

  lemma StepInv(s: State, e: Event, t: State)
    requires Inv(s) && Enabled(s, e) && t == Step(s, e) && !Escapes(s, e)
    ensures Inv(t)
  {
    if e.CommandSteps? {
      CommandStepInv(s, e.ok, t);
    } else if e.SectionSteps? {
      SectionInv(s, e.ok, e.names, t);
    } else if e.Appears? || e.Vanishes? || e.Renamed? || e.Rewritten? || e.Toggled? {
      ServicesInv(s, e, t);
    } else {
      ProcessInv(s, e, t);
    }
  }

  // ---- Whole runs --------------------------------------------------------------------------------------------------

  lemma UntouchedInv(s: State)
    requires Untouched(s)
    ensures Inv(s)
  {
    NothingOursIsSafe(s);
  }

  /** No backup is dropped over a service that was passed by. */
  ghost predicate NoEscape(s: State, run: seq<Event>)
    requires Legal(s, run)
    decreases |run|
  {
    run == [] || (!Escapes(s, run[0]) && NoEscape(Step(s, run[0]), run[1..]))
  }

  ghost predicate AlwaysSafe(s: State, run: seq<Event>)
    requires Legal(s, run)
    decreases |run|
  {
    Safe(s) && (run != [] ==> AlwaysSafe(Step(s, run[0]), run[1..]))
  }

  lemma {:induction false} RunInv(s: State, run: seq<Event>)
    requires Inv(s) && Legal(s, run) && NoEscape(s, run)
    ensures Inv(Final(s, run))
    decreases |run|
  {
    if run != [] {
      StepInv(s, run[0], Step(s, run[0]));
      RunInv(Step(s, run[0]), run[1..]);
    }
  }

  /** Dropping the backup over a passed-by service strands it. */
  lemma EscapesStrand(s: State, e: Event, t: State)
    requires Inv(s) && Enabled(s, e) && Escapes(s, e) && t == Step(s, e)
    ensures !Safe(t) && t.backup.None? && exists sid :: sid in t.services && t.services[sid].ours.Some?
  {
    var sid :| sid in s.misread;
    assert t.services == s.services && t.backup.None?;
    assert !Recoverable(t, sid);
  }

  /**
   * However commands, ticks, crashes, renames and other programs interleave, the takeover is safe throughout exactly
   * when no backup is dropped over a service that still carries our list and that the check before it passed by.
   */
  lemma {:induction false} SafeExactlyWithoutEscape(s: State, run: seq<Event>)
    requires Inv(s) && Legal(s, run)
    ensures AlwaysSafe(s, run) <==> NoEscape(s, run)
    decreases |run|
  {
    if run != [] {
      var t := Step(s, run[0]);
      if Escapes(s, run[0]) {
        EscapesStrand(s, run[0], t);
      } else {
        StepInv(s, run[0], t);
        SafeExactlyWithoutEscape(t, run[1..]);
      }
    }
  }

  // ---- When nothing can be passed by ----------------------------------------------------------------

  /** When a line is read or undone, its name is held by the listed service or by nobody. */
  ghost predicate LineHolds(s: State, e: Event) {
    e.SectionSteps? && e.ok && CheckedLine(s.section).Some? && Exists(s.services, CheckedLine(s.section).value.name) ==>
      HolderOf(s.services, CheckedLine(s.section).value.name) == CheckedLine(s.section).value.sid
  }

  ghost predicate LinesHold(s: State, run: seq<Event>)
    requires Legal(s, run)
    decreases |run|
  {
    run == [] || (LineHolds(s, run[0]) && LinesHold(Step(s, run[0]), run[1..]))
  }

  lemma HeldLineIsNotPassed(s: State, e: Event)
    requires Inv(s) && Enabled(s, e) && LineHolds(s, e) && s.misread == {}
    ensures Step(s, e).misread == {}
  {
    if e.SectionSteps? && e.ok && CheckedLine(s.section).Some? {
      assert Exists(s.services, CheckedLine(s.section).value.name);
    }
  }

  /** Renames and new services that leave the lines still to be checked alone do no harm. */
  lemma {:induction false} HeldLinesNeverEscape(s: State, run: seq<Event>)
    requires Inv(s) && Legal(s, run) && LinesHold(s, run) && s.misread == {}
    ensures NoEscape(s, run)
    decreases |run|
  {
    if run != [] {
      StepInv(s, run[0], Step(s, run[0]));
      HeldLineIsNotPassed(s, run[0]);
      HeldLinesNeverEscape(Step(s, run[0]), run[1..]);
    }
  }

  /**
   * From an untouched machine: in a run without escapes, and so whenever every line read or undone has its name held by
   * its service or by nobody, a service that still carries a list DNSRivet wrote can be restored, and until then the
   * proxy stays loaded; the marker never outlives the backup.
   */
  lemma EveryRunIsRecoverable(s: State, run: seq<Event>, sid: Sid)
    requires Untouched(s) && Legal(s, run)
    ensures AlwaysSafe(s, run) <==> NoEscape(s, run)
    ensures LinesHold(s, run) ==> NoEscape(s, run)
    ensures NoEscape(s, run) ==>
              var t := Final(s, run);
              (t.marker ==> t.backup.Some?)
              && (sid in t.services && t.services[sid].ours.Some? ==>
                    t.loaded && t.backup.Some? && t.backup.value.history.Some?
                    && t.services[sid].ours.value in t.backup.value.history.value)
  {
    UntouchedInv(s);
    SafeExactlyWithoutEscape(s, run);
    if LinesHold(s, run) {
      HeldLinesNeverEscape(s, run);
    }
    if NoEscape(s, run) {
      RunInv(s, run);
      var t := Final(s, run);
      assert sid in t.services && t.services[sid].ours.Some? ==> Recoverable(t, sid);
    }
  }

  // ---- What is passed by stays passed by ------------------------------------------------------------

  /** The event neither rewrites nor removes the service, and the check goes on to the end. */
  ghost predicate Spares(s: State, e: Event, sid: Sid)
    requires Enabled(s, e)
  {
    e != Vanishes(sid) && !(e.Rewritten? && e.sid == sid) && Checking(Step(s, e).section)
    && (e.SectionSteps? && e.ok && s.section.TakeUndo? && CheckedLine(s.section).Some? && sid in s.services ==>
          CheckedLine(s.section).value.name != s.services[sid].name)
  }

  ghost predicate AlwaysSpared(s: State, run: seq<Event>, sid: Sid)
    requires Legal(s, run)
    decreases |run|
  {
    run == [] || (Spares(s, run[0], sid) && AlwaysSpared(Step(s, run[0]), run[1..], sid))
  }

  lemma UndoSpares(s: State, e: Event, sid: Sid, t: State)
    requires Inv(s) && Enabled(s, e) && Spares(s, e, sid) && e.SectionSteps? && s.section.TakeUndo? && t == Step(s, e)
    requires sid in s.misread + PassedNow(s, e)
    ensures sid in t.misread
  {
    var section := s.section;
    assert t == UndoForTake(s, e.ok, section.server, section.names, section.k, section.ok);
  }

  lemma VerifySpares(s: State, e: Event, sid: Sid, t: State)
    requires Inv(s) && Enabled(s, e) && Spares(s, e, sid)
    requires e.SectionSteps? && s.section.RestoreVerify? && t == Step(s, e)
    requires sid in s.misread + PassedNow(s, e)
    ensures sid in t.misread
  {
    var section := s.section;
    assert t == VerifyLine(s, e.ok, section.names, section.k, section.ok);
  }

  lemma OthersSpare(s: State, e: Event, sid: Sid, t: State)
    requires Inv(s) && Enabled(s, e) && Spares(s, e, sid) && !e.SectionSteps? && t == Step(s, e) && Checking(s.section)
    requires sid in s.misread
    ensures sid in t.misread
  {
  }

  lemma SparedStaysMisread(s: State, e: Event, sid: Sid, t: State)
    requires Inv(s) && Enabled(s, e) && Spares(s, e, sid) && Checking(s.section) && sid in s.misread + PassedNow(s, e)
    requires t == Step(s, e)
    ensures sid in t.misread
  {
    if !e.SectionSteps? {
      OthersSpare(s, e, sid, t);
    } else if s.section.TakeUndo? {
      UndoSpares(s, e, sid, t);
    } else if s.section.RestoreVerify? {
      VerifySpares(s, e, sid, t);
    }
  }

  /** What this event passes by: a call that works on the name of a line whose service has another name by now. */
  ghost function PassedNow(s: State, e: Event): set<Sid> {
    if e.SectionSteps? && e.ok then PassedBy(s) else {}
  }

  lemma {:induction false} SparedToTheEnd(s: State, run: seq<Event>, sid: Sid)
    requires Inv(s) && Legal(s, run) && Checking(s.section) && sid in s.misread && AlwaysSpared(s, run, sid)
    ensures Inv(Final(s, run)) && sid in Final(s, run).misread && Checking(Final(s, run).section)
    decreases |run|
  {
    if run != [] {
      SparedStaysMisread(s, run[0], sid, Step(s, run[0]));
      CheckingDropsNothing(s, run[0]);
      StepInv(s, run[0], Step(s, run[0]));
      SparedToTheEnd(Step(s, run[0]), run[1..], sid);
    }
  }

  lemma CheckingDropsNothing(s: State, e: Event)
    requires Enabled(s, e) && Checking(Step(s, e).section)
    ensures !Escapes(s, e)
  {
  }

  /**
   * A call on the name of a line whose service still carries our list under another name, with no later rewrite or
   * removal of that service, ends in an unsafe drop if it ends in a drop at all.
   */
  lemma PassingByEscapes(s: State, e: Event, rest: seq<Event>, drop: Event, sid: Sid)
    requires Inv(s) && Checking(s.section) && Enabled(s, e) && sid in PassedNow(s, e) && Spares(s, e, sid)
    requires Legal(Step(s, e), rest) && AlwaysSpared(Step(s, e), rest, sid)
    requires var last := Final(Step(s, e), rest);
             Enabled(last, drop) && drop.SectionSteps? && drop.ok &&
             (last.section.TakeDrop? || last.section.RestoreDrop?)
    ensures var t := Step(Final(Step(s, e), rest), drop);
            t.backup.None? && sid in t.services && t.services[sid].ours.Some? && !Safe(t)
  {
    SparedStaysMisread(s, e, sid, Step(s, e));
    CheckingDropsNothing(s, e);
    StepInv(s, e, Step(s, e));
    SparedToTheEnd(Step(s, e), rest, sid);
    var last := Final(Step(s, e), rest);
    EscapesStrand(last, drop, Step(last, drop));
  }

  // ---- The backup -----------------------------------------------------------------------------------

  lemma PrepareExtends(s: State, ok: bool, server: Addr, found: seq<Saved>, t: State)
    requires Files(s) && s.backup.Some? && t == PrepareTick(s, ok, server, found)
    ensures t.backup.Some? && Extends(s.backup.value, t.backup.value)
  {
    if Grown(s.backup.value, found, server, s.loopback).Some? {
      GrownExtends(s.backup.value, found, server, s.loopback);
    }
  }

  lemma TakeKeepsBackup(s: State, ok: bool, names: seq<Listed>, t: State)
    requires (ok ==> CallsCanWork(s, names)) && !s.section.TakeRead? && t == TakeStep(s, ok, names)
    ensures t.backup == s.backup || t.backup.None?
  {
  }

  lemma ReleaseKeepsBackup(s: State, ok: bool, names: seq<Listed>, t: State)
    requires (ok ==> CallsCanWork(s, names)) && t == ReleaseStep(s, ok, names)
    ensures t.backup == s.backup || t.backup.None?
  {
  }

  lemma TickKeepsBackup(s: State, ok: bool, names: seq<Listed>, t: State)
    requires Inv(s) && (ok ==> CallsCanWork(s, names)) && t == TickStep(s, ok, names) && s.backup.Some?
    ensures t.backup.Some? && Extends(s.backup.value, t.backup.value)
  {
    if s.section.TickRead? && s.section.k >= |s.section.names| {
      PrepareExtends(s, ok, s.section.server, s.section.found, t);
    }
  }

  /** A step drops the backup, or keeps every entry and address where it was. */
  lemma StepKeepsBackup(s: State, e: Event, t: State)
    requires Inv(s) && Enabled(s, e) && t == Step(s, e) && s.backup.Some? && t.backup.Some?
    ensures Extends(s.backup.value, t.backup.value)
  {
    if e.SectionSteps? {
      if OfTake(s.section) {
        TakeKeepsBackup(s, e.ok, e.names, t);
      } else if OfDaemon(s.section) {
        TickKeepsBackup(s, e.ok, e.names, t);
      } else {
        ReleaseKeepsBackup(s, e.ok, e.names, t);
      }
    } else {
      OthersKeepBackup(s, e, t);
    }
  }

  lemma OthersKeepBackup(s: State, e: Event, t: State)
    requires Enabled(s, e) && t == Step(s, e) && !e.SectionSteps?
    ensures t.backup == s.backup
  {
  }

  ghost predicate BackupLives(s: State, run: seq<Event>)
    requires Legal(s, run)
    decreases |run|
  {
    s.backup.Some? && (run != [] ==> BackupLives(Step(s, run[0]), run[1..]))
  }

  lemma ExtendsTransitive(a: Backup, b: Backup, c: Backup)
    requires Extends(a, b) && Extends(b, c)
    ensures Extends(a, c)
  {
  }

  /** While the backup lives nothing in it is rewritten: what was saved first is what can be restored last. */
  lemma {:induction false} BackupIsAppendOnly(s: State, run: seq<Event>)
    requires Inv(s) && Legal(s, run) && BackupLives(s, run)
    ensures Final(s, run).backup.Some? && Extends(s.backup.value, Final(s, run).backup.value)
    decreases |run|
  {
    if run != [] {
      var t := Step(s, run[0]);
      LivingBackupNoEscape(s, run[0], t);
      StepInv(s, run[0], t);
      StepKeepsBackup(s, run[0], t);
      BackupIsAppendOnly(t, run[1..]);
      ExtendsTransitive(s.backup.value, t.backup.value, Final(s, run).backup.value);
    }
  }

  lemma LivingBackupNoEscape(s: State, e: Event, t: State)
    requires Enabled(s, e) && t == Step(s, e) && t.backup.Some?
    ensures !Escapes(s, e)
  {
  }
}
