/** A restoration nobody disturbs does, effect by effect, what the sequential one does. */
module TakeoverAlone {
  import opened Prelude
  import opened OsDns
  import opened Takeover
  import opened TakeoverRuns

  /** The settings as they look from outside: each name's list. */
  ghost function Settings(services: map<Sid, Service>): map<Name, DnsList>
    requires NamesUnique(services)
  {
    map sid | sid in services :: services[sid].name := services[sid].dns
  }

  /** The first `k` saved lists are back wherever their services still exist. */
  ghost predicate PutBack(services: map<Sid, Service>, b: Backup, k: nat)
    requires k <= |b.services|
  {
    forall i, sid | 0 <= i < k && sid in services && services[sid].name == b.services[i].name ::
      services[sid].dns == b.services[i].servers
  }

  /** None of the services of the first `k` lines may use the proxy. */
  ghost predicate ReadClean(services: map<Sid, Service>, b: Backup, names: seq<Listed>, k: nat, loopback: Addr -> bool)
    requires k <= |names|
  {
    forall i | 0 <= i < k && names[i].sid in services ::
      !MayDepend(b, names[i].name, services[names[i].sid].dns, loopback)
  }

  /** The same services under the same names, those outside the backup with the same lists. */
  ghost predicate OnlySavedChange(was: map<Sid, Service>, services: map<Sid, Service>, b: Backup) {
    NamesUnique(services) && services.Keys == was.Keys
    && forall sid | sid in was ::
         services[sid].name == was[sid].name
         && (was[sid].name !in NamesOf(b.services) ==> services[sid].dns == was[sid].dns)
  }

  /** Where an undisturbed restoration of `b` stands. */
  ghost predicate Restoring(was: map<Sid, Service>, b: Backup, s: State) {
    s.backup == Some(b) && UniqueNames(b.services) && OnlySavedChange(was, s.services, b)
    && match s.section
       case RestoreList => true
       case RestoreSet(listed, k, fine) =>
         k <= |b.services| && IsListing(s.services, true, listed) && (fine ==> PutBack(s.services, b, k))
       case RestoreRelist(fine) => fine ==> PutBack(s.services, b, |b.services|)
       case RestoreVerify(names, k, fine) =>
         k <= |names| && IsListing(s.services, true, names)
         && (fine ==> PutBack(s.services, b, |b.services|) && ReadClean(s.services, b, names, k, s.loopback))
       case RestoreDrop =>
         PutBack(s.services, b, |b.services|)
         && forall sid | sid in s.services :: !MayDepend(b, s.services[sid].name, s.services[sid].dns, s.loopback)
       case _ => false
  }

  /** The restoration is over: restored and verified if the backup is gone, which otherwise is as it was. */
  ghost predicate Restored(was: map<Sid, Service>, b: Backup, s: State) {
    s.section.Free? && OnlySavedChange(was, s.services, b) && (s.backup.Some? ==> s.backup == Some(b))
    && s.command == (if s.backup.None? then StopUnloading else NoCommand)
    && (s.backup.None? ==>
          PutBack(s.services, b, |b.services|)
          && forall sid | sid in s.services :: !MayDepend(b, s.services[sid].name, s.services[sid].dns, s.loopback))
  }

  ghost predicate RestoringOrDone(was: map<Sid, Service>, b: Backup, s: State) {
    Restoring(was, b, s) || Restored(was, b, s)
  }

  lemma ListingMeans(services: map<Sid, Service>, names: seq<Listed>, name: Name)
    requires IsListing(services, true, names)
    ensures IsListed(names, name) <==> Exists(services, name)
  {
    if Exists(services, name) {
      var sid := HolderOf(services, name);
      var k :| 0 <= k < |names| && names[k] == Listed(name, sid);
      assert names[k].name == name;
    }
  }

  lemma WriteBack(was: map<Sid, Service>, services: map<Sid, Service>, b: Backup, k: nat)
    requires OnlySavedChange(was, services, b) && UniqueNames(b.services) && k < |b.services|
    ensures var after := Written(services, b.services[k].name, b.services[k].servers, None);
            OnlySavedChange(was, after, b) && (PutBack(services, b, k) ==> PutBack(after, b, k + 1))
  {
    WrittenFacts(services, b.services[k].name, b.services[k].servers, None);
    assert b.services[k].name in NamesOf(b.services);
    var after := Written(services, b.services[k].name, b.services[k].servers, None);
    if PutBack(services, b, k) {
      forall i, sid | 0 <= i < k + 1 && sid in after && after[sid].name == b.services[i].name
        ensures after[sid].dns == b.services[i].servers
      {
        if i < k {
          assert b.services[i].name != b.services[k].name;
        }
      }
    }
  }

  lemma StillListing(services: map<Sid, Service>, after: map<Sid, Service>, names: seq<Listed>)
    requires IsListing(services, true, names) && after.Keys == services.Keys
    requires forall sid | sid in services :: after[sid].name == services[sid].name
    ensures IsListing(after, true, names)
  {
  }

  lemma SkippedIsBack(services: map<Sid, Service>, b: Backup, k: nat)
    requires k < |b.services| && !Exists(services, b.services[k].name)
    ensures PutBack(services, b, k) ==> PutBack(services, b, k + 1)
  {
  }

  lemma WrittenBackGoesOn(was: map<Sid, Service>, b: Backup, s: State, listed: seq<Listed>, k: nat, fine: bool,
                          t: State)
    requires Restoring(was, b, s) && s.section == RestoreSet(listed, k, fine) && k < |b.services|
    requires t == s.(services := Written(s.services, b.services[k].name, b.services[k].servers, None),
                     section := RestoreSet(listed, k + 1, fine))
    ensures Restoring(was, b, t)
  {
    WriteBack(was, s.services, b, k);
    StillListing(s.services, t.services, listed);
  }

  lemma PutBackGoesOn(was: map<Sid, Service>, b: Backup, s: State, ok: bool, listed: seq<Listed>, k: nat, fine: bool,
                      t: State)
    requires Restoring(was, b, s) && s.section == RestoreSet(listed, k, fine)
    requires t == PutBackLine(s, ok, listed, k, fine)
    ensures Restoring(was, b, t)
  {
    if k < |b.services| {
      ListingMeans(s.services, listed, b.services[k].name);
      if !IsListed(listed, b.services[k].name) {
        SkippedIsBack(s.services, b, k);
      } else if ok {
        WrittenBackGoesOn(was, b, s, listed, k, fine, t);
      }
    }
  }

  lemma ReadGoesOn(b: Backup, s: State, names: seq<Listed>, k: nat)
    requires NamesUnique(s.services) && IsListing(s.services, true, names) && k < |names| && s.backup == Some(b)
    requires Exists(s.services, names[k].name)
    requires ReadClean(s.services, b, names, k, s.loopback) && ReadsClean(s, names[k].name)
    ensures ReadClean(s.services, b, names, k + 1, s.loopback)
  {
    assert HolderOf(s.services, names[k].name) == names[k].sid;
  }

  lemma AllReadClean(b: Backup, s: State, names: seq<Listed>)
    requires IsListing(s.services, true, names) && ReadClean(s.services, b, names, |names|, s.loopback)
    ensures forall sid | sid in s.services :: !MayDepend(b, s.services[sid].name, s.services[sid].dns, s.loopback)
  {
    forall sid | sid in s.services ensures !MayDepend(b, s.services[sid].name, s.services[sid].dns, s.loopback) {
      var k :| 0 <= k < |names| && names[k] == Listed(s.services[sid].name, sid);
    }
  }

  lemma VerifyGoesOn(was: map<Sid, Service>, b: Backup, s: State, ok: bool, names: seq<Listed>, k: nat, fine: bool,
                     t: State)
    requires Restoring(was, b, s) && s.section == RestoreVerify(names, k, fine)
    requires ok && k < |names| ==> Exists(s.services, names[k].name)
    requires t == VerifyLine(s, ok, names, k, fine)
    ensures RestoringOrDone(was, b, t)
  {
    if k >= |names| {
      if fine {
        AllReadClean(b, s, names);
      }
    } else if ok && fine && ReadsClean(s, names[k].name) {
      ReadGoesOn(b, s, names, k);
    }
  }

  lemma ListGoesOn(was: map<Sid, Service>, b: Backup, s: State, ok: bool, names: seq<Listed>, t: State)
    requires Restoring(was, b, s) && s.section.RestoreList? && (ok ==> IsListing(s.services, true, names))
    requires t == if ok then s.(section := RestoreSet(names, 0, true)) else EndRelease(s, false)
    ensures RestoringOrDone(was, b, t)
  {
  }

  lemma RelistGoesOn(was: map<Sid, Service>, b: Backup, s: State, ok: bool, names: seq<Listed>, fine: bool, t: State)
    requires Restoring(was, b, s) && s.section == RestoreRelist(fine) && (ok ==> IsListing(s.services, true, names))
    requires t == if ok then s.(section := RestoreVerify(names, 0, fine), misread := {}) else EndRelease(s, false)
    ensures RestoringOrDone(was, b, t)
  {
  }

  lemma DropGoesOn(was: map<Sid, Service>, b: Backup, s: State, ok: bool, t: State)
    requires Restoring(was, b, s) && s.section.RestoreDrop?
    requires t == if ok then EndRelease(s.(backup := None), true) else EndRelease(s, false)
    ensures Restored(was, b, t)
  {
  }

  /** One more effect of a restoration that nobody disturbs. */
  lemma GoesOn(was: map<Sid, Service>, b: Backup, s: State, ok: bool, names: seq<Listed>, t: State)
    requires Restoring(was, b, s) && (ok ==> CallsCanWork(s, names)) && t == SectionStep(s, ok, names)
    ensures RestoringOrDone(was, b, t)
  {
    match s.section
    case RestoreSet(listed, k, fine) => PutBackGoesOn(was, b, s, ok, listed, k, fine, t);
    case RestoreVerify(listed, k, fine) => VerifyGoesOn(was, b, s, ok, listed, k, fine, t);
    case RestoreList => ListGoesOn(was, b, s, ok, names, t);
    case RestoreRelist(fine) => RelistGoesOn(was, b, s, ok, names, fine, t);
    case RestoreDrop => DropGoesOn(was, b, s, ok, t);
  }

  ghost predicate Undisturbed(run: seq<Event>) {
    forall i | 0 <= i < |run| :: run[i].SectionSteps?
  }

  // ---- When every call works --------------------------------------------------------------------------------

  ghost predicate Independent(b: Backup, s: State) {
    forall sid | sid in s.services :: !MayDepend(b, s.services[sid].name, s.services[sid].dns, s.loopback)
  }

  /** No call has failed yet: the only thing amiss may be a service that was read as still using the proxy. */
  ghost predicate Thriving(b: Backup, s: State) {
    match s.section
    case RestoreSet(_, _, fine) => fine
    case RestoreRelist(fine) => fine
    case RestoreVerify(names, k, fine) => fine || !Independent(b, s)
    case Free => s.backup.None? || !Independent(b, s)
    case _ => true
  }

  lemma VerifyThrives(was: map<Sid, Service>, b: Backup, s: State, names: seq<Listed>, k: nat, fine: bool, t: State)
    requires Restoring(was, b, s) && Thriving(b, s) && s.section == RestoreVerify(names, k, fine)
    requires k < |names| ==> Exists(s.services, names[k].name)
    requires t == VerifyLine(s, true, names, k, fine)
    ensures Thriving(b, t)
  {
    if k < |names| && !ReadsClean(s, names[k].name) {
      var sid := HolderOf(s.services, names[k].name);
      assert MayDepend(b, s.services[sid].name, s.services[sid].dns, s.loopback);
    }
  }

  lemma Thrives(was: map<Sid, Service>, b: Backup, s: State, names: seq<Listed>, t: State)
    requires Restoring(was, b, s) && Thriving(b, s) && CallsCanWork(s, names) && t == SectionStep(s, true, names)
    ensures Thriving(b, t)
  {
    match s.section
    case RestoreVerify(listed, k, fine) => VerifyThrives(was, b, s, listed, k, fine, t);
    case _ =>
  }

  ghost predicate AllWork(run: seq<Event>) {
    forall i | 0 <= i < |run| :: run[i].SectionSteps? && run[i].ok
  }

  lemma {:induction false} RestoresWell(was: map<Sid, Service>, b: Backup, s: State, run: seq<Event>)
    requires Restoring(was, b, s) && Thriving(b, s) && Legal(s, run) && AllWork(run) && Final(s, run).section.Free?
    ensures Thriving(b, Final(s, run))
    decreases |run|
  {
    if run != [] {
      var t := Step(s, run[0]);
      GoesOn(was, b, s, true, run[0].names, t);
      Thrives(was, b, s, run[0].names, t);
      if t.section.Free? {
        FreeIsTheEnd(t, run[1..]);
      } else {
        RestoresWell(was, b, t, run[1..]);
      }
    }
  }

  lemma FreeIsTheEnd(s: State, run: seq<Event>)
    requires Legal(s, run) && (run != [] ==> run[0].SectionSteps?) && s.section.Free?
    ensures run == []
  {
  }

  lemma {:induction false} RestoresAlone(was: map<Sid, Service>, b: Backup, s: State, run: seq<Event>)
    requires Restoring(was, b, s) && Legal(s, run) && Undisturbed(run) && Final(s, run).section.Free?
    ensures Restored(was, b, Final(s, run))
    decreases |run|
  {
    if run != [] {
      var t := Step(s, run[0]);
      GoesOn(was, b, s, run[0].ok, run[0].names, t);
      if t.section.Free? {
        assert run[1..] != [] ==> !Enabled(t, run[1]);
      } else {
        RestoresAlone(was, b, t, run[1..]);
      }
    }
  }

  lemma SettingsOf(services: map<Sid, Service>, sid: Sid)
    requires NamesUnique(services) && sid in services
    ensures services[sid].name in Settings(services) && Settings(services)[services[sid].name] == services[sid].dns
  {
  }

  lemma OutcomeOf(was: map<Sid, Service>, b: Backup, t: State)
    requires NamesUnique(was) && Restored(was, b, t)
    ensures RestoreOutcome(b, Settings(was), Settings(t.services), t.backup.None?, t.loopback)
  {
    forall n | n in Settings(t.services)
      ensures n in Settings(was) && (n !in NamesOf(b.services) ==> Settings(t.services)[n] == Settings(was)[n])
      ensures t.backup.None? ==> !MayDepend(b, n, Settings(t.services)[n], t.loopback)
    {
      var sid :| sid in t.services && t.services[sid].name == n;
      SettingsOf(t.services, sid);
      SettingsOf(was, sid);
    }
    forall n | n in Settings(was) ensures n in Settings(t.services) {
      var sid :| sid in was && was[sid].name == n;
      SettingsOf(t.services, sid);
    }
    forall i | t.backup.None? && 0 <= i < |b.services| && b.services[i].name in Settings(t.services)
      ensures Settings(t.services)[b.services[i].name] == b.services[i].servers
    {
      var sid :| sid in t.services && t.services[sid].name == b.services[i].name;
      SettingsOf(t.services, sid);
    }
  }

  /**
   * From the first effect of a restoration to the last, with nobody else acting, the outcome is the one RestoreAt
   * promises, the backup being kept as it was on every error. If no call fails, the only error is that some service
   * still uses the proxy.
   */
  lemma AloneAsRestoreAt(s: State, run: seq<Event>, b: Backup)
    requires Inv(s) && s.section.RestoreList? && s.backup == Some(b)
    requires Legal(s, run) && Undisturbed(run) && Final(s, run).section.Free?
    ensures var t := Final(s, run);
            NamesUnique(t.services) && (t.backup.Some? ==> t.backup == s.backup)
            && t.command == (if t.backup.None? then StopUnloading else NoCommand)
            && RestoreOutcome(b, Settings(s.services), Settings(t.services), t.backup.None?, t.loopback)
            && (AllWork(run) ==> (t.backup.None? <==> Independent(b, t)))
  {
    if AllWork(run) {
      RestoresWell(s.services, b, s, run);
    }
    RestoresAlone(s.services, b, s, run);
    OutcomeOf(s.services, b, Final(s, run));
  }
}
