/** Two runs from an untouched machine that strand a service, one through a verification and one through a rollback. */
module TakeoverEscapes {
  import opened Prelude
  import opened OsDns
  import opened Takeover
  import opened TakeoverRuns

  ghost predicate Reaches(s: State, run: seq<Event>, t: State) {
    Legal(s, run) && Final(s, run) == t
  }

  lemma {:induction false} Then(s: State, run: seq<Event>, t: State, e: Event, u: State)
    requires Reaches(s, run, t) && Enabled(t, e) && u == Step(t, e)
    ensures Reaches(s, run + [e], u)
    decreases |run|
  {
    if run == [] {
      assert [e][1..] == [];
    } else {
      Then(Step(s, run[0]), run[1..], t, e, u);
      assert (run + [e])[1..] == run[1..] + [e];
    }
  }

  // ---- Single steps ------------------------------------------------------------------------------------

  lemma HolderIs(services: map<Sid, Service>, name: Name, sid: Sid)
    requires NamesUnique(services) && sid in services && services[sid].name == name
    ensures Exists(services, name) && HolderOf(services, name) == sid && DnsOf(services, name) == services[sid].dns
  {
  }

  /** From an idle machine to the first effect of a takeover. */
  lemma StartsTaking(s: State) returns (run: seq<Event>, t: State)
    requires Untouched(s) && !s.loaded
    ensures t == s.(loaded := true, section := TakeList(1), command := StartTaking) && Reaches(s, run, t)
  {
    run, t := [], s;
    var asked := s.(command := StartChecking(1));
    Then(s, run, t, StartBegins(1), asked);
    run, t := run + [StartBegins(1)], asked;
    var checked := s.(command := StartLoading(1));
    Then(s, run, t, CommandSteps(true), checked);
    run, t := run + [CommandSteps(true)], checked;
    var loaded := s.(loaded := true, command := StartProbing(1));
    Then(s, run, t, CommandSteps(true), loaded);
    run, t := run + [CommandSteps(true)], loaded;
    var probed := loaded.(command := StartWaiting(1));
    Then(s, run, t, CommandSteps(true), probed);
    run, t := run + [CommandSteps(true)], probed;
    var taking := loaded.(section := TakeList(1), command := StartTaking);
    Then(s, run, t, CommandSteps(true), taking);
    run, t := run + [CommandSteps(true)], taking;
  }

  lemma Lists(s: State, run: seq<Event>, t: State, names: seq<Listed>, u: State)
    requires Reaches(s, run, t) && t.section == TakeList(1) && t.backup.None? && IsListing(t.services, false, names)
    requires u == t.(section := TakeRead(1, names, []))
    ensures Reaches(s, run + [SectionSteps(true, names)], u)
  {
    Then(s, run, t, SectionSteps(true, names), u);
  }

  lemma Reads(s: State, run: seq<Event>, t: State, names: seq<Listed>, saved: seq<Saved>, u: State)
    requires Reaches(s, run, t) && t.section == TakeRead(1, names, saved) && |saved| < |names|
    requires var line := names[|saved|];
             NamesUnique(t.services) && line.sid in t.services && t.services[line.sid].name == line.name
             && t.services[line.sid].dns == [] && u == t.(section := TakeRead(1, names, saved + [Saved(line.name, [])]))
    ensures Reaches(s, run + [SectionSteps(true, [])], u)
  {
    HolderIs(t.services, names[|saved|].name, names[|saved|].sid);
    Then(s, run, t, SectionSteps(true, []), u);
  }

  lemma Writes(s: State, run: seq<Event>, t: State, names: seq<Listed>, saved: seq<Saved>, u: State)
    requires Reaches(s, run, t) && t.section == TakeRead(1, names, saved) && |saved| == |names| > 0
    requires u == t.(backup := Some(Backup(saved, Some([1]))), section := TakeSet(1, names, 0))
    ensures Reaches(s, run + [SectionSteps(true, [])], u)
  {
    Then(s, run, t, SectionSteps(true, []), u);
  }

  lemma Switches(s: State, run: seq<Event>, t: State, names: seq<Listed>, k: nat, u: State)
    requires Reaches(s, run, t) && t.section == TakeSet(1, names, k) && k < |names| && NamesUnique(t.services)
    requires names[k].sid in t.services && t.services[names[k].sid].name == names[k].name
    requires var written := t.services[names[k].sid].(dns := [Plain(1)], ours := Some(1));
             u == t.(services := t.services[names[k].sid := written], section := TakeSet(1, names, k + 1))
    ensures Reaches(s, run + [SectionSteps(true, [])], u)
  {
    HolderIs(t.services, names[k].name, names[k].sid);
    assert names[k := Listed(names[k].name, names[k].sid)] == names;
    assert Written(t.services, names[k].name, [Plain(1)], Some(1)) == u.services;
    Then(s, run, t, SectionSteps(true, []), u);
  }

  /** One service `sid` is renamed, and a new one with no DNS of its own takes `name`. */
  lemma TradesNames(s: State, run: seq<Event>, t: State, sid: Sid, name: Name, newcomer: Sid, left: Name, u: State)
    requires Reaches(s, run, t) && sid in t.services && !Exists(t.services, name) && newcomer !in t.used
    requires NamesUnique(t.services) && t.services[sid].name == left && name != left && t.misread == {}
    requires u == t.(services := t.services[sid := t.services[sid].(name := name)]
                                           [newcomer := Service(left, true, [], None)],
                     used := t.used + {newcomer})
    requires newcomer !in t.services
    ensures Reaches(s, run + [Renamed(sid, name)] + [Appears(newcomer, Service(left, true, [], None))], u)
  {
    var renamed := t.(services := t.services[sid := t.services[sid].(name := name)]);
    Then(s, run, t, Renamed(sid, name), renamed);
    assert !Exists(renamed.services, left);
    Then(s, run + [Renamed(sid, name)], renamed, Appears(newcomer, Service(left, true, [], None)), u);
  }

  /** A call on the name of a line, held by someone who does not carry our list. */
  lemma PassesInUndo(s: State, run: seq<Event>, t: State, names: seq<Listed>, holder: Sid, u: State)
    requires Reaches(s, run, t) && t.section == TakeUndo(1, names, 1, true) && |names| >= 1 && t.misread == {}
    requires NamesUnique(t.services) && t.backup.Some? && |t.backup.value.services| >= 1
    requires t.backup.value.services[0].servers == []
    requires holder in t.services && t.services[holder] == Service(names[0].name, true, [], None)
    requires names[0].sid in t.services && t.services[names[0].sid].ours.Some? && names[0].sid != holder
    requires u == t.(section := TakeUndo(1, names, 0, true), misread := {names[0].sid})
    ensures Reaches(s, run + [SectionSteps(true, [])], u)
  {
    HolderIs(t.services, names[0].name, holder);
    assert t.services[names[0].sid].name != names[0].name;
    assert Written(t.services, names[0].name, [], None) == t.services;
    assert StillOurs(t.services, {names[0].sid}) == {names[0].sid};
    Then(s, run, t, SectionSteps(true, []), u);
  }

  lemma UndoneIsDropped(s: State, run: seq<Event>, t: State, names: seq<Listed>, u: State)
    requires Reaches(s, run, t) && t.section == TakeUndo(1, names, 0, true)
    requires u == EndTake(t.(backup := None), false)
    ensures Reaches(s, run + [SectionSteps(true, []), SectionSteps(true, [])], u)
  {
    var ready := t.(section := TakeDrop(1));
    Then(s, run, t, SectionSteps(true, []), ready);
    Then(s, run + [SectionSteps(true, [])], ready, SectionSteps(true, []), u);
    assert run + [SectionSteps(true, []), SectionSteps(true, [])]
        == run + [SectionSteps(true, [])] + [SectionSteps(true, [])];
  }

  lemma FailsToSwitch(s: State, run: seq<Event>, t: State, names: seq<Listed>, k: nat, u: State)
    requires Reaches(s, run, t) && t.section == TakeSet(1, names, k) && k < |names| && t.misread == {}
    requires u == t.(section := TakeUndo(1, names, k, true))
    ensures Reaches(s, run + [SectionSteps(false, [])], u)
  {
    Then(s, run, t, SectionSteps(false, []), u);
  }

  // ---- Through a rollback ---------------------------------------------------------------------------------

  const WIFI: Name := "Wi-Fi"
  const ETHERNET: Name := "Ethernet"
  const USB: Name := "USB"

  function Idle(services: map<Sid, Service>): State {
    State(services, services.Keys, None, false, false, Free, NoCommand, {}, _ => false)
  }

  function Plainly(name: Name): Service {
    Service(name, true, [], None)
  }

  function Taken(name: Name): Service {
    Service(name, true, [Plain(1)], Some(1))
  }

  ghost predicate TwoServices(s: State) {
    s == Idle(map[1 := Plainly(WIFI), 2 := Plainly(ETHERNET)])
  }

  function BothListed(): seq<Listed> {
    [Listed(WIFI, 1), Listed(ETHERNET, 2)]
  }

  function BothSaved(): seq<Saved> {
    [Saved(WIFI, []), Saved(ETHERNET, [])]
  }

  lemma ListsBoth(s: State) returns (run: seq<Event>, t: State)
    requires TwoServices(s)
    ensures Reaches(s, run, t)
    ensures t == s.(loaded := true, command := StartTaking, section := TakeRead(1, BothListed(), []))
  {
    var taking;
    run, taking := StartsTaking(s);
    assert BothListed()[0] == Listed(WIFI, 1) && BothListed()[1] == Listed(ETHERNET, 2);
    t := taking.(section := TakeRead(1, BothListed(), []));
    Lists(s, run, taking, BothListed(), t);
    run := run + [SectionSteps(true, BothListed())];
  }

  /** Both lists are saved and the backup is written. */
  lemma SavesBoth(s: State) returns (run: seq<Event>, t: State)
    requires TwoServices(s)
    ensures Reaches(s, run, t) && t.services == s.services && t.used == s.used && t.misread == {}
    ensures t.backup == Some(Backup(BothSaved(), Some([1]))) && t.section == TakeSet(1, BothListed(), 0)
  {
    var names := BothListed();
    var listed;
    run, listed := ListsBoth(s);
    var first := listed.(section := TakeRead(1, names, [] + [Saved(WIFI, [])]));
    Reads(s, run, listed, names, [], first);
    run := run + [SectionSteps(true, [])];
    var both := first.(section := TakeRead(1, names, [] + [Saved(WIFI, [])] + [Saved(ETHERNET, [])]));
    Reads(s, run, first, names, [] + [Saved(WIFI, [])], both);
    run := run + [SectionSteps(true, [])];
    assert [] + [Saved(WIFI, [])] + [Saved(ETHERNET, [])] == BothSaved();
    t := both.(backup := Some(Backup(BothSaved(), Some([1]))), section := TakeSet(1, names, 0));
    Writes(s, run, both, names, BothSaved(), t);
    run := run + [SectionSteps(true, [])];
  }

  lemma SwitchesFirst(s: State) returns (run: seq<Event>, t: State)
    requires TwoServices(s)
    ensures Reaches(s, run, t) && t.section == TakeUndo(1, BothListed(), 1, true) && t.misread == {}
    ensures t.backup == Some(Backup(BothSaved(), Some([1]))) && t.used == {1, 2}
    ensures t.services == map[1 := Taken(WIFI), 2 := Plainly(ETHERNET)]
  {
    var names := BothListed();
    var saved;
    run, saved := SavesBoth(s);
    var switched := saved.(services := saved.services[1 := Taken(WIFI)], section := TakeSet(1, names, 1));
    Switches(s, run, saved, names, 0, switched);
    run := run + [SectionSteps(true, [])];
    t := switched.(section := TakeUndo(1, names, 1, true));
    FailsToSwitch(s, run, switched, names, 1, t);
    run := run + [SectionSteps(false, [])];
  }

  /** The first service is switched, the second cannot be, and the first trades names before it is undone. */
  lemma TradesBeforeUndo(s: State) returns (run: seq<Event>, t: State)
    requires TwoServices(s)
    ensures Reaches(s, run, t) && t.section == TakeUndo(1, BothListed(), 1, true) && t.misread == {}
    ensures t.backup == Some(Backup(BothSaved(), Some([1])))
    ensures t.services == map[1 := Taken(USB), 2 := Plainly(ETHERNET), 3 := Plainly(WIFI)]
  {
    var failed;
    run, failed := SwitchesFirst(s);
    t := failed.(services := failed.services[1 := Taken(USB)][3 := Plainly(WIFI)], used := failed.used + {3});
    TradesNames(s, run, failed, 1, USB, 3, WIFI, t);
    run := run + [Renamed(1, USB)] + [Appears(3, Plainly(WIFI))];
  }

  lemma PassedOver(s: State) returns (run: seq<Event>, t: State)
    requires TwoServices(s)
    ensures Reaches(s, run, t) && t.section == TakeUndo(1, BothListed(), 0, true)
    ensures 1 in t.services && t.services[1] == Taken(USB)
  {
    var traded;
    run, traded := TradesBeforeUndo(s);
    assert BothListed()[0] == Listed(WIFI, 1) && BothSaved()[0] == Saved(WIFI, []);
    t := traded.(section := TakeUndo(1, BothListed(), 0, true), misread := {1});
    PassesInUndo(s, run, traded, BothListed(), 3, t);
    run := run + [SectionSteps(true, [])];
  }

  /** A run from an untouched machine that strands a service through a rollback. */
  lemma RollbackEscapes(s: State) returns (run: seq<Event>)
    requires TwoServices(s)
    ensures Untouched(s) && Legal(s, run)
    ensures var t := Final(s, run);
            t.backup.None? && 1 in t.services && t.services[1].dns == [Plain(1)] && t.services[1].ours == Some(1)
  {
    var passed;
    run, passed := PassedOver(s);
    UndoneIsDropped(s, run, passed, BothListed(), EndTake(passed.(backup := None), false));
    run := run + [SectionSteps(true, []), SectionSteps(true, [])];
  }

  // ---- Through a verification -----------------------------------------------------------------------------

  lemma Marks(s: State, run: seq<Event>, t: State, names: seq<Listed>, u: State)
    requires Reaches(s, run, t) && t.section == TakeSet(1, names, |names|)
    requires u == EndTake(t.(marker := true), true)
    ensures Reaches(s, run + [SectionSteps(true, []), SectionSteps(true, [])], u)
  {
    var ready := t.(section := TakeMark(1));
    Then(s, run, t, SectionSteps(true, []), ready);
    Then(s, run + [SectionSteps(true, [])], ready, SectionSteps(true, []), u);
    assert run + [SectionSteps(true, []), SectionSteps(true, [])]
        == run + [SectionSteps(true, [])] + [SectionSteps(true, [])];
  }

  /** The stop command, up to the listing it restores from. */
  lemma Stops(s: State, run: seq<Event>, t: State, u: State) returns (longer: seq<Event>)
    requires Reaches(s, run, t) && t.command.NoCommand? && t.section.Free? && t.backup.Some? && t.misread == {}
    requires u == t.(marker := false, section := RestoreList, command := Stopping)
    ensures Reaches(s, longer, u)
  {
    var waiting := t.(command := StopWaiting);
    Then(s, run, t, StopBegins, waiting);
    var inside := t.(section := ReleaseMark, command := Stopping);
    Then(s, run + [StopBegins], waiting, CommandSteps(true), inside);
    Then(s, run + [StopBegins] + [CommandSteps(true)], inside, SectionSteps(true, []), u);
    longer := run + [StopBegins] + [CommandSteps(true)] + [SectionSteps(true, [])];
  }

  lemma SkipsUnlisted(s: State, run: seq<Event>, t: State, names: seq<Listed>, u: State) returns (longer: seq<Event>)
    requires Reaches(s, run, t) && t.section == RestoreSet(names, 0, true)
    requires t.backup.Some? && |t.backup.value.services| == 1 && !IsListed(names, t.backup.value.services[0].name)
    requires u == t.(section := RestoreRelist(true))
    ensures Reaches(s, longer, u)
  {
    var skipped := t.(section := RestoreSet(names, 1, true));
    Then(s, run, t, SectionSteps(true, []), skipped);
    Then(s, run + [SectionSteps(true, [])], skipped, SectionSteps(true, []), u);
    longer := run + [SectionSteps(true, [])] + [SectionSteps(true, [])];
  }

  /** Nothing saved is listed, so nothing is put back, and the services are listed again. */
  lemma PutsNothingBack(s: State, run: seq<Event>, t: State, names: seq<Listed>, u: State) returns (longer: seq<Event>)
    requires Reaches(s, run, t) && t.section.RestoreList? && t.misread == {} && IsListing(t.services, true, names)
    requires t.backup.Some? && |t.backup.value.services| == 1 && !IsListed(names, t.backup.value.services[0].name)
    requires u == t.(section := RestoreVerify(names, 0, true))
    ensures Reaches(s, longer, u)
  {
    var setting := t.(section := RestoreSet(names, 0, true));
    Then(s, run, t, SectionSteps(true, names), setting);
    var relisting := t.(section := RestoreRelist(true));
    longer := SkipsUnlisted(s, run + [SectionSteps(true, names)], setting, names, relisting);
    Then(s, longer, relisting, SectionSteps(true, names), u);
    longer := longer + [SectionSteps(true, names)];
  }

  lemma PassesInVerification(s: State, run: seq<Event>, t: State, names: seq<Listed>, holder: Sid, u: State)
    requires Reaches(s, run, t) && t.section == RestoreVerify(names, 0, true) && |names| == 1 && t.misread == {}
    requires NamesUnique(t.services) && t.backup.Some? && t.backup.value.history == Some([1])
    requires holder in t.services && t.services[holder] == Service(names[0].name, true, [], None)
    requires names[0].sid in t.services && t.services[names[0].sid].ours.Some? && names[0].sid != holder
    requires u == t.(section := RestoreVerify(names, 1, true), misread := {names[0].sid})
    ensures Reaches(s, run + [SectionSteps(true, [])], u)
  {
    HolderIs(t.services, names[0].name, holder);
    assert t.services[names[0].sid].name != names[0].name;
    Then(s, run, t, SectionSteps(true, []), u);
  }

  lemma VerifiedIsDropped(s: State, run: seq<Event>, t: State, names: seq<Listed>, u: State)
    requires Reaches(s, run, t) && t.section == RestoreVerify(names, |names|, true)
    requires u == EndRelease(t.(backup := None), true)
    ensures Reaches(s, run + [SectionSteps(true, []), SectionSteps(true, [])], u)
  {
    var ready := t.(section := RestoreDrop);
    Then(s, run, t, SectionSteps(true, []), ready);
    Then(s, run + [SectionSteps(true, [])], ready, SectionSteps(true, []), u);
    assert run + [SectionSteps(true, []), SectionSteps(true, [])]
        == run + [SectionSteps(true, [])] + [SectionSteps(true, [])];
  }

  ghost predicate OneService(s: State) {
    s == Idle(map[1 := Plainly(WIFI)])
  }

  lemma SavesOne(s: State) returns (run: seq<Event>, t: State)
    requires OneService(s)
    ensures Reaches(s, run, t)
    ensures t == s.(loaded := true, command := StartTaking, backup := Some(Backup([Saved(WIFI, [])], Some([1]))),
                    section := TakeSet(1, [Listed(WIFI, 1)], 0))
  {
    var names := [Listed(WIFI, 1)];
    var taking;
    run, taking := StartsTaking(s);
    var listed := taking.(section := TakeRead(1, names, []));
    assert names[0] == Listed(WIFI, 1);
    Lists(s, run, taking, names, listed);
    run := run + [SectionSteps(true, names)];
    var read := listed.(section := TakeRead(1, names, [] + [Saved(WIFI, [])]));
    Reads(s, run, listed, names, [], read);
    run := run + [SectionSteps(true, [])];
    assert [] + [Saved(WIFI, [])] == [Saved(WIFI, [])];
    t := read.(backup := Some(Backup([Saved(WIFI, [])], Some([1]))), section := TakeSet(1, names, 0));
    Writes(s, run, read, names, [Saved(WIFI, [])], t);
    run := run + [SectionSteps(true, [])];
  }

  /** One service, taken over and marked. */
  lemma TakesOver(s: State) returns (run: seq<Event>, t: State)
    requires OneService(s)
    ensures Reaches(s, run, t) && t.services == map[1 := Taken(WIFI)] && t.used == {1}
    ensures t.section.Free? && t.command.NoCommand? && t.misread == {}
    ensures t.backup == Some(Backup([Saved(WIFI, [])], Some([1])))
  {
    var names := [Listed(WIFI, 1)];
    var written;
    run, written := SavesOne(s);
    var switched := written.(services := written.services[1 := Taken(WIFI)], section := TakeSet(1, names, 1));
    Switches(s, run, written, names, 0, switched);
    run := run + [SectionSteps(true, [])];
    t := EndTake(switched.(marker := true), true);
    Marks(s, run, switched, names, t);
    run := run + [SectionSteps(true, []), SectionSteps(true, [])];
  }

  /** Renamed before the stop, the service is not put back. */
  lemma StopsRenamed(s: State) returns (run: seq<Event>, t: State)
    requires OneService(s)
    ensures Reaches(s, run, t) && t.section == RestoreVerify([Listed(USB, 1)], 0, true) && t.misread == {}
    ensures t.backup == Some(Backup([Saved(WIFI, [])], Some([1])))
    ensures t.services == map[1 := Taken(USB)] && t.used == {1}
  {
    var names := [Listed(USB, 1)];
    var taken;
    run, taken := TakesOver(s);
    var renamed := taken.(services := map[1 := Taken(USB)]);
    Then(s, run, taken, Renamed(1, USB), renamed);
    var listing := renamed.(marker := false, section := RestoreList, command := Stopping);
    run := Stops(s, run + [Renamed(1, USB)], renamed, listing);
    assert names[0] == Listed(USB, 1) && Listed(USB, 1) in names;
    t := listing.(section := RestoreVerify(names, 0, true));
    run := PutsNothingBack(s, run, listing, names, t);
  }

  /** It trades names again before it is read. */
  lemma TradesBeforeReading(s: State) returns (run: seq<Event>, t: State)
    requires OneService(s)
    ensures Reaches(s, run, t) && t.section == RestoreVerify([Listed(USB, 1)], 0, true) && t.misread == {}
    ensures t.backup == Some(Backup([Saved(WIFI, [])], Some([1])))
    ensures t.services == map[1 := Taken(WIFI), 2 := Plainly(USB)]
  {
    var verifying;
    run, verifying := StopsRenamed(s);
    t := verifying.(services := verifying.services[1 := Taken(WIFI)][2 := Plainly(USB)], used := verifying.used + {2});
    TradesNames(s, run, verifying, 1, WIFI, 2, USB, t);
    run := run + [Renamed(1, WIFI)] + [Appears(2, Plainly(USB))];
  }

  /** A run from an untouched machine that strands a service through a verification. */
  lemma VerificationEscapes(s: State) returns (run: seq<Event>)
    requires OneService(s)
    ensures Untouched(s) && Legal(s, run)
    ensures var t := Final(s, run);
            t.backup.None? && 1 in t.services && t.services[1].dns == [Plain(1)] && t.services[1].ours == Some(1)
  {
    var t;
    run, t := TradesBeforeReading(s);
    var names := [Listed(USB, 1)];
    var passed := t.(section := RestoreVerify(names, 1, true), misread := {1});
    PassesInVerification(s, run, t, names, 2, passed);
    run := run + [SectionSteps(true, [])];
    var dropped := EndRelease(passed.(backup := None), true);
    VerifiedIsDropped(s, run, passed, names, dropped);
    run := run + [SectionSteps(true, []), SectionSteps(true, [])];
  }
}
