/** What start and stop do, step by step, around the sections under the DNS lock. */
module CommandRuns {
  import opened Prelude
  import opened OsDns
  import opened Takeover
  import opened TakeoverRuns

  /** The job is gone, and with it whatever the daemon was doing. */
  ghost predicate JobIsGone(s: State, t: State) {
    !t.loaded && t.command.NoCommand? && t.section == (if OfDaemon(s.section) then Free else s.section)
    && t.services == s.services && t.backup == s.backup && t.marker == s.marker
  }

  // ---- Start ----------------------------------------------------------------------------------------------

  /** A start in which every step works: checked, loaded, probed, waited for the lock. */
  function StartingRun(server: Addr): seq<Event> {
    [StartBegins(server), CommandSteps(true), CommandSteps(true), CommandSteps(true), CommandSteps(true)]
  }

  /** Nothing of an earlier start is left: the job is loaded, probed, waited for, and then DNS is taken over. */
  lemma StartReachesTakeover(s: State, server: Addr)
    requires s.command.NoCommand? && s.section.Free? && !s.loaded && s.backup.None? && !s.marker
    ensures var run := StartingRun(server);
            Legal(s, run)
            && Final(s, run) == s.(loaded := true, section := TakeList(server), command := StartTaking)
  {
    var run := StartingRun(server);
    var t1 := Step(s, run[0]);
    var t2 := Step(t1, run[1]);
    var t3 := Step(t2, run[2]);
    var t4 := Step(t3, run[3]);
    var t5 := Step(t4, run[4]);
    assert t5 == s.(loaded := true, section := TakeList(server), command := StartTaking);
    assert Legal(t5, []) && Final(t5, []) == t5;
    OneStep(t4, run[4], []);
    OneStep(t3, run[3], [run[4]]);
    OneStep(t2, run[2], [run[3], run[4]]);
    OneStep(t1, run[1], [run[2], run[3], run[4]]);
    OneStep(s, run[0], [run[1], run[2], run[3], run[4]]);
    assert [run[0]] + [run[1], run[2], run[3], run[4]] == run;
  }

  lemma OneStep(s: State, e: Event, rest: seq<Event>)
    requires Enabled(s, e) && Legal(Step(s, e), rest)
    ensures Legal(s, [e] + rest) && Final(s, [e] + rest) == Final(Step(s, e), rest)
  {
    assert ([e] + rest)[1..] == rest;
  }

  lemma TwoSteps(s: State, e: Event, f: Event)
    requires Enabled(s, e) && Enabled(Step(s, e), f)
    ensures Legal(s, [e, f]) && Final(s, [e, f]) == Step(Step(s, e), f)
  {
    OneStep(Step(s, e), f, []);
    OneStep(s, e, [f]);
    assert [e] + [f] == [e, f] && [f] + [] == [f];
  }

  /** A loaded job, a backup or a marker makes start refuse and leave everything alone. */
  lemma StartIsRefused(s: State, server: Addr, ok: bool)
    requires s.command.NoCommand? && (s.loaded || s.backup.Some? || s.marker)
    ensures Legal(s, [StartBegins(server), CommandSteps(ok)])
    ensures Final(s, [StartBegins(server), CommandSteps(ok)]) == s
  {
    TwoSteps(s, StartBegins(server), CommandSteps(ok));
  }

  /** A job that cannot be loaded ends the start; one that does not answer its probe is unloaded again. */
  lemma FailedStartLeavesNothing(s: State, server: Addr)
    ensures s.command == StartLoading(server) ==> Step(s, CommandSteps(false)) == s.(command := NoCommand)
    ensures s.command == StartProbing(server) ==>
              Legal(s, [CommandSteps(false), CommandSteps(true)])
              && JobIsGone(s, Final(s, [CommandSteps(false), CommandSteps(true)]))
  {
    if s.command == StartProbing(server) {
      TwoSteps(s, CommandSteps(false), CommandSteps(true));
    }
  }

  /** A failed takeover leaves the service running exactly while there is something to restore. */
  lemma FailedTakeoverKeepsServing(s: State, ok: bool)
    requires s.command.StartFailed?
    ensures s.backup.Some? ==> Step(s, CommandSteps(ok)) == s.(command := NoCommand)
    ensures s.backup.None? ==>
              Legal(s, [CommandSteps(ok), CommandSteps(true)])
              && JobIsGone(s, Final(s, [CommandSteps(ok), CommandSteps(true)]))
  {
    if s.backup.None? {
      TwoSteps(s, CommandSteps(ok), CommandSteps(true));
    }
  }

  // ---- Stop -----------------------------------------------------------------------------------------------

  /** Stop restores first: it enters the section under the lock and, with a backup, takes the marker away. */
  lemma StopReachesRestoration(s: State, names: seq<Listed>)
    requires s.command.NoCommand? && s.section.Free?
    ensures Legal(s, [StopBegins, CommandSteps(true)])
    ensures var t := Final(s, [StopBegins, CommandSteps(true)]);
            t == s.(section := ReleaseMark, command := Stopping)
            && Enabled(t, SectionSteps(true, names))
            && Step(t, SectionSteps(true, names))
               == if s.backup.Some? then t.(marker := false, section := RestoreList)
                  else if s.marker then t.(section := ReleaseOrphan)
                  else s.(command := StopUnloading, misread := {})
  {
    TwoSteps(s, StopBegins, CommandSteps(true));
  }

  /** A marker without a backup is removed, or keeps the job. */
  lemma OrphanIsRemoved(s: State, ok: bool, names: seq<Listed>)
    requires s.section.ReleaseOrphan? && s.command.Stopping? && Enabled(s, SectionSteps(ok, names))
    ensures Step(s, SectionSteps(ok, names))
            == if ok then s.(marker := false, section := Free, command := StopUnloading, misread := {})
               else s.(section := Free, command := NoCommand, misread := {})
  {
  }

  /** The job is unloaded only after that, and stays if anything went wrong. */
  lemma StopUnloadsLast(s: State)
    requires s.command.StopUnloading?
    ensures JobIsGone(s, Step(s, CommandSteps(true))) && Step(s, CommandSteps(false)) == s.(command := NoCommand)
  {
  }

  // ---- Ticks and crashes ------------------------------------------------------------------------------------

  lemma TickBeginsExactly(s: State, server: Addr)
    requires Enabled(s, TickBegins(server))
    ensures s.loaded && s.section.Free? && Step(s, TickBegins(server)) == s.(section := TickList(server))
  {
  }

  /** A crash frees the lock its process held and changes nothing on disk or in the settings. */
  lemma CrashesExactly(s: State)
    ensures Step(s, CommandDies).command.NoCommand?
    ensures Step(s, CommandDies).section == if OfDaemon(s.section) then s.section else Free
    ensures Step(s, DaemonDies).section == if OfDaemon(s.section) then Free else s.section
    ensures Step(s, DaemonDies).command == s.command
    ensures forall e | e == CommandDies || e == DaemonDies ::
              var t := Step(s, e);
              t.services == s.services && t.backup == s.backup && t.marker == s.marker && t.loaded == s.loaded
  {
  }
}
