/** Every interleaving of start, stop, watchdog ticks, crashes, renames and other programs' changes. */
module Takeover {
  import opened Prelude
  import opened OsDns

  type Sid = nat

  /** A network service keeps its identity under any name; `ours` is the address of the list DNSRivet last wrote. */
  datatype Service = Service(name: Name, enabled: bool, dns: DnsList, ours: Option<Addr>)

  /** One line of a listing, and, for the record, which service had the name. */
  datatype Listed = Listed(name: Name, sid: Sid)

  /** What runs under the DNS lock, between two of its effects. */
  datatype Section =
    | Free
    | TakeList(server: Addr)
    | TakeRead(server: Addr, names: seq<Listed>, saved: seq<Saved>)
    | TakeSet(server: Addr, names: seq<Listed>, k: nat)
    | TakeUndo(server: Addr, names: seq<Listed>, k: nat, ok: bool)
    | TakeDrop(server: Addr)
    | TakeMark(server: Addr)
    | ReleaseMark
    | ReleaseOrphan
    | RestoreList
    | RestoreSet(listed: seq<Listed>, k: nat, ok: bool)
    | RestoreRelist(ok: bool)
    | RestoreVerify(names: seq<Listed>, k: nat, ok: bool)
    | RestoreDrop
    | TickList(server: Addr)
    | TickRead(server: Addr, names: seq<Listed>, k: nat, found: seq<Saved>)
    | TickDrift(server: Addr, drifted: seq<Name>, k: nat)
    | TickSet(server: Addr, drifted: seq<Name>, k: nat)

  /** The command that holds the lifecycle lock. */
  datatype Command =
    | NoCommand
    | StartChecking(server: Addr)
    | StartLoading(server: Addr)
    | StartProbing(server: Addr)
    | StartWaiting(server: Addr)
    | StartTaking
    | StartFailed
    | StartCleaning
    | StopWaiting
    | Stopping
    | StopUnloading

  /**
   * `misread` records the services that still carry our list although the verification or rollback in progress has gone
   * past their line.
   */
  datatype State = State(services: map<Sid, Service>, used: set<Sid>, backup: Option<Backup>, marker: bool,
                         loaded: bool, section: Section, command: Command, misread: set<Sid>, loopback: Addr -> bool)

  // ---- Effects on the services -----------------------------------------------------------------------

  predicate Exists(services: map<Sid, Service>, name: Name) {
    exists sid | sid in services :: services[sid].name == name
  }

  ghost function HolderOf(services: map<Sid, Service>, name: Name): (sid: Sid)
    requires Exists(services, name)
    ensures sid in services && services[sid].name == name
  {
    var sid :| sid in services && services[sid].name == name;
    sid
  }

  ghost function DnsOf(services: map<Sid, Service>, name: Name): DnsList
    requires Exists(services, name)
  {
    services[HolderOf(services, name)].dns
  }

  /** A write by name reaches whichever service has it now. */
  function Written(services: map<Sid, Service>, name: Name, dns: DnsList, ours: Option<Addr>): map<Sid, Service> {
    map sid | sid in services ::
      if services[sid].name == name then services[sid].(dns := dns, ours := ours) else services[sid]
  }

  /** Those of `sids` that still carry our list. */
  function StillOurs(services: map<Sid, Service>, sids: set<Sid>): set<Sid> {
    set sid | sid in sids && sid in services && services[sid].ours.Some? :: sid
  }

  ghost predicate IsListing(services: map<Sid, Service>, all: bool, names: seq<Listed>) {
    (forall k | 0 <= k < |names| :: names[k].sid in services && services[names[k].sid].name == names[k].name)
    && (forall k | 0 <= k < |names| :: all || services[names[k].sid].enabled)
    && (forall sid | sid in services && (all || services[sid].enabled) :: Listed(services[sid].name, sid) in names)
    && (forall j, k | 0 <= j < k < |names| :: names[j].sid != names[k].sid)
  }

  // ---- Events -------------------------------------------------------------------------------------------

  /** `ok` says whether the system call worked; `names` is what a listing returned. */
  datatype Event =
    | StartBegins(server: Addr)
    | StopBegins
    | CommandSteps(ok: bool)
    | TickBegins(server: Addr)
    | SectionSteps(ok: bool, names: seq<Listed>)
    | CommandDies
    | DaemonDies
    | Appears(sid: Sid, service: Service)
    | Vanishes(sid: Sid)
    | Renamed(sid: Sid, name: Name)
    | Rewritten(sid: Sid, dns: DnsList)
    | Toggled(sid: Sid)

  predicate OfDaemon(section: Section) {
    section.TickList? || section.TickRead? || section.TickDrift? || section.TickSet?
  }

  /** The line a verification is about to read, or a rollback about to undo. */
  function CheckedLine(section: Section): Option<Listed> {
    match section
    case RestoreVerify(names, k, _) => if k < |names| then Some(names[k]) else None
    case TakeUndo(_, names, k, _) => if 0 < k <= |names| then Some(names[k - 1]) else None
    case _ => None
  }

  /** A verification or a rollback, from its first line to the removal of the backup. */
  predicate Checking(section: Section) {
    section.TakeUndo? || section.TakeDrop? || section.RestoreVerify? || section.RestoreDrop?
  }

  /** The service of the checked line carries our list under another name, so a call on the line's name passes it by. */
  predicate PassesBy(s: State) {
    match CheckedLine(s.section)
    case None => false
    case Some(line) =>
      line.sid in s.services && s.services[line.sid].ours.Some? && s.services[line.sid].name != line.name
  }

  function PassedBy(s: State): set<Sid> {
    if PassesBy(s) then {CheckedLine(s.section).value.sid} else {}
  }

  /** The lock file admits one section at a time; a command inside a section waits for it. */
  ghost predicate Enabled(s: State, e: Event) {
    match e
    case StartBegins(_) => s.command.NoCommand?
    case StopBegins => s.command.NoCommand?
    case CommandSteps(_) =>
      !s.command.NoCommand? && !s.command.StartTaking? && !s.command.Stopping?
      && (s.command.StartWaiting? || s.command.StopWaiting? ==> s.section.Free?)
    case TickBegins(_) => s.loaded && s.section.Free?
    case SectionSteps(ok, names) => !s.section.Free? && (ok ==> CallsCanWork(s, names))
    case CommandDies => true
    case DaemonDies => true
    case Appears(sid, service) => sid !in s.used && service.ours.None? && !Exists(s.services, service.name)
    case Vanishes(sid) => sid in s.services
    case Renamed(sid, name) => sid in s.services && !Exists(s.services, name)
    case Rewritten(sid, _) => sid in s.services
    case Toggled(sid) => sid in s.services
  }

  /** The service a section's next call names, if it names one. */
  function NextName(s: State): Option<Name> {
    match s.section
    case TakeRead(_, names, saved) => if |saved| < |names| then Some(names[|saved|].name) else None
    case TakeSet(_, names, k) => if k < |names| then Some(names[k].name) else None
    case TakeUndo(_, names, k, _) => if 0 < k <= |names| then Some(names[k - 1].name) else None
    case RestoreVerify(names, k, _) => if k < |names| then Some(names[k].name) else None
    case TickRead(_, names, k, _) => if k < |names| then Some(names[k].name) else None
    case TickSet(_, drifted, k) => if k < |drifted| then Some(drifted[k]) else None
    case RestoreSet(listed, k, _) =>
      if s.backup.Some? && k < |s.backup.value.services| && IsListed(listed, s.backup.value.services[k].name)
      then Some(s.backup.value.services[k].name) else None
    case _ => None
  }

  /** A call on a name works only while some service has it; a listing returns what there is. */
  ghost predicate CallsCanWork(s: State, names: seq<Listed>) {
    (NextName(s).Some? ==> Exists(s.services, NextName(s).value))
    && (s.section.TakeList? || s.section.TickList? ==> IsListing(s.services, false, names))
    && (s.section.RestoreList? || s.section.RestoreRelist? ==> IsListing(s.services, true, names))
  }

  predicate IsListed(listed: seq<Listed>, name: Name) {
    exists k | 0 <= k < |listed| :: listed[k].name == name
  }

  // ---- The commands -------------------------------------------------------------------------------------

  /** Unloading the job kills the daemon and whatever it was doing. */
  function Unloaded(s: State): State {
    s.(loaded := false, section := if OfDaemon(s.section) then Free else s.section, command := NoCommand)
  }

  function CommandStep(s: State, ok: bool): State {
    match s.command
    case StartChecking(server) =>
      if !ok || s.loaded || s.backup.Some? || s.marker then s.(command := NoCommand)
      else s.(command := StartLoading(server))
    case StartLoading(server) =>
      if ok then s.(loaded := true, command := StartProbing(server)) else s.(command := NoCommand)
    case StartProbing(server) => s.(command := if ok then StartWaiting(server) else StartCleaning)
    case StartWaiting(server) =>
      if ok then s.(section := TakeList(server), command := StartTaking) else s.(command := StartFailed)
    case StartFailed => s.(command := if s.backup.Some? then NoCommand else StartCleaning)
    case StartCleaning => if ok then Unloaded(s) else s.(command := NoCommand)
    case StopWaiting => if ok then s.(section := ReleaseMark, command := Stopping) else s.(command := NoCommand)
    case StopUnloading => if ok then Unloaded(s) else s.(command := NoCommand)
    case _ => s
  }

  function EndTake(s: State, ok: bool): State {
    s.(section := Free, command := if ok then NoCommand else StartFailed, misread := {})
  }

  function EndRelease(s: State, ok: bool): State {
    s.(section := Free, command := if ok then StopUnloading else NoCommand, misread := {})
  }

  // ---- A takeover under the DNS lock --------------------------------------------------------------------

  function ListForTake(s: State, ok: bool, server: Addr, names: seq<Listed>): State {
    if !ok || s.backup.Some? then EndTake(s, false) else s.(section := TakeRead(server, names, []))
  }

  ghost function ReadForTake(s: State, ok: bool, server: Addr, listed: seq<Listed>, saved: seq<Saved>): State
    requires ok && |saved| < |listed| ==> Exists(s.services, listed[|saved|].name)
  {
    if !ok then EndTake(s, false)
    else if |saved| < |listed| then
      var name := listed[|saved|].name;
      var dns := DnsOf(s.services, name);
      if Plain(server) in dns then EndTake(s, false)
      else s.(section := TakeRead(server, listed, saved + [Saved(name, dns)]))
    else if saved == [] then EndTake(s, false)
    else s.(backup := Some(Backup(saved, Some([server]))), section := TakeSet(server, listed, 0))
  }

  /** The line of a switched service records which service the write reached. */
  ghost function SwitchLine(s: State, server: Addr, listed: seq<Listed>, k: nat): State
    requires k < |listed| && Exists(s.services, listed[k].name)
  {
    var name := listed[k].name;
    var reached := listed[k := Listed(name, HolderOf(s.services, name))];
    s.(services := Written(s.services, name, [Plain(server)], Some(server)), section := TakeSet(server, reached, k + 1))
  }

  ghost function SetForTake(s: State, ok: bool, server: Addr, listed: seq<Listed>, k: nat): State
    requires ok && k < |listed| ==> Exists(s.services, listed[k].name)
  {
    if k >= |listed| then s.(section := TakeMark(server))
    else if ok then SwitchLine(s, server, listed, k)
    else s.(section := TakeUndo(server, listed, k, true), misread := {})
  }

  function UndoLine(s: State, server: Addr, listed: seq<Listed>, k: nat, fine: bool): State
    requires k < |listed| && s.backup.Some? && k < |s.backup.value.services|
  {
    var after := Written(s.services, listed[k].name, s.backup.value.services[k].servers, None);
    s.(services := after, section := TakeUndo(server, listed, k, fine),
       misread := StillOurs(after, s.misread + PassedBy(s)))
  }

  function UndoForTake(s: State, ok: bool, server: Addr, listed: seq<Listed>, k: nat, fine: bool): State {
    if k == 0 then (if fine then s.(section := TakeDrop(server)) else EndTake(s, false))
    else if ok && s.backup.Some? && k <= |listed| && k <= |s.backup.value.services|
    then UndoLine(s, server, listed, k - 1, fine)
    else s.(section := TakeUndo(server, listed, k - 1, false))
  }

  predicate OfTake(section: Section) {
    section.TakeList? || section.TakeRead? || section.TakeSet? || section.TakeUndo? || section.TakeDrop?
    || section.TakeMark?
  }

  ghost function TakeStep(s: State, ok: bool, names: seq<Listed>): State
    requires ok ==> CallsCanWork(s, names)
  {
    match s.section
    case TakeList(server) => ListForTake(s, ok, server, names)
    case TakeRead(server, listed, saved) => ReadForTake(s, ok, server, listed, saved)
    case TakeSet(server, listed, k) => SetForTake(s, ok, server, listed, k)
    case TakeUndo(server, listed, k, fine) => UndoForTake(s, ok, server, listed, k, fine)
    case TakeDrop(_) => EndTake(if ok then s.(backup := None) else s, false)
    case TakeMark(_) => EndTake(if ok then s.(marker := true) else s, ok)
    case _ => s
  }

  // ---- A release under the DNS lock -----------------------------------------------------------------------

  function Unmark(s: State, ok: bool): State {
    if s.backup.None? then (if s.marker then s.(section := ReleaseOrphan) else EndRelease(s, true))
    else if ok then s.(marker := false, section := RestoreList)
    else EndRelease(s, false)
  }

  function PutBackLine(s: State, ok: bool, listed: seq<Listed>, k: nat, fine: bool): State {
    if s.backup.None? || k >= |s.backup.value.services| then s.(section := RestoreRelist(fine))
    else
      var saved := s.backup.value.services[k];
      if !IsListed(listed, saved.name) then s.(section := RestoreSet(listed, k + 1, fine))
      else if ok then
        s.(services := Written(s.services, saved.name, saved.servers, None),
           section := RestoreSet(listed, k + 1, fine))
      else s.(section := RestoreSet(listed, k + 1, false))
  }

  ghost predicate ReadsClean(s: State, name: Name)
    requires Exists(s.services, name)
  {
    s.backup.Some? && !MayDepend(s.backup.value, name, DnsOf(s.services, name), s.loopback)
  }

  ghost function VerifyLine(s: State, ok: bool, listed: seq<Listed>, k: nat, fine: bool): State
    requires ok && k < |listed| ==> Exists(s.services, listed[k].name)
  {
    if k >= |listed| then (if fine then s.(section := RestoreDrop) else EndRelease(s, false))
    else if ok then
      s.(section := RestoreVerify(listed, k + 1, fine && ReadsClean(s, listed[k].name)),
         misread := s.misread + PassedBy(s))
    else s.(section := RestoreVerify(listed, k + 1, false))
  }

  ghost function ReleaseStep(s: State, ok: bool, names: seq<Listed>): State
    requires ok ==> CallsCanWork(s, names)
  {
    match s.section
    case ReleaseMark => Unmark(s, ok)
    case ReleaseOrphan => if ok then EndRelease(s.(marker := false), true) else EndRelease(s, false)
    case RestoreList => if ok then s.(section := RestoreSet(names, 0, true)) else EndRelease(s, false)
    case RestoreSet(listed, k, fine) => PutBackLine(s, ok, listed, k, fine)
    case RestoreRelist(fine) =>
      if ok then s.(section := RestoreVerify(names, 0, fine), misread := {}) else EndRelease(s, false)
    case RestoreVerify(listed, k, fine) => VerifyLine(s, ok, listed, k, fine)
    case RestoreDrop => if ok then EndRelease(s.(backup := None), true) else EndRelease(s, false)
    case _ => s
  }

  // ---- A watchdog cycle under the DNS lock ----------------------------------------------------------------

  function ListForTick(s: State, ok: bool, server: Addr, names: seq<Listed>): State {
    if !ok || s.backup.None? || !s.marker then s.(section := Free) else s.(section := TickRead(server, names, 0, []))
  }

  ghost function ReadForTick(s: State, ok: bool, server: Addr, listed: seq<Listed>, k: nat, found: seq<Saved>): State
    requires s.backup.Some? && k < |listed| && (ok ==> Exists(s.services, listed[k].name))
  {
    var name := listed[k].name;
    if FindSaved(s.backup.value.services, name).Some? then s.(section := TickRead(server, listed, k + 1, found))
    else if !ok then s.(section := Free)
    else s.(section := TickRead(server, listed, k + 1, found + [Saved(name, DnsOf(s.services, name))]))
  }

  /** Restore data and address history are on disk before any service is touched. */
  function PrepareTick(s: State, ok: bool, server: Addr, found: seq<Saved>): State
    requires s.backup.Some?
  {
    var grown := Grown(s.backup.value, found, server, s.loopback);
    if grown.None? then s.(section := Free)
    else
      var ready := Remembering(grown.value, server);
      if ready != s.backup.value && !ok then s.(section := Free)
      else s.(backup := Some(ready), section := TickDrift(server, [], 0))
  }

  ghost function ScanForTick(s: State, ok: bool, server: Addr, listed: seq<Listed>, k: nat, found: seq<Saved>): State
    requires ok && k < |listed| ==> Exists(s.services, listed[k].name)
  {
    if s.backup.None? then s.(section := Free)
    else if k < |listed| then ReadForTick(s, ok, server, listed, k, found)
    else PrepareTick(s, ok, server, found)
  }

  ghost function DriftForTick(s: State, ok: bool, server: Addr, drifted: seq<Name>, k: nat): State {
    if !ok || s.backup.None? then s.(section := Free)
    else if k >= |s.backup.value.services| then
      s.(section := if drifted == [] then Free else TickSet(server, drifted, 0))
    else
      var name := s.backup.value.services[k].name;
      var drifts := Exists(s.services, name) && DnsOf(s.services, name) != [Plain(server)];
      s.(section := TickDrift(server, if drifts then drifted + [name] else drifted, k + 1))
  }

  function SetForTick(s: State, ok: bool, server: Addr, drifted: seq<Name>, k: nat): State {
    if k >= |drifted| then s.(section := Free)
    else if ok then
      s.(services := Written(s.services, drifted[k], [Plain(server)], Some(server)),
         section := TickSet(server, drifted, k + 1))
    else s.(section := TickSet(server, drifted, k + 1))
  }

  ghost function TickStep(s: State, ok: bool, names: seq<Listed>): State
    requires ok ==> CallsCanWork(s, names)
  {
    match s.section
    case TickList(server) => ListForTick(s, ok, server, names)
    case TickRead(server, listed, k, found) => ScanForTick(s, ok, server, listed, k, found)
    case TickDrift(server, drifted, k) => DriftForTick(s, ok, server, drifted, k)
    case TickSet(server, drifted, k) => SetForTick(s, ok, server, drifted, k)
    case _ => s
  }

  // ---- Steps -------------------------------------------------------------------------------------------------

  ghost function SectionStep(s: State, ok: bool, names: seq<Listed>): State
    requires ok ==> CallsCanWork(s, names)
  {
    if OfTake(s.section) then TakeStep(s, ok, names)
    else if OfDaemon(s.section) then TickStep(s, ok, names)
    else ReleaseStep(s, ok, names)
  }

  /** The services have changed by themselves. */
  function Changed(s: State, services: map<Sid, Service>): State {
    s.(services := services, misread := StillOurs(services, s.misread))
  }

  ghost function Step(s: State, e: Event): State
    requires Enabled(s, e)
  {
    match e
    case StartBegins(server) => s.(command := StartChecking(server))
    case StopBegins => s.(command := StopWaiting)
    case CommandSteps(ok) => CommandStep(s, ok)
    case TickBegins(server) => s.(section := TickList(server))
    case SectionSteps(ok, names) => SectionStep(s, ok, names)
    case CommandDies =>
      if OfDaemon(s.section) then s.(command := NoCommand) else s.(command := NoCommand, section := Free, misread := {})
    case DaemonDies => if OfDaemon(s.section) then s.(section := Free) else s
    case Appears(sid, service) => Changed(s.(used := s.used + {sid}), s.services[sid := service])
    case Vanishes(sid) => Changed(s, s.services - {sid})
    case Renamed(sid, name) => Changed(s, s.services[sid := s.services[sid].(name := name)])
    case Rewritten(sid, dns) => Changed(s, s.services[sid := s.services[sid].(dns := dns, ours := None)])
    case Toggled(sid) => Changed(s, s.services[sid := s.services[sid].(enabled := !s.services[sid].enabled)])
  }

  // ---- Runs ---------------------------------------------------------------------------------------------------

  ghost predicate Legal(s: State, run: seq<Event>)
    decreases |run|
  {
    run == [] || (Enabled(s, run[0]) && Legal(Step(s, run[0]), run[1..]))
  }

  ghost function Final(s: State, run: seq<Event>): State
    requires Legal(s, run)
    decreases |run|
  {
    if run == [] then s else Final(Step(s, run[0]), run[1..])
  }

  ghost predicate NamesUnique(services: map<Sid, Service>) {
    forall a, b | a in services && b in services && services[a].name == services[b].name :: a == b
  }

  /** A machine on which DNSRivet has not written anything yet. */
  ghost predicate Untouched(s: State) {
    s.backup.None? && !s.marker && s.section.Free? && s.command.NoCommand? && s.misread == {}
    && NamesUnique(s.services) && s.services.Keys <= s.used
    && forall sid | sid in s.services :: s.services[sid].ours.None?
  }

  /** The backup goes while a service the check went past still carries our list. */
  predicate Escapes(s: State, e: Event) {
    e.SectionSteps? && e.ok && (s.section.TakeDrop? || s.section.RestoreDrop?) && s.misread != {}
  }
}
