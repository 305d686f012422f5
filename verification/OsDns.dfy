/** Pointing every network service at the proxy, keeping watch, and putting the original DNS back. */
module OsDns {
  import opened Prelude

  type Name = string
  type Addr = nat

  /** One configured DNS server as text: the usual spelling of an address, another spelling of it, or something else. */
  datatype Server = Plain(addr: Addr) | Alias(addr: Addr, text: string) | Opaque(text: string)

  type DnsList = seq<Server>

  datatype TickOutcome = NotActive | Clean | Reasserted(corrected: seq<Name>) | Failed

  datatype Saved = Saved(name: Name, servers: DnsList)

  /** `history` holds every address used since the takeover; None in a backup too old to have recorded it. */
  datatype Backup = Backup(services: seq<Saved>, history: Option<seq<Addr>>)

  predicate Uses(servers: DnsList, addrs: seq<Addr>) {
    exists i | 0 <= i < |servers| :: !servers[i].Opaque? && servers[i].addr in addrs
  }

  predicate UsesLoopback(servers: DnsList, loopback: Addr -> bool) {
    exists i | 0 <= i < |servers| :: !servers[i].Opaque? && loopback(servers[i].addr)
  }

  function FindSaved(services: seq<Saved>, name: Name): (r: Option<nat>)
    ensures r.Some? ==> r.value < |services| && services[r.value].name == name
    ensures r.None? ==> forall i | 0 <= i < |services| :: services[i].name != name
  {
    if services == [] then None
    else if services[0].name == name then Some(0)
    else
      match FindSaved(services[1..], name)
      case None => None
      case Some(i) => Some(i + 1)
  }

  /** Without a history only the exact original list proves that a loopback server belongs to another tool. */
  predicate MayDepend(b: Backup, name: Name, servers: DnsList, loopback: Addr -> bool) {
    match b.history
    case Some(takeovers) => Uses(servers, takeovers)
    case None =>
      var original := FindSaved(b.services, name);
      !(original.Some? && b.services[original.value].servers == servers) && UsesLoopback(servers, loopback)
  }

  /** One of the servers is an address, however it is spelled, that `addrs` has. */
  ghost predicate Names(server: Server, addrs: set<Addr>) {
    match server
    case Plain(a) => a in addrs
    case Alias(a, _) => a in addrs
    case Opaque(_) => false
  }

  /**
   * With a history: one of its addresses is listed. Without one: a loopback address is listed, and the list is not the
   * one saved for the service of that name.
   */
  lemma MayDependExactly(b: Backup, name: Name, servers: DnsList, loopback: Addr -> bool)
    requires UniqueNames(b.services)
    ensures MayDepend(b, name, servers, loopback) <==>
            if b.history.Some? then
              exists s, a | s in servers && a in b.history.value :: Names(s, {a})
            else
              (exists s, a | s in servers && loopback(a) :: Names(s, {a})) && Saved(name, servers) !in b.services
  {
    if b.history.Some? {
      UsesExactly(servers, b.history.value);
    } else {
      UsesLoopbackExactly(servers, loopback);
      var i := FindSaved(b.services, name);
      if Saved(name, servers) in b.services {
        var j :| 0 <= j < |b.services| && b.services[j] == Saved(name, servers);
        assert i.Some? && b.services[i.value].name == b.services[j].name;
      }
    }
  }

  lemma UsesExactly(servers: DnsList, addrs: seq<Addr>)
    ensures Uses(servers, addrs) <==> exists s, a | s in servers && a in addrs :: Names(s, {a})
  {
    if Uses(servers, addrs) {
      var i :| 0 <= i < |servers| && !servers[i].Opaque? && servers[i].addr in addrs;
      assert servers[i] in servers && Names(servers[i], {servers[i].addr});
    }
    forall s, a | s in servers && a in addrs && Names(s, {a}) ensures Uses(servers, addrs) {
      var i :| 0 <= i < |servers| && servers[i] == s;
    }
  }

  lemma UsesLoopbackExactly(servers: DnsList, loopback: Addr -> bool)
    ensures UsesLoopback(servers, loopback) <==> exists s, a | s in servers && loopback(a) :: Names(s, {a})
  {
    if UsesLoopback(servers, loopback) {
      var i :| 0 <= i < |servers| && !servers[i].Opaque? && loopback(servers[i].addr);
      assert servers[i] in servers && Names(servers[i], {servers[i].addr});
    }
    forall s, a | s in servers && loopback(a) && Names(s, {a}) ensures UsesLoopback(servers, loopback) {
      var i :| 0 <= i < |servers| && servers[i] == s;
    }
  }

  ghost predicate UniqueNames(services: seq<Saved>) {
    forall i, j | 0 <= i < j < |services| :: services[i].name != services[j].name
  }

  /** `later` keeps every entry and every address of `b` where it was. */
  ghost predicate Extends(b: Backup, later: Backup) {
    b.services <= later.services
    && (b.history.None? ==> later.history.None?)
    && (b.history.Some? ==> later.history.Some? && b.history.value <= later.history.value)
  }

  /** Every entry added after the first `n` was read without a trace of the takeover. */
  ghost predicate CleanAdditions(b: Backup, n: nat, server: Addr, loopback: Addr -> bool) {
    forall i | n <= i < |b.services| ::
      Plain(server) !in b.services[i].servers
      && (b.history.Some? ==> !Uses(b.services[i].servers, b.history.value))
      && (b.history.None? ==> !UsesLoopback(b.services[i].servers, loopback))
  }

  /** Record services that appeared since the takeover; None when one may already use the proxy. */
  function Grown(b: Backup, found: seq<Saved>, server: Addr, loopback: Addr -> bool): Option<Backup> {
    if found == [] then Some(b)
    else
      var before := Grown(b, found[..|found| - 1], server, loopback);
      var last := found[|found| - 1];
      if before.None? || FindSaved(before.value.services, last.name).Some? then before
      else if Plain(server) in last.servers || MayDepend(before.value, last.name, last.servers, loopback) then None
      else Some(before.value.(services := before.value.services + [last]))
  }

  /** The address joins the history, where there is one. */
  function Remembering(b: Backup, server: Addr): Backup {
    if b.history.Some? && server !in b.history.value then b.(history := Some(b.history.value + [server])) else b
  }

  lemma AppendExtends(b: Backup, before: Backup, last: Saved, server: Addr, loopback: Addr -> bool)
    requires Extends(b, before) && before.history == b.history && UniqueNames(before.services)
    requires CleanAdditions(before, |b.services|, server, loopback) && FindSaved(before.services, last.name).None?
    requires Plain(server) !in last.servers && !MayDepend(before, last.name, last.servers, loopback)
    ensures var later := before.(services := before.services + [last]);
            Extends(b, later) && UniqueNames(later.services) && CleanAdditions(later, |b.services|, server, loopback)
            && NamesOf(later.services) == NamesOf(before.services) + {last.name}
  {
    var later := before.services + [last];
    NamesOfMore(later, |before.services|);
    assert later[..|before.services| + 1] == later && later[..|before.services|] == before.services;
  }

  lemma {:induction false} GrownExtends(b: Backup, found: seq<Saved>, server: Addr, loopback: Addr -> bool)
    requires UniqueNames(b.services) && Grown(b, found, server, loopback).Some?
    ensures var later := Grown(b, found, server, loopback).value;
            Extends(b, later) && later.history == b.history && UniqueNames(later.services)
            && CleanAdditions(later, |b.services|, server, loopback)
            && NamesOf(later.services) == NamesOf(b.services) + NamesOf(found)
    decreases |found|
  {
    if found == [] {
    } else {
      var most := found[..|found| - 1];
      GrownExtends(b, most, server, loopback);
      NamesOfMore(found, |most|);
      assert found[..|most| + 1] == found;
      var before := Grown(b, most, server, loopback).value;
      var last := found[|most|];
      if FindSaved(before.services, last.name).None? {
        AppendExtends(b, before, last, server, loopback);
      }
    }
  }

  lemma {:induction false} GrownPrefix(b: Backup, found: seq<Saved>, k: nat, server: Addr, loopback: Addr -> bool)
    requires k <= |found| && Grown(b, found[..k], server, loopback).None?
    ensures Grown(b, found, server, loopback).None?
    decreases |found|
  {
    if k < |found| {
      assert found[..|found| - 1][..k] == found[..k];
      GrownPrefix(b, found[..|found| - 1], k, server, loopback);
    } else {
      assert found[..k] == found;
    }
  }

  /** Every saved list is what the service had in `was`. */
  ghost predicate SavedFrom(services: seq<Saved>, was: map<Name, DnsList>) {
    forall i | 0 <= i < |services| :: services[i].name in was && services[i].servers == was[services[i].name]
  }

  function NamesOf(services: seq<Saved>): set<Name> {
    set i | 0 <= i < |services| :: services[i].name
  }

  ghost predicate NoDuplicates(names: seq<Name>) {
    forall i, j | 0 <= i < j < |names| :: names[i] != names[j]
  }

  /** Each of `names` points at the proxy alone, every other service is as it was. */
  ghost predicate Switched(dns: map<Name, DnsList>, was: map<Name, DnsList>, names: set<Name>, server: Addr) {
    dns.Keys == was.Keys && forall n | n in dns :: dns[n] == if n in names then [Plain(server)] else was[n]
  }

  lemma NamesOfMore(services: seq<Saved>, k: nat)
    requires k < |services|
    ensures NamesOf(services[..k + 1]) == NamesOf(services[..k]) + {services[k].name}
    ensures UniqueNames(services) ==> services[k].name !in NamesOf(services[..k])
  {
    var more, less := services[..k + 1], services[..k];
    assert forall i | 0 <= i < k :: more[i] == less[i];
    assert more[k] == services[k];
  }

  lemma SwitchOne(dns: map<Name, DnsList>, was: map<Name, DnsList>, services: seq<Saved>, k: nat, server: Addr)
    requires k < |services| && Switched(dns, was, NamesOf(services[..k]), server) && services[k].name in dns
    ensures Switched(dns[services[k].name := [Plain(server)]], was, NamesOf(services[..k + 1]), server)
  {
    NamesOfMore(services, k);
  }

  lemma UnswitchOne(dns: map<Name, DnsList>, was: map<Name, DnsList>, services: seq<Saved>, k: nat, server: Addr)
    requires k < |services| && UniqueNames(services) && SavedFrom(services, was) && services[k].name in dns
    requires Switched(dns, was, NamesOf(services[..k + 1]), server)
    ensures Switched(dns[services[k].name := services[k].servers], was, NamesOf(services[..k]), server)
  {
    NamesOfMore(services, k);
  }

  /**
   * What a restoration may leave of the settings `was`: no service comes or goes and none outside the backup changes;
   * if the backup has been dropped, each saved service that exists has its own list again and none uses the proxy.
   */
  ghost predicate RestoreOutcome(b: Backup, was: map<Name, DnsList>, now: map<Name, DnsList>, dropped: bool,
                                 loopback: Addr -> bool)
  {
    now.Keys == was.Keys && (forall n | n in now && n !in NamesOf(b.services) :: now[n] == was[n])
    && (dropped ==>
          (forall i | 0 <= i < |b.services| && b.services[i].name in now ::
             now[b.services[i].name] == b.services[i].servers)
          && forall n | n in now :: !MayDepend(b, n, now[n], loopback))
  }

  /**
   * What a takeover may leave of the settings `was`. Done, it has saved the list of each enabled service and pointed it
   * at the proxy alone, and set the marker. Otherwise without a backup all is as it was, and with one the backup says
   * how it was.
   */
  ghost predicate TakeOutcome(was: map<Name, DnsList>, enabled: set<Name>, now: map<Name, DnsList>,
                              backup: Option<Backup>, done: bool, server: Addr)
  {
    now.Keys == was.Keys
    && (done ==> backup.Some?)
    && (backup.None? ==> now == was)
    && (backup.Some? ==>
          backup.value.history == Some([server]) && UniqueNames(backup.value.services)
          && SavedFrom(backup.value.services, was) && NamesOf(backup.value.services) == was.Keys * enabled
          && forall n | n in now :: now[n] == was[n] || now[n] == [Plain(server)])
    && (done ==> Switched(now, was, was.Keys * enabled, server))
  }

  /**
   * The operating system's DNS settings with the two files that record a takeover. Calls on the system are counted;
   * `works` says which succeed, and one that fails has changed nothing.
   */
  class MacDns {
    const loopback: Addr -> bool
    const works: nat -> bool
    var calls: nat
    var dns: map<Name, DnsList>
    var enabled: set<Name>
    var backup: Option<Backup>
    var marker: bool

    constructor (loopback: Addr -> bool, works: nat -> bool, dns: map<Name, DnsList>, enabled: set<Name>)
      ensures this.dns == dns && this.enabled == enabled && backup.None? && !marker && calls == 0
      ensures this.loopback == loopback && this.works == works
    {
      this.loopback, this.works, calls := loopback, works, 0;
      this.dns, this.enabled, backup, marker := dns, enabled, None, false;
    }

    /** Every call from number `n` on works. */
    ghost predicate AllWork(n: nat) {
      forall i | n <= i :: works(i)
    }

    /** At most one of the calls from number `n` on fails. */
    ghost predicate OneFails(n: nat) {
      exists f :: AllButOne(n, f)
    }

    ghost predicate AllButOne(n: nat, f: int) {
      forall i | n <= i && i != f :: works(i)
    }

    /** Once a call has failed that was allowed to, all the others work. */
    lemma NoSecondFailure(n: nat, failed: nat)
      requires OneFails(n) && n <= failed && !works(failed)
      ensures AllWork(failed + 1)
    {
    }

    lemma FewerFail(n: nat, later: nat)
      requires OneFails(n) && n <= later
      ensures OneFails(later)
    {
      var f :| AllButOne(n, f);
      assert AllButOne(later, f);
    }

    method Try() returns (ok: bool)
      modifies this`calls
      ensures ok == works(old(calls)) && calls == old(calls) + 1
    {
      ok := works(calls);
      calls := calls + 1;
    }

    method ListServices(all: bool) returns (r: Option<seq<Name>>)
      modifies this`calls
      ensures calls == old(calls) + 1 && (r.Some? <==> works(old(calls)))
      ensures r.Some? ==> NoDuplicates(r.value) && forall n :: n in r.value <==> n in dns && (all || n in enabled)
    {
      var ok := Try();
      if !ok {
        return None;
      }
      var rest := if all then dns.Keys else dns.Keys * enabled;
      ghost var wanted := rest;
      var names: seq<Name> := [];
      while rest != {}
        invariant rest <= wanted && NoDuplicates(names)
        invariant forall n :: n in names <==> n in wanted && n !in rest
        decreases |rest|
      {
        var n :| n in rest;
        names := names + [n];
        rest := rest - {n};
      }
      return Some(names);
    }

    method GetServers(name: Name) returns (r: Option<DnsList>)
      modifies this`calls
      ensures calls == old(calls) + 1 && (r.Some? <==> works(old(calls)) && name in dns)
      ensures r.Some? ==> r.value == dns[name]
    {
      var ok := Try();
      if !ok || name !in dns {
        return None;
      }
      return Some(dns[name]);
    }

    method SetServers(name: Name, servers: DnsList) returns (ok: bool)
      modifies this`dns, this`calls
      ensures calls == old(calls) + 1 && ok == (works(old(calls)) && name in old(dns))
      ensures dns == if ok then old(dns)[name := servers] else old(dns)
    {
      ok := Try();
      if !ok || name !in dns {
        return false;
      }
      dns := dns[name := servers];
    }

    method WriteBackup(b: Backup) returns (ok: bool)
      modifies this`backup, this`calls
      ensures calls == old(calls) + 1 && ok == works(old(calls))
      ensures backup == if ok then Some(b) else old(backup)
    {
      ok := Try();
      if ok {
        backup := Some(b);
      }
    }

    method RemoveBackup() returns (ok: bool)
      modifies this`backup, this`calls
      ensures calls == old(calls) + 1 && ok == works(old(calls))
      ensures backup == if ok then None else old(backup)
    {
      ok := Try();
      if ok {
        backup := None;
      }
    }

    method SetMarker(present: bool) returns (ok: bool)
      modifies this`marker, this`calls
      ensures calls == old(calls) + 1 && ok == works(old(calls))
      ensures marker == if ok then present else old(marker)
    {
      ok := Try();
      if ok {
        marker := present;
      }
    }

    // ---- Taking over ------------------------------------------------------------------------------

    /** Some service is enabled, and none that is lists the proxy already. */
    ghost predicate CanTake(server: Addr)
      reads this`dns, this`enabled
    {
      (exists n :: n in dns && n in enabled) && forall n | n in dns && n in enabled :: Plain(server) !in dns[n]
    }

    /** Save the list of every enabled service, refusing one that already names the proxy. */
    method Snapshot(server: Addr) returns (r: Option<seq<Saved>>)
      modifies this`calls
      ensures calls >= old(calls) && (AllWork(old(calls)) ==> (r.Some? <==> CanTake(server)))
      ensures r.Some? ==> r.value != [] && UniqueNames(r.value) && SavedFrom(r.value, dns)
      ensures r.Some? ==>
                forall n :: n in dns && n in enabled <==> exists i | 0 <= i < |r.value| :: r.value[i].name == n
      ensures r.Some? ==> forall i | 0 <= i < |r.value| :: Plain(server) !in r.value[i].servers
    {
      var names := ListServices(false);
      if names.None? {
        return None;
      }
      var saved: seq<Saved> := [];
      while |saved| < |names.value|
        invariant calls >= old(calls) && |saved| <= |names.value| && SavedFrom(saved, dns)
        invariant forall i | 0 <= i < |saved| :: saved[i].name == names.value[i] && Plain(server) !in saved[i].servers
        decreases |names.value| - |saved|
      {
        var name := names.value[|saved|];
        var servers := GetServers(name);
        if servers.None? || Plain(server) in servers.value {
          return None;
        }
        saved := saved + [Saved(name, servers.value)];
      }
      if saved == [] {
        return None;
      }
      assert CanTake(server) by {
        assert saved[0].name in dns && saved[0].name in enabled;
        forall n | n in dns && n in enabled ensures Plain(server) !in dns[n] {
          var i :| 0 <= i < |names.value| && names.value[i] == n;
          assert saved[i].name == n;
        }
      }
      forall n ensures n in dns && n in enabled <==> exists i | 0 <= i < |saved| :: saved[i].name == n {
        if n in dns && n in enabled {
          var i :| 0 <= i < |names.value| && names.value[i] == n;
          assert saved[i].name == n;
        }
      }
      return Some(saved);
    }

    /** One more write leaves every service with its old list or on the proxy. */
    lemma MixedAfter(before: map<Name, DnsList>, after: map<Name, DnsList>, was: map<Name, DnsList>,
                     services: seq<Saved>, k: nat, server: Addr, done: bool)
      requires k < |services| && SavedFrom(services, was)
      requires before.Keys == was.Keys && forall n | n in before :: before[n] == was[n] || before[n] == [Plain(server)]
      requires after == if done then before[services[k].name := services[k].servers] else before
      ensures after.Keys == was.Keys && forall n | n in after :: after[n] == was[n] || after[n] == [Plain(server)]
    {
    }

    /** Undo the services changed so far, last first. */
    method Rollback(b: Backup, changed: nat, server: Addr, ghost was: map<Name, DnsList>) returns (ok: bool)
      requires UniqueNames(b.services) && SavedFrom(b.services, was) && changed <= |b.services|
      requires Switched(dns, was, NamesOf(b.services[..changed]), server)
      modifies this`dns, this`calls
      ensures calls == old(calls) + changed && (AllWork(old(calls)) ==> ok)
      ensures ok ==> dns == was
      ensures dns.Keys == was.Keys && forall n | n in dns :: dns[n] == was[n] || dns[n] == [Plain(server)]
    {
      ok := true;
      var k := changed;
      while k > 0
        invariant 0 <= k <= changed && calls == old(calls) + changed - k && (AllWork(old(calls)) ==> ok)
        invariant dns.Keys == was.Keys && forall n | n in dns :: dns[n] == was[n] || dns[n] == [Plain(server)]
        invariant ok ==> Switched(dns, was, NamesOf(b.services[..k]), server)
      {
        k := k - 1;
        ghost var before := dns;
        var done := SetServers(b.services[k].name, b.services[k].servers);
        if !done {
          ok := false;
        } else if ok {
          UnswitchOne(before, was, b.services, k, server);
        }
        MixedAfter(before, dns, was, b.services, k, server, done);
      }
    }

    /** Point the saved services at the proxy in order, up to the first failure. */
    method SwitchAll(services: seq<Saved>, server: Addr) returns (done: nat)
      requires SavedFrom(services, dns)
      modifies this`dns, this`calls
      ensures done <= |services| && Switched(dns, old(dns), NamesOf(services[..done]), server)
      ensures calls == old(calls) + done + (if done < |services| then 1 else 0)
      ensures done < |services| ==> !works(calls - 1)
    {
      assert NamesOf(services[..0]) == {};
      done := 0;
      while done < |services|
        invariant done <= |services| && Switched(dns, old(dns), NamesOf(services[..done]), server)
        invariant calls == old(calls) + done && dns.Keys == old(dns).Keys
      {
        ghost var before := dns;
        var ok := SetServers(services[done].name, [Plain(server)]);
        if !ok {
          return;
        }
        SwitchOne(before, old(dns), services, done, server);
        done := done + 1;
      }
    }

    /** Switch the saved services; if one cannot be, undo the others and give the backup up once that is done. */
    method SwitchOrUndo(b: Backup, server: Addr) returns (ok: bool)
      requires backup == Some(b) && UniqueNames(b.services) && SavedFrom(b.services, dns)
      modifies this`dns, this`backup, this`calls
      ensures calls >= old(calls) && (AllWork(old(calls)) ==> ok) && (OneFails(old(calls)) && !ok ==> backup.None?)
      ensures ok ==> backup == Some(b) && Switched(dns, old(dns), NamesOf(b.services), server)
      ensures backup == Some(b) || (backup.None? && dns == old(dns))
      ensures dns.Keys == old(dns).Keys && forall n | n in dns :: dns[n] == old(dns)[n] || dns[n] == [Plain(server)]
    {
      ghost var was := dns;
      var k := SwitchAll(b.services, server);
      if k < |b.services| {
        var undone := Rollback(b, k, server, was);
        if undone {
          var _ := RemoveBackup();
        }
        return false;
      }
      assert b.services[..k] == b.services;
      return true;
    }

    method TakeOver(server: Addr) returns (ok: bool)
      modifies this`dns, this`backup, this`marker, this`calls
      ensures AllWork(old(calls)) ==> (ok <==> old(backup).None? && old(CanTake(server)))
      ensures OneFails(old(calls)) && !ok && old(backup).None? && backup.Some? ==>
                Switched(dns, old(dns), old(dns).Keys * old(enabled), server) && marker == old(marker)
      ensures old(backup).Some? ==> !ok && backup == old(backup) && dns == old(dns) && marker == old(marker)
      ensures old(backup).None? ==> TakeOutcome(old(dns), enabled, dns, backup, ok, server)
      ensures marker == (ok || old(marker))
    {
      if backup.Some? {
        return false;
      }
      var saved := Snapshot(server);
      if saved.None? {
        return false;
      }
      var b := Backup(saved.value, Some([server]));
      var written := WriteBackup(b);
      if !written {
        return false;
      }
      if OneFails(old(calls)) {
        FewerFail(old(calls), calls);
      }
      var switched := SwitchOrUndo(b, server);
      if !switched {
        return false;
      }
      ok := SetMarker(true);
    }

    // ---- Putting it back --------------------------------------------------------------------------

    /** Write every saved list back to the services that still exist. */
    method PutBack(b: Backup, listed: seq<Name>) returns (ok: bool)
      requires UniqueNames(b.services) && forall n :: n in listed <==> n in dns
      modifies this`dns, this`calls
      ensures calls >= old(calls) && (AllWork(old(calls)) ==> ok)
      ensures dns.Keys == old(dns).Keys
      ensures forall n | n in dns && n !in NamesOf(b.services) :: dns[n] == old(dns)[n]
      ensures ok ==> forall i | 0 <= i < |b.services| && b.services[i].name in dns ::
                       dns[b.services[i].name] == b.services[i].servers
    {
      ok := true;
      var k := 0;
      while k < |b.services|
        invariant k <= |b.services| && dns.Keys == old(dns).Keys
        invariant calls >= old(calls) && (AllWork(old(calls)) ==> ok)
        invariant forall n | n in dns && n !in NamesOf(b.services) :: dns[n] == old(dns)[n]
        invariant ok ==> forall i | 0 <= i < k && b.services[i].name in dns ::
                           dns[b.services[i].name] == b.services[i].servers
      {
        if b.services[k].name in listed {
          var done := SetServers(b.services[k].name, b.services[k].servers);
          if !done {
            ok := false;
          }
        }
        k := k + 1;
      }
    }

    /** No service may still use the proxy. */
    ghost predicate Independent(b: Backup)
      reads this`dns
    {
      forall n | n in dns :: !MayDepend(b, n, dns[n], loopback)
    }

    /** Look at every service there is now: none may still use the proxy. */
    method Verify(b: Backup) returns (ok: bool)
      modifies this`calls
      ensures calls >= old(calls) && (AllWork(old(calls)) ==> (ok <==> Independent(b)))
      ensures ok ==> forall n | n in dns :: !MayDepend(b, n, dns[n], loopback)
    {
      var names := ListServices(true);
      if names.None? {
        return false;
      }
      ok := true;
      var k := 0;
      while k < |names.value|
        invariant k <= |names.value| && calls >= old(calls)
        invariant AllWork(old(calls)) && !ok ==> !Independent(b)
        invariant ok ==> forall i | 0 <= i < k ::
                           names.value[i] in dns && !MayDepend(b, names.value[i], dns[names.value[i]], loopback)
      {
        var servers := GetServers(names.value[k]);
        if servers.None? || MayDepend(b, names.value[k], servers.value, loopback) {
          ok := false;
        }
        k := k + 1;
      }
    }

    /** Restore and verify before the recovery data goes; any failure keeps it for another try. */
    method RestoreAt() returns (ok: bool)
      requires backup.Some? && UniqueNames(backup.value.services)
      modifies this`dns, this`backup, this`calls
      ensures AllWork(old(calls)) ==> (ok <==> Independent(old(backup).value))
      ensures RestoreOutcome(old(backup).value, old(dns), dns, ok, loopback)
      ensures backup == if ok then None else old(backup)
    {
      var b := backup.value;
      var listed := ListServices(true);
      if listed.None? {
        return false;
      }
      var put := PutBack(b, listed.value);
      var clean := Verify(b);
      if !put || !clean {
        return false;
      }
      ok := RemoveBackup();
    }

    /** Each saved service that still exists has its own list again, and nothing uses the proxy. */
    ghost predicate Restored(b: Backup)
      reads this
    {
      (forall i | 0 <= i < |b.services| && b.services[i].name in dns ::
         dns[b.services[i].name] == b.services[i].servers)
      && forall n | n in dns :: !MayDepend(b, n, dns[n], loopback)
    }

    /** No service lists a loopback address. */
    ghost predicate OffLoopback()
      reads this`dns
    {
      forall n | n in dns :: !UsesLoopback(dns[n], loopback)
    }

    method PointsAtLoopback() returns (r: Option<bool>)
      modifies this`calls
      ensures calls >= old(calls) && (AllWork(old(calls)) ==> r == Some(!OffLoopback()))
      ensures r == Some(false) ==> OffLoopback()
    {
      var resolver := Try();
      if !resolver {
        return None;
      }
      var names := ListServices(true);
      if names.None? {
        return None;
      }
      var k := 0;
      while k < |names.value|
        invariant k <= |names.value| && calls >= old(calls)
        invariant forall i | 0 <= i < k :: names.value[i] in dns && !UsesLoopback(dns[names.value[i]], loopback)
      {
        var servers := GetServers(names.value[k]);
        if servers.None? {
          return None;
        }
        if UsesLoopback(servers.value, loopback) {
          return Some(true);
        }
        k := k + 1;
      }
      return Some(false);
    }

    /** The stop command's part: None on refusal, else whether there was anything to restore. */
    method Release() returns (r: Option<bool>)
      requires backup.Some? ==> UniqueNames(backup.value.services)
      modifies this`dns, this`backup, this`marker, this`calls
      ensures AllWork(old(calls)) ==>
                (r.Some? <==> if old(backup).Some? then Independent(old(backup).value)
                              else !old(marker) || OffLoopback())
      ensures dns.Keys == old(dns).Keys
      ensures r == Some(true) ==> old(backup).Some? && backup.None? && !marker && Restored(old(backup).value)
      ensures r == Some(false) ==> old(backup).None? && backup.None? && !marker && dns == old(dns)
                                   && (old(marker) ==> OffLoopback())
      ensures r.None? ==> backup == old(backup) && (backup.None? ==> dns == old(dns) && marker == old(marker))
    {
      if backup.None? {
        if marker {
          var stranded := PointsAtLoopback();
          if stranded != Some(false) {
            return None;
          }
          var removed := SetMarker(false);
          return if removed then Some(false) else None;
        }
        return Some(false);
      }
      var removed := SetMarker(false);
      if !removed {
        return None;
      }
      var ok := RestoreAt();
      return if ok then Some(true) else None;
    }

    // ---- Keeping watch ----------------------------------------------------------------------------

    method AddNewServices(b: Backup, found: seq<Saved>, server: Addr) returns (r: Option<Backup>)
      requires UniqueNames(b.services)
      ensures r == Grown(b, found, server, loopback)
    {
      var grown := b;
      var k := 0;
      while k < |found|
        invariant k <= |found| && Grown(b, found[..k], server, loopback) == Some(grown)
      {
        assert found[..k + 1][..k] == found[..k];
        if FindSaved(grown.services, found[k].name).None? {
          if Plain(server) in found[k].servers || MayDepend(grown, found[k].name, found[k].servers, loopback) {
            GrownPrefix(b, found, k + 1, server, loopback);
            return None;
          }
          grown := grown.(services := grown.services + [found[k]]);
        }
        k := k + 1;
      }
      assert found[..k] == found;
      return Some(grown);
    }

    /** Restore data and address history are on disk before the watchdog changes any service. */
    method PrepareBackup(b: Backup, found: seq<Saved>, server: Addr) returns (r: Option<Backup>)
      requires UniqueNames(b.services) && backup == Some(b)
      modifies this`backup, this`calls
      ensures calls >= old(calls)
      ensures AllWork(old(calls)) ==> (r.Some? <==> Grown(b, found, server, loopback).Some?)
      ensures r.Some? ==> backup == r && Prepared(b, r.value, found, server)
      ensures r.None? ==> backup == Some(b)
    {
      var grown := AddNewServices(b, found, server);
      if grown.None? {
        return None;
      }
      GrownExtends(b, found, server, loopback);
      var ready := grown.value;
      if ready.history.Some? && server !in ready.history.value {
        ready := ready.(history := Some(ready.history.value + [server]));
      }
      if ready != b {
        var written := WriteBackup(ready);
        if !written {
          return None;
        }
      }
      return Some(ready);
    }

    ghost predicate Prepared(b: Backup, ready: Backup, found: seq<Saved>, server: Addr) {
      Extends(b, ready) && UniqueNames(ready.services)
      && (ready.history.Some? ==> server in ready.history.value)
      && CleanAdditions(ready.(history := b.history), |b.services|, server, loopback)
      && NamesOf(ready.services) == NamesOf(b.services) + NamesOf(found)
    }

    /** The lists of the enabled services that the backup does not know yet. */
    method FindNewServices(b: Backup) returns (r: Option<seq<Saved>>)
      modifies this`calls
      ensures calls >= old(calls) && (AllWork(old(calls)) ==> r.Some?)
      ensures r.Some? ==> NamesOf(r.value) !! NamesOf(b.services) && NamesOf(r.value) <= enabled
      ensures r.Some? ==> SavedFrom(r.value, dns)
      ensures r.Some? ==> forall n | n in dns && n in enabled :: n in NamesOf(b.services) + NamesOf(r.value)
    {
      var names := ListServices(false);
      if names.None? {
        return None;
      }
      var found: seq<Saved> := [];
      var k := 0;
      while k < |names.value|
        invariant k <= |names.value| && calls >= old(calls) && SavedFrom(found, dns)
        invariant NamesOf(found) !! NamesOf(b.services) && NamesOf(found) <= enabled
        invariant forall i | 0 <= i < k :: names.value[i] in NamesOf(b.services) + NamesOf(found)
      {
        var known := FindSaved(b.services, names.value[k]);
        if known.None? {
          var servers := GetServers(names.value[k]);
          if servers.None? {
            return None;
          }
          ghost var before := found;
          found := found + [Saved(names.value[k], servers.value)];
          NamesOfMore(found, |before|);
          assert found[..|before| + 1] == found && found[..|before|] == before;
        }
        k := k + 1;
      }
      return Some(found);
    }

    /** The saved services that still exist and do not point at the proxy alone. */
    method FindDrift(b: Backup, server: Addr) returns (r: Option<seq<Name>>)
      requires UniqueNames(b.services)
      modifies this`calls
      ensures calls >= old(calls) && (AllWork(old(calls)) ==> r.Some?)
      ensures r.Some? ==> NoDuplicates(r.value)
      ensures r.Some? ==>
                forall n :: n in r.value <==> n in dns && n in NamesOf(b.services) && dns[n] != [Plain(server)]
    {
      var listed := ListServices(true);
      if listed.None? {
        return None;
      }
      var drifted: seq<Name> := [];
      var k := 0;
      while k < |b.services|
        invariant k <= |b.services| && calls >= old(calls) && NoDuplicates(drifted)
        invariant forall n :: n in drifted <==> n in dns && n in NamesOf(b.services[..k]) && dns[n] != [Plain(server)]
      {
        NamesOfMore(b.services, k);
        var name := b.services[k].name;
        if name in listed.value {
          var servers := GetServers(name);
          if servers.None? {
            return None;
          }
          if servers.value != [Plain(server)] {
            drifted := drifted + [name];
          }
        }
        k := k + 1;
      }
      assert b.services[..k] == b.services;
      return Some(drifted);
    }

    /** Point the drifted services back at the proxy; one failure does not spare the others. */
    method Reassert(names: seq<Name>, server: Addr) returns (ok: bool)
      requires forall n | n in names :: n in dns
      modifies this`dns, this`calls
      ensures calls == old(calls) + |names| && dns.Keys == old(dns).Keys
      ensures forall i | old(calls) <= i < calls && works(i) :: dns[names[i - old(calls)]] == [Plain(server)]
      ensures ok <==> forall i | old(calls) <= i < calls :: works(i)
      ensures forall n | n in dns :: dns[n] == old(dns)[n] || (n in names && dns[n] == [Plain(server)])
      ensures ok ==> forall n | n in names :: dns[n] == [Plain(server)]
    {
      ok := true;
      var k := 0;
      while k < |names|
        invariant k <= |names| && dns.Keys == old(dns).Keys && calls == old(calls) + k
        invariant forall n | n in dns :: dns[n] == old(dns)[n] || (n in names && dns[n] == [Plain(server)])
        invariant ok <==> forall i | old(calls) <= i < calls :: works(i)
        invariant forall i | old(calls) <= i < calls && works(i) :: dns[names[i - old(calls)]] == [Plain(server)]
      {
        var done := SetServers(names[k], [Plain(server)]);
        if !done {
          ok := false;
        }
        k := k + 1;
      }
      forall n | ok && n in names ensures dns[n] == [Plain(server)] {
        var i :| 0 <= i < |names| && names[i] == n;
        assert works(old(calls) + i);
      }
    }

    /** Every saved service that still exists points at the proxy alone. */
    ghost predicate Guarded(b: Backup, server: Addr)
      reads this
    {
      forall n | n in dns && n in NamesOf(b.services) :: dns[n] == [Plain(server)]
    }

    /** The service must point at the proxy alone: it is saved, enabled, or may use an old address under a new name. */
    ghost predicate Answerable(b: Backup, name: Name)
      requires name in dns
      reads this
    {
      name in NamesOf(b.services) || name in enabled || MayDepend(b, name, dns[name], loopback)
    }

    /** Read one service: must it point at the proxy alone, and does it? */
    method CheckOne(b: Backup, name: Name, active: seq<Name>, server: Addr) returns (r: Option<(bool, bool)>)
      requires forall n :: n in active <==> n in dns && n in enabled
      modifies this`calls
      ensures calls == old(calls) + 1 && (r.Some? <==> works(old(calls)) && name in dns)
      ensures r.Some? ==> r.value == (Answerable(b, name), dns[name] == [Plain(server)])
    {
      var servers := GetServers(name);
      if servers.None? {
        return None;
      }
      var needed := FindSaved(b.services, name).Some? || name in active || MayDepend(b, name, servers.value, loopback);
      return Some((needed, servers.value == [Plain(server)]));
    }

    /** The restart command's read-only check; None when the system could not be read. */
    method TakeoverIntact(b: Backup, server: Addr) returns (r: Option<bool>)
      modifies this`calls
      ensures AllWork(old(calls)) ==> r.Some?
      ensures r == Some(true) ==> (forall n | n in dns && Answerable(b, n) :: dns[n] == [Plain(server)])
                                  && exists n :: n in dns && Answerable(b, n)
      ensures r == Some(false) ==> (exists n :: n in dns && Answerable(b, n) && dns[n] != [Plain(server)])
                                   || forall n | n in dns :: !Answerable(b, n)
    {
      var active := ListServices(false);
      var names := ListServices(true);
      if active.None? || names.None? {
        return None;
      }
      var checked := false;
      var k := 0;
      while k < |names.value|
        invariant k <= |names.value| && calls >= old(calls)
        invariant forall i | 0 <= i < k && Answerable(b, names.value[i]) :: dns[names.value[i]] == [Plain(server)]
        invariant checked <==> exists i | 0 <= i < k :: Answerable(b, names.value[i])
      {
        var one := CheckOne(b, names.value[k], active.value, server);
        if one.None? {
          return None;
        }
        if one.value.0 {
          checked := true;
          if !one.value.1 {
            return Some(false);
          }
        }
        k := k + 1;
      }
      return Some(checked);
    }

    /** `found` are the lists of enabled services that the backup does not know. */
    ghost predicate NewlyFound(found: seq<Saved>, b: Backup, was: map<Name, DnsList>)
      reads this`enabled
    {
      SavedFrom(found, was) && NamesOf(found) !! NamesOf(b.services) && NamesOf(found) <= enabled
    }

    /** One watchdog cycle under the lock. */
    method WatchdogTick(server: Addr) returns (r: TickOutcome)
      requires backup.Some? ==> UniqueNames(backup.value.services)
      modifies this`dns, this`backup, this`calls
      ensures AllWork(old(calls)) && r.Failed? ==>
                old(backup).Some? &&
                exists found :: NewlyFound(found, old(backup).value, old(dns))
                                && Grown(old(backup).value, found, server, loopback).None?
      ensures r.NotActive? <==> !(old(backup).Some? && marker)
      ensures r.NotActive? ==> dns == old(dns) && backup == old(backup)
      ensures old(backup).Some? ==> backup.Some? && Extends(old(backup).value, backup.value)
      ensures old(backup).Some? ==> UniqueNames(backup.value.services)
      ensures dns.Keys == old(dns).Keys
      ensures forall n | n in dns :: dns[n] == old(dns)[n]
                || (backup.Some? && n in NamesOf(backup.value.services) && dns[n] == [Plain(server)])
      ensures dns != old(dns) ==> backup.Some? && (backup.value.history.Some? ==> server in backup.value.history.value)
      ensures r.Clean? || r.Reasserted? ==>
                backup.Some? && Guarded(backup.value, server) &&
                old(dns).Keys * enabled <= NamesOf(backup.value.services)
      ensures r.Clean? ==> dns == old(dns)
      ensures r.Reasserted? ==> r.corrected != [] && forall n :: n in r.corrected <==>
                n in dns && n in NamesOf(backup.value.services) && old(dns)[n] != [Plain(server)]
    {
      if !(backup.Some? && marker) {
        return NotActive;
      }
      var b := backup.value;
      var found := FindNewServices(b);
      if found.None? {
        return Failed;
      }
      var ready := PrepareBackup(b, found.value, server);
      if ready.None? {
        return Failed;
      }
      var drifted := FindDrift(ready.value, server);
      if drifted.None? {
        return Failed;
      }
      if drifted.value == [] {
        return Clean;
      }
      var ok := Reassert(drifted.value, server);
      return if ok then Reasserted(drifted.value) else Failed;
    }
  }

  /** What a complete restoration leaves is what the takeover found. */
  lemma RestoringUndoesTakeover(was: map<Name, DnsList>, during: map<Name, DnsList>, after: map<Name, DnsList>,
                                b: Backup, server: Addr)
    requires SavedFrom(b.services, was) && Switched(during, was, NamesOf(b.services), server)
    requires after.Keys == during.Keys
    requires forall n | n in after && n !in NamesOf(b.services) :: after[n] == during[n]
    requires forall i | 0 <= i < |b.services| && b.services[i].name in after ::
               after[b.services[i].name] == b.services[i].servers
    ensures after == was
  {
    forall n | n in was ensures n in after && after[n] == was[n] {
      if n in NamesOf(b.services) {
        var i :| 0 <= i < |b.services| && b.services[i].name == n;
      }
    }
  }
}
