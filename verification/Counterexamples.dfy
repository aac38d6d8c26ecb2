/** Concrete states in which the program does not keep what one would expect of it. */
module Counterexamples {
  import opened VMNames
  import opened VMPorts
  import opened VMRegistry
  import VMDatabases
  import DhcpHosts
  import DhcpRuns
  import DhcpFailures
  import Interleaving
  import NewVMs
  import Daemons
  import Rollbacks
  import Rebuilds
  import Migrations

  const WEB := VMName("web", 0)
  const WEB_NEXT := VMName("web", 1)
  const SHOP := VMName("shop", 0)

  function Bare(name: string, domains: seq<Domain>, hasBackup: bool): VM {
    VM(Config(name, domains, [], map[], map[], hasBackup, hasBackup), false, NoOperation, "", "", "")
  }

  function Only(active: bool): Entries {
    map[WEB.ID() := Entry(WEB, Bare("web", [], false), active)]
  }

  lemma OnlyIsFine(active: bool)
    ensures Inv(Only(active)) && Highest(Only(active), "web", REVISION_NONE) == 0
    ensures WEB.ID() != WEB_NEXT.ID()
  {
    if WEB.ID() == WEB_NEXT.ID() {
      IdInjective(WEB, WEB_NEXT);
    }
    assert WEB.ID() in Only(active);
  }

  /** Adding an active revision whose save fails deactivates the revision there was. */
  lemma FailedAddDeactivates()
    ensures var added := Added(Only(true), Bare("web", [], false), WEB_NEXT, true, true, false);
      !added.ok && added.db == Only(false) && added.db != Only(true)
  {
    OnlyIsFine(true);
    assert Only(true)[WEB.ID()] != Only(false)[WEB.ID()];
  }

  /** Two inactive VMs with one domain. */
  function Twins(): Entries {
    map[WEB.ID() := Entry(WEB, Bare("web", [Domain("a.example", "", 80)], false), false),
        SHOP.ID() := Entry(SHOP, Bare("shop", [Domain("a.example", "", 80)], false), false)]
  }

  const FINE := VMDatabases.Disk(true, true, true)

  /** Two activations checked before either commits: both VMs become active with one domain, although
      the second one reports that it could not be saved. */
  lemma CommonDomainByRace()
    ensures var steps := Interleaving.Race(Interleaving.Activating("web", 0), Interleaving.Activating("shop", 0),
                                           FINE, FINE);
      var s := Interleaving.State(Twins(), map[], map[]);
      && Interleaving.IsRun(s, steps) && Interleaving.AllHonest(s, steps)
      && var after := Interleaving.After(s, steps).db;
      && Interleaving.Claimed(after, WEB.ID(), "a.example") && Interleaving.Claimed(after, SHOP.ID(), "a.example")
      && !Inv(after) && !VMDatabases.Saves(FINE, after, map[])
  {
    TwinsAreFine();
    Interleaving.RaceOfActivationsIff(Twins(), map[], WEB.ID(), SHOP.ID(), FINE, FINE);
  }

  lemma TwinsAreFine()
    ensures Inv(Twins()) && WEB.ID() in Twins() && SHOP.ID() in Twins()
    ensures Twins()[WEB.ID()] == Entry(WEB, Bare("web", [Domain("a.example", "", 80)], false), false)
    ensures Twins()[SHOP.ID()] == Entry(SHOP, Bare("shop", [Domain("a.example", "", 80)], false), false)
    ensures forall name :: !Conflict(Twins(), Bare(name, [Domain("a.example", "", 80)], false).config, name)
    ensures "a.example" in DomainNames([Domain("a.example", "", 80)]) * DomainNames([Domain("a.example", "", 80)])
  {
    IdsDiffer(WEB, SHOP);
    var shop := Entry(SHOP, Bare("shop", [Domain("a.example", "", 80)], false), false);
    var web := Entry(WEB, Bare("web", [Domain("a.example", "", 80)], false), false);
    PutKeepsInv(map[], SHOP.ID(), shop);
    PutKeepsInv(map[SHOP.ID() := shop], WEB.ID(), web);
    assert Twins() == map[SHOP.ID() := shop][WEB.ID() := web];
    var d := Domain("a.example", "", 80);
    assert d in [d] && d.name in DomainNames([d]);
  }

  function Exporter(name: string): VM {
    VM(Config(name, [], [VMPort(80, TCP, Export, 0, "@lan", 0, 0)], map[], map[], false, false), false, NoOperation,
       "", "", "")
  }

  lemma ExporterFits(name: VMName)
    requires Valid(name)
    ensures EntryOK(Entry(name, Exporter(name.name), true)) && !SelfImport(Exporter(name.name).config.ports)
  {
    assert "@lan"[1..] == "lan" && VMPort(80, TCP, Export, 0, "@lan", 0, 0).group[0] == '@';
  }

  predicate Plain(db: Entries) {
    forall id | id in db :: PlainConfig(db[id].vm.config)
  }

  predicate PlainConfig(config: Config) {
    config.domains == [] && forall p | p in config.ports :: p.publicPort == 0
  }

  /** Without domains and public ports nothing but the disk can make a save fail. */
  lemma PlainSaves(db: Entries)
    requires Plain(db)
    ensures VMDatabases.Saves(FINE, db, map[])
  {
  }

  lemma PlainInsertion(db: Entries, vm: VM, name: VMName)
    requires Plain(db) && PlainConfig(vm.config) && name.ID() !in db
    ensures var p := Interleaving.Adding(vm, name, true);
      var after := Interleaving.Committed(db, map[], p, FINE);
      && Interleaving.Saved(db, map[], p, FINE) && Plain(after) && after.Keys == db.Keys + {name.ID()}
  {
    PlainSaves(Interleaving.Tentative(db, Interleaving.Adding(vm, name, true)));
  }

  /** Two additions checked before either commits: both VMs are saved, with one private export. */
  lemma CommonExportByRace()
    ensures var steps := Interleaving.Race(Interleaving.Adding(Exporter("web"), WEB, true),
                                           Interleaving.Adding(Exporter("shop"), SHOP, true), FINE, FINE);
      var s := Interleaving.State(map[], map[], map[]);
      && Interleaving.IsRun(s, steps) && Interleaving.AllHonest(s, steps)
      && Interleaving.After(s, steps).db.Keys == {WEB.ID(), SHOP.ID()}
      && !Inv(Interleaving.After(s, steps).db)
  {
    IdsDiffer(WEB, SHOP);
    ExporterFits(WEB);
    ExporterFits(SHOP);
    OneExport();
    ExportersRace(Exporter("web"), Exporter("shop"), WEB, SHOP);
  }

  /** Any two VMs without domains and public ports, that export a common port. */
  lemma ExportersRace(a: VM, b: VM, m: VMName, n: VMName)
    requires EntryOK(Entry(m, a, true)) && EntryOK(Entry(n, b, true)) && m.name != n.name && m.ID() != n.ID()
    requires PlainConfig(a.config) && PlainConfig(b.config)
    requires !SelfImport(a.config.ports) && !SelfImport(b.config.ports)
    requires Interleaving.PrivateExportIds(a.config.ports) * Interleaving.PrivateExportIds(b.config.ports) != {}
    ensures var steps := Interleaving.Race(Interleaving.Adding(a, m, true), Interleaving.Adding(b, n, true),
                                           FINE, FINE);
      var s := Interleaving.State(map[], map[], map[]);
      && Interleaving.IsRun(s, steps) && Interleaving.AllHonest(s, steps)
      && Interleaving.After(s, steps).db.Keys == {m.ID(), n.ID()}
      && !Inv(Interleaving.After(s, steps).db)
  {
    var p, q := Interleaving.Adding(a, m, true), Interleaving.Adding(b, n, true);
    PlainInsertion(map[], a, m);
    PlainInsertion(Interleaving.Committed(map[], map[], p, FINE), b, n);
    Interleaving.RaceRuns(map[], map[], p, q, FINE, FINE);
    Interleaving.RaceOfAdditionsIff(map[], map[], a, b, m, n, FINE, FINE);
  }

  lemma OneExport()
    ensures var a, b := Exporter("web").config.ports, Exporter("shop").config.ports;
      Interleaving.PrivateExportIds(a) * Interleaving.PrivateExportIds(b) != {}
  {
    var port := VMPort(80, TCP, Export, 0, "@lan", 0, 0);
    assert port in [port];
    assert port.GlobalID() in Interleaving.PrivateExportIds([port]) * Interleaving.PrivateExportIds([port]);
  }

  /** A failing construction takes the greenhouse entry of another VM of its name away. */
  lemma GreenhouseEntryLost(p: NewVMs.Plan)
    requires p.name == WEB
    ensures var w := NewVMs.World(Only(false), map[], {}, {});
      NewVMs.Unwound(NewVMs.DoAll(w, [NewVMs.DropGreenhouse], p), [NewVMs.DropGreenhouse], p, false) != w
  {
    var w := NewVMs.World(Only(false), map[], {}, {});
    NewVMs.RollbackIff(w, [NewVMs.DropGreenhouse], p, false);
  }

  /** A construction whose copy of the seed fails leaves the disk. */
  lemma DiskLeaks(p: NewVMs.Plan)
    ensures var w := NewVMs.World(map[], map[], {}, {});
      var defers := [NewVMs.DropGreenhouse, NewVMs.DropLease];
      && NewVMs.MayLeak(w, defers, p)
      && NewVMs.Unwound(NewVMs.Done(w, defers, p, true), defers, p, false) == w.(disks := {p.Disk()})
  {
    var w := NewVMs.World(map[], map[], {}, {});
    assert [NewVMs.DropGreenhouse, NewVMs.DropLease] == NewVMs.ALL[..2];
    NewVMs.RollbackLeaves(w, NewVMs.ALL[..2], p, true);
    assert Remove(w.greenhouse, p.Id()) == map[];
  }

  /** A backup that cannot resize or attach its volume leaves it behind. */
  lemma VolumeLeaks()
    ensures var env := Daemons.BackupEnv(true, true, true, true, true, false, true, true, true, true, true, true);
      Daemons.LeaksVolume(Bare("web", [], true), {}, {}, "web-backup", env)
    ensures var env := Daemons.BackupEnv(true, true, true, true, false, true, true, true, true, true, true, true);
      Daemons.LeaksVolume(Bare("web", [], true), {}, {}, "web-backup", env)
  {
  }

  /** A deletion in which nothing fails. */
  const SURE := Daemons.DeleteEnv(true, true, true, true, true, true, true)

  /** A rebuild that cannot save the deactivation of the original leaves it inactive. */
  lemma RebuildDeactivates(build: NewVMs.BuildEnv, backup: Daemons.BackupEnv)
    ensures var env := Rebuilds.RebuildEnv(true, true, build, false, backup, true, true, true, SURE, true, SURE, true);
      var job := Rollbacks.Job(WEB, WEB_NEXT);
      var stage := Rebuilds.StageFrom(Only(true), job, Bare("web", [], false), {}, {}, "web-backup", env);
      && stage == Rebuilds.Deactivating
      && Rebuilds.LeftBy(Only(true), job, Bare("web", [], false), stage) == Only(false)
  {
  }

  /** A rebuild that has deleted the original, and only fails to update the DHCP hosts after that, deletes
      the new revision too: nothing is left of the VM. */
  lemma RebuildLosesVM(build: NewVMs.BuildEnv, backup: Daemons.BackupEnv)
    ensures var deletion := SURE.(rebuilt := false);
      var env := Rebuilds.RebuildEnv(true, true, build, true, backup, true, true, true, deletion, true, SURE, true);
      var job, vm := Rollbacks.Job(WEB, WEB_NEXT), Bare("web", [], false);
      && Rebuilds.StageFrom(Only(true), job, vm, {}, {}, "web-backup", env) == Rebuilds.Lost
      && Rebuilds.LeftBy(Only(true), job, vm, Rebuilds.Lost) == map[]
      && forall disks :: Rebuilds.DisksLeft({WEB.ID() + ".qcow2"}, disks, Rebuilds.Lost, job) ==> disks == {}
  {
    OnlyIsFine(true);
    NoConflictWithin(Only(true), Bare("web", [], false).config);
    Rebuilds.LostLeaves(Only(true), Rollbacks.Job(WEB, WEB_NEXT), Bare("web", [], false));
    assert Remove(Only(true), WEB.ID()) == map[];
  }

  const WEB_LAST := VMName("web", 2)
  const REPLACING := Rollbacks.Job(WEB, WEB_LAST)

  /** One revision is active, and another one could not be: its domain is that of another VM. */
  function Crowded(): Entries {
    map[WEB.ID() := Entry(WEB, Bare("web", [], false), true),
        WEB_NEXT.ID() := Entry(WEB_NEXT, Bare("web", [Domain("a.example", "", 80)], false), false),
        SHOP.ID() := Entry(SHOP, Bare("shop", [Domain("a.example", "", 80)], false), true)]
  }

  function Started(): Entries {
    Crowded()[WEB_LAST.ID() := Entry(WEB_LAST, Bare("web", [], false), false)]
  }

  function Switched(): Entries {
    Rebuilds.SwitchedAndUnlocked(Started(), REPLACING, true)
  }

  lemma IdsDiffer(a: VMName, b: VMName)
    requires Valid(a) && Valid(b) && a != b
    ensures a.ID() != b.ID()
  {
    if a.ID() == b.ID() {
      IdInjective(a, b);
    }
  }

  lemma FourIds()
    ensures WEB.ID() != WEB_NEXT.ID() && WEB.ID() != SHOP.ID() && WEB_NEXT.ID() != SHOP.ID()
    ensures WEB_LAST.ID() != WEB.ID() && WEB_LAST.ID() != WEB_NEXT.ID() && WEB_LAST.ID() != SHOP.ID()
  {
    IdsDiffer(WEB, WEB_NEXT);
    IdsDiffer(WEB, SHOP);
    IdsDiffer(WEB_NEXT, SHOP);
    IdsDiffer(WEB_LAST, WEB);
    IdsDiffer(WEB_LAST, WEB_NEXT);
    IdsDiffer(WEB_LAST, SHOP);
  }

  lemma CrowdedIsFine()
    ensures Inv(Crowded())
  {
    FourIds();
    var shop := Entry(SHOP, Bare("shop", [Domain("a.example", "", 80)], false), true);
    var web := Entry(WEB, Bare("web", [], false), true);
    var next := Entry(WEB_NEXT, Bare("web", [Domain("a.example", "", 80)], false), false);
    PutKeepsInv(map[], SHOP.ID(), shop);
    PutKeepsInv(map[SHOP.ID() := shop], WEB.ID(), web);
    PutKeepsInv(map[SHOP.ID() := shop, WEB.ID() := web], WEB_NEXT.ID(), next);
    assert Crowded() == map[SHOP.ID() := shop, WEB.ID() := web][WEB_NEXT.ID() := next];
  }

  /** A rebuild of the active revision stops here when it cannot delete the original. */
  lemma SwitchedIsReached(build: NewVMs.BuildEnv, backup: Daemons.BackupEnv)
    ensures Rollbacks.Started(Crowded(), Started(), REPLACING, Bare("web", [], false))
    ensures var deletion := SURE.(stopped := false);
      var env := Rebuilds.RebuildEnv(true, true, build, true, backup, true, true, true, deletion, true, SURE, true);
      Rebuilds.StageFrom(Crowded(), REPLACING, Bare("web", [], false), {}, {}, "web-backup", env) == Rebuilds.Deleting
  {
    FourIds();
    NoConflictAtAll(Crowded(), Bare("web", [], false).config);
  }

  lemma NoConflictAtAll(db: Entries, config: Config)
    requires config.ports == [] && config.domains == []
    ensures !Conflict(db, config, config.name)
  {
  }

  lemma SwitchedEntries()
    ensures var db := Switched();
      && db.Keys == {WEB.ID(), WEB_NEXT.ID(), SHOP.ID(), WEB_LAST.ID()}
      && db[WEB.ID()] == Entry(WEB, Bare("web", [], false), false)
      && db[WEB_NEXT.ID()] == Entry(WEB_NEXT, Bare("web", [Domain("a.example", "", 80)], false), false)
      && db[SHOP.ID()] == Entry(SHOP, Bare("shop", [Domain("a.example", "", 80)], false), true)
      && db[WEB_LAST.ID()] == Entry(WEB_LAST, Bare("web", [], false), true)
  {
    FourIds();
  }

  lemma SwitchedKeys()
    ensures KeysAreIds(Switched())
  {
    SwitchedEntries();
  }

  lemma HeirIsNext()
    ensures HasRevision(Switched(), "web", 2) && Highest(Switched(), "web", 2) == 1
  {
    SwitchedEntries();
    assert WEB_NEXT.ID() in Switched();
    HighestIs(Switched(), "web", 2, 1);
  }

  lemma NextConflicts()
    ensures !CanActivate(Switched(), "web", 1, true)
  {
    SwitchedEntries();
    var db := Switched();
    assert SHOP.ID() in db && Rival(db, SHOP.ID(), "web");
    var shop, next := db[SHOP.ID()].vm.config, db[WEB_NEXT.ID()].vm.config;
    assert "a.example" in DomainNames(shop.domains) * DomainNames(next.domains);
  }

  /** There the last registered compensation must run first: in the other order, the new revision stays;
      in this one, all is as it was. */
  lemma OrderMatters()
    ensures var wrong := Rollbacks.Compensated(Switched(), Rollbacks.DeleteNew, REPLACING);
      WEB_LAST.ID() in Rollbacks.Compensated(wrong, Rollbacks.Reactivate, REPLACING)
    ensures Rollbacks.Unwound(Switched(), [Rollbacks.DeleteNew, Rollbacks.Reactivate], REPLACING) == Crowded()
  {
    SwitchedEntries();
    SwitchedKeys();
    HeirIsNext();
    NextConflicts();
    Rollbacks.WrongOrder(Switched(), REPLACING);
    RightOrder();
  }

  lemma StartedIsFine()
    ensures Rollbacks.Started(Crowded(), Started(), REPLACING, Bare("web", [], false))
  {
    FourIds();
  }

  lemma FlagsMoved()
    ensures Rollbacks.SameButFlags(Rollbacks.Unlock(Started(), REPLACING.Id(), true), Switched(), "web")
  {
    FourIds();
  }

  lemma RightOrder()
    ensures Rollbacks.Unwound(Switched(), [Rollbacks.DeleteNew, Rollbacks.Reactivate], REPLACING) == Crowded()
  {
    CrowdedIsFine();
    StartedIsFine();
    FlagsMoved();
    SourceIsActive();
    Rollbacks.UnwindRestores(Crowded(), Started(), Switched(), REPLACING, Bare("web", [], false));
  }

  lemma SourceIsActive()
    ensures REPLACING.Id() in Crowded() && Crowded()[REPLACING.Id()].active && !Crowded()[REPLACING.Id()].vm.locked
  {
    FourIds();
  }

  function Migrating(replacement: VMName): Migrations.Job {
    Migrations.Job(WEB, replacement, Bare("web", [], false))
  }

  /** When the answer to the activation is lost, a migration fails with both copies active, even
      without the option to keep the source active. */
  lemma BothCopiesActive()
    ensures var env := Migrations.MigrateEnv(true, true, true, Migrations.Heard, true, true, true,
                                             Migrations.Unheard, true, true, SURE, true, true);
      Migrations.JobOK(Only(true), map[], Migrating(WEB))
      && Migrations.StageOf(Only(true), map[], Migrating(WEB), false, env) == Migrations.Activating
  {
    OnlyIsFine(true);
  }

  lemma NoConflictWithin(db: Entries, config: Config)
    requires config.name != "" && config.ports == [] && forall id | id in db :: db[id].name.name == config.name
    ensures !Conflict(db, config, config.name)
  {
  }

  lemma NextJobIsFine()
    ensures Migrations.JobOK(Only(true), Only(false), Migrating(WEB_NEXT))
  {
    OnlyIsFine(true);
    OnlyIsFine(false);
  }

  lemma NextMayBeActive()
    ensures CanActivate(Migrations.CreatedOn(Only(false), Migrating(WEB_NEXT)), "web", 1, true)
  {
    NoConflictWithin(Migrations.CreatedOn(Only(false), Migrating(WEB_NEXT)), Bare("web", [], false).config);
  }

  lemma WebIsTop()
    ensures WEB.ID() in Only(false) && Migrations.IsTop(Only(false), "web", WEB.ID()) && !Only(false)[WEB.ID()].active
  {
  }

  /** Deleting the new VM then activates a revision of the destination that was not active. */
  lemma DestinationPromoted()
    ensures Migrations.RemoteLeft(Only(false), Migrating(WEB_NEXT), Migrations.Activating) != Only(false)
  {
    NextJobIsFine();
    NextMayBeActive();
    Migrations.NewIsFree(Only(true), Only(false), Migrating(WEB_NEXT));
    Migrations.HandedDownOn(Only(false), Migrating(WEB_NEXT));
    Migrations.ActivatingIff(Only(false), Migrating(WEB_NEXT));
    WebIsTop();
  }

  /** A lease is added, but the network is not read again; the next rebuild asks for its host once more.
      That libvirt would accept a second host of that name, MAC and IP is only an answer of the model. */
  lemma HostTwice()
    ensures var a := DhcpHosts.Host("vm-web", "m1", "10.0.0.1");
      var lost, fine := DhcpHosts.Rebuilding(true, -1, false), DhcpHosts.Rebuilding(true, -1, true);
      var updates := DhcpHosts.Updates([], [a], "vm-");
      && DhcpHosts.RebuildStep([], [], [a], [], updates, false, lost)
      && DhcpHosts.RebuildStep([a], [], [a, a], [a, a], updates, true, fine)
      && !DhcpHosts.Right([a, a], [a], "vm-")
  {
    var a := DhcpHosts.Host("vm-web", "m1", "10.0.0.1");
    var updates := [DhcpHosts.Append(a)];
    assert DhcpHosts.Missing([], [a]) == [a];
    assert DhcpHosts.Updates([], [a], "vm-") == updates;
    DhcpHosts.AcceptedAdditions([], [a], -1);
    DhcpHosts.AcceptedAdditions([a], [a], -1);
    assert updates == DhcpHosts.Additions([a]) && updates[..1] == updates;
    DhcpHosts.ApplyAdditions([], [a]);
    DhcpHosts.ApplyAdditions([a], [a]);
    DhcpHosts.CountConcat([a], [a], "vm-web");
    assert a in [a];
  }

  // Two VMs of one name under construction, and the hosts of their leases.
  const FIRST := DhcpHosts.Host("vm-web", "m1", "10.0.0.1")
  const SECOND := DhcpHosts.Host("vm-web", "m2", "10.0.0.2")

  function NetOf(machines: DhcpHosts.Machines, leases: DhcpHosts.Leases, hosts: seq<DhcpHosts.Host>): DhcpRuns.Net {
    DhcpRuns.Net(machines, leases, hosts, hosts)
  }

  function TwoLeases(): seq<DhcpRuns.Net> {
    [NetOf(map[], map[], []), NetOf(map[], map[1 := FIRST], [FIRST]),
     NetOf(map[], map[1 := FIRST, 2 := SECOND], [FIRST]), NetOf(map[], map[2 := SECOND], [FIRST]),
     NetOf(map["web" := DhcpHosts.Machine("m2", "10.0.0.2")], map[2 := SECOND], [FIRST])]
  }

  function TwoLeasesSteps(): seq<DhcpRuns.Step> {
    [DhcpRuns.Begin(1, "web", DhcpHosts.Machine("m1", "10.0.0.1")),
     DhcpRuns.Begin(2, "web", DhcpHosts.Machine("m2", "10.0.0.2")), DhcpRuns.End(1), DhcpRuns.Commit(2, "web")]
  }

  const ANSWERED := DhcpHosts.Rebuilding(true, -1, true)

  /** All wanted hosts are leases. */
  lemma LeasesWanted(wanted: seq<DhcpHosts.Host>, order: seq<nat>, leases: DhcpHosts.Leases)
    requires DhcpHosts.Lists(order, leases.Keys) && forall i | 0 <= i < |order| :: order[i] in leases
    requires wanted == DhcpHosts.LeasesOf(leases, order)
    ensures DhcpHosts.IsWanted(wanted, map[], leases, "vm-")
  {
    var none: seq<string> := [];
    assert DhcpHosts.IsListing(wanted, none, order, map[], leases, "vm-");
  }

  /** A rebuild with nothing to update, because each name is there already. */
  lemma NothingNew(s: DhcpRuns.Net, t: DhcpRuns.Net, wanted: seq<DhcpHosts.Host>)
    requires s.cached == s.live == t.cached == t.live == [FIRST]
    requires DhcpHosts.IsWanted(wanted, t.machines, t.leases, "vm-")
    requires wanted != [] && forall w | w in wanted :: w.name == "vm-web"
    ensures DhcpFailures.Tried(s, t, wanted, true, ANSWERED, "vm-")
    ensures DhcpHosts.Updates(s.cached, wanted, "vm-") == []
  {
    assert wanted[0] in wanted && [FIRST][0] == FIRST;
    DhcpHosts.NothingToDo([FIRST], wanted, wanted, "vm-");
  }

  lemma FirstLease()
    ensures var wanted, s, t := [FIRST], TwoLeases()[0], TwoLeases()[1];
      DhcpFailures.Tried(s, t, wanted, true, ANSWERED, "vm-")
  {
    var updates := [DhcpHosts.Append(FIRST)];
    assert DhcpHosts.Missing([], [FIRST]) == [FIRST];
    assert DhcpHosts.Updates([], [FIRST], "vm-") == updates == DhcpHosts.Additions([FIRST]);
    DhcpHosts.AcceptedAdditions([], [FIRST], -1);
    DhcpHosts.ApplyAdditions([], [FIRST]);
    assert updates[..1] == updates;
    LeasesWanted([FIRST], [1], map[1 := FIRST]);
  }

  lemma SecondLease()
    ensures DhcpFailures.Tried(TwoLeases()[1], TwoLeases()[2], [FIRST, SECOND], true, ANSWERED, "vm-")
    ensures DhcpFailures.Tried(TwoLeases()[2], TwoLeases()[3], [SECOND], true, ANSWERED, "vm-")
  {
    LeasesWanted([FIRST, SECOND], [1, 2], map[1 := FIRST, 2 := SECOND]);
    NothingNew(TwoLeases()[1], TwoLeases()[2], [FIRST, SECOND]);
    LeasesWanted([SECOND], [2], map[2 := SECOND]);
    NothingNew(TwoLeases()[2], TwoLeases()[3], [SECOND]);
  }

  /** Two VMs of one name are under construction; the first one fails, the second one succeeds. Libvirt
      answers every call, and each IP was free, but the VM has not got its host. */
  lemma SecondOfItsName()
    ensures var states, steps := TwoLeases(), TwoLeasesSteps();
      var answers := [ANSWERED, ANSWERED, ANSWERED, ANSWERED];
      && DhcpFailures.IsRunAny(states, steps, answers, "vm-") && DhcpRuns.Inv(states[0], "vm-")
      && (forall i | 0 <= i < 2 :: DhcpRuns.FreeIP(states[i], steps[i].machine.ip))
      && !DhcpRuns.Exact(states[4].live, states[4].machines, states[4].leases, "vm-")
  {
    FirstLease();
    SecondLease();
    SecondRuns();
    SecondIsMissing();
  }

  lemma SecondRuns()
    requires DhcpFailures.Tried(TwoLeases()[0], TwoLeases()[1], [FIRST], true, ANSWERED, "vm-")
    requires DhcpFailures.Tried(TwoLeases()[1], TwoLeases()[2], [FIRST, SECOND], true, ANSWERED, "vm-")
    requires DhcpFailures.Tried(TwoLeases()[2], TwoLeases()[3], [SECOND], true, ANSWERED, "vm-")
    ensures DhcpFailures.IsRunAny(TwoLeases(), TwoLeasesSteps(), [ANSWERED, ANSWERED, ANSWERED, ANSWERED], "vm-")
  {
    BothBegin();
    EndsAndCommits();
  }

  lemma BothBegin()
    requires DhcpFailures.Tried(TwoLeases()[0], TwoLeases()[1], [FIRST], true, ANSWERED, "vm-")
    requires DhcpFailures.Tried(TwoLeases()[1], TwoLeases()[2], [FIRST, SECOND], true, ANSWERED, "vm-")
    ensures var states, steps := TwoLeases(), TwoLeasesSteps();
      && DhcpFailures.NextAny(states[0], steps[0], ANSWERED, states[1], "vm-")
      && DhcpFailures.NextAny(states[1], steps[1], ANSWERED, states[2], "vm-")
  {
    assert "vm-" + "web" == "vm-web";
  }

  lemma EndsAndCommits()
    requires DhcpFailures.Tried(TwoLeases()[2], TwoLeases()[3], [SECOND], true, ANSWERED, "vm-")
    ensures var states, steps := TwoLeases(), TwoLeasesSteps();
      && DhcpFailures.NextAny(states[2], steps[2], ANSWERED, states[3], "vm-")
      && DhcpFailures.NextAny(states[3], steps[3], ANSWERED, states[4], "vm-")
  {
    assert "vm-" + "web" == "vm-web";
  }

  lemma SecondIsMissing()
    ensures !DhcpRuns.Exact(TwoLeases()[4].live, TwoLeases()[4].machines, TwoLeases()[4].leases, "vm-")
  {
    var last := TwoLeases()[4];
    assert last.leases[2] == SECOND && DhcpRuns.Want(SECOND, last.machines, last.leases, "vm-");
  }

  /** A host was removed, but the network not read again: every later rebuild is refused. */
  lemma RebuildsStuck(answers: DhcpHosts.Rebuilding)
    ensures var a := DhcpHosts.Host("vm-web", "m1", "10.0.0.1");
      DhcpHosts.RebuildStep([], [a], [], [a], DhcpHosts.Updates([a], [], "vm-"), false, answers)
  {
    var a := DhcpHosts.Host("vm-web", "m1", "10.0.0.1");
    assert DhcpHosts.Obsoletes([a], [], "vm-") == [a];
    assert DhcpHosts.Updates([a], [], "vm-") == [DhcpHosts.Remove(a)];
  }

  /** A host left behind by a failed rebuild keeps the name from the VM that uses it next. */
  lemma StaleHostKeepsName()
    ensures var stale, wanted := DhcpHosts.Host("vm-web", "m1", "10.0.0.1"), DhcpHosts.Host("vm-web", "m2", "10.0.0.2");
      DhcpHosts.Rebuilt([stale], [wanted], "vm-") == [stale] && !DhcpHosts.Right([stale], [wanted], "vm-")
  {
    var stale, wanted := DhcpHosts.Host("vm-web", "m1", "10.0.0.1"), DhcpHosts.Host("vm-web", "m2", "10.0.0.2");
    assert [wanted][0].name == stale.name && [stale][0].name == wanted.name;
    DhcpHosts.KeepAll([stale], [wanted], "vm-");
    DhcpHosts.MissNone([stale], [wanted]);
    assert wanted in [wanted] && wanted !in [stale];
  }
}
