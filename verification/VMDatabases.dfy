/** The VM database of a server, as its methods change it. */
module VMDatabases {
  import opened Results
  import opened VMNames
  import opened VMPorts
  import opened VMRegistry
  import DomainTables
  import PortTables
  import opened PortJoin

  /** Whether the three files written by a save can be written. */
  datatype Disk = Disk(entries: bool, domains: bool, ports: bool)

  /** What a save needs to succeed: the disk, no domain claimed twice, and no clashing ports. */
  ghost predicate Saves(disk: Disk, db: Entries, greenhouse: Entries) {
    disk == Disk(true, true, true) && DomainTables.NoDuplicate(db) && CanGenerate(db, greenhouse)
  }

  /** The entries once the active flag went to the highest other revision. */
  ghost function HandedOver(db: Entries, name: VMName): Entries {
    if name.ID() !in db then db
    else
      var e := db[name.ID()];
      Activate(db, e.name.name, Highest(db, e.name.name, e.name.revision))
  }

  class VMDatabase {
    const gateway: string
    var db: Entries
    var greenhouse: Entries
    var domainTable: DomainTables.Table
    var portTable: PortTables.Table

    constructor (gateway: string)
      ensures Valid() && db == map[] && greenhouse == map[]
    {
      this.gateway := gateway;
      db, greenhouse := map[], map[];
      domainTable, portTable := map[], map[];
    }

    /** What concurrent callers keep as well; the other half of the invariant is promised where it was
        there before. */
    ghost predicate Valid()
      reads this
    {
      KeysAreIds(db) && OneActive(db) && GreenhouseOK(greenhouse)
    }

    /** save: generates both tables. */
    method Save(disk: Disk) returns (ok: bool)
      requires Valid()
      modifies this`domainTable, this`portTable
      ensures ok <==>
        disk.entries && disk.domains && disk.ports && DomainTables.NoDuplicate(db) && CanGenerate(db, greenhouse)
      ensures ok ==> DomainTables.IsTable(domainTable, db) && DomainTables.RoutesFit(domainTable, db)
      ensures ok && Inv(db) && ClientsApart(db, greenhouse) ==> IsJoin(portTable, db, greenhouse, gateway)
    {
      if !disk.entries {
        return false;
      }
      var domains := DomainTables.GenDomains(db);
      if domains.None? || !disk.domains {
        return false;
      }
      domainTable := domains.value;
      var ports, _ := GenPorts(db, greenhouse, gateway);
      if ports.None? || !disk.ports {
        return false;
      }
      portTable := ports.value;
      return true;
    }

    // -- conflict checks ----------------------------------------------------

    /** The domains of the active entries of other VMs. */
    method RivalDomains(excludeVM: string) returns (domainMap: map<string, string>)
      ensures forall d :: d in domainMap <==>
        exists id | id in db && Rival(db, id, excludeVM) :: d in DomainNames(db[id].vm.config.domains)
    {
      domainMap := map[];
      var todo := db.Keys;
      while todo != {}
        invariant todo <= db.Keys
        invariant forall d :: d in domainMap <==> exists id | id in db && id !in todo && Rival(db, id, excludeVM) ::
          d in DomainNames(db[id].vm.config.domains)
      {
        var id :| id in todo;
        todo := todo - {id};
        if Rival(db, id, excludeVM) {
          domainMap := domainMap + map d | d in DomainNames(db[id].vm.config.domains) :: db[id].vm.config.name;
        }
      }
    }

    /** CheckDomainsConflicts, with the answer of the proxy-chain parent, if any. */
    method CheckDomainsConflicts(domains: seq<Domain>, excludeVM: string, parentOK: bool) returns (ok: bool)
      ensures ok <==> !DomainConflict(db, domains, excludeVM) && parentOK
    {
      var domainMap := RivalDomains(excludeVM);
      for i := 0 to |domains|
        invariant forall j | 0 <= j < i :: domains[j].name !in domainMap
      {
        if domains[i].name in domainMap {
          var id :| id in db && Rival(db, id, excludeVM) && domains[i].name in DomainNames(db[id].vm.config.domains);
          assert domains[i].name in DomainNames(db[id].vm.config.domains) * DomainNames(domains);
          return false;
        }
      }
      forall id | id in db && Rival(db, id, excludeVM)
        ensures DomainNames(db[id].vm.config.domains) * DomainNames(domains) == {}
      {
        assert forall d | d in DomainNames(domains) :: d !in domainMap;
      }
      return parentOK;
    }

    /** The global IDs of the ports exported by the active entries of other VMs. */
    method RivalExports(excludeVM: string) returns (exportMap: map<string, string>)
      ensures forall g :: g in exportMap <==>
        exists id | id in db && Rival(db, id, excludeVM) :: g in ExportIds(db[id].vm.config.ports)
    {
      exportMap := map[];
      var todo := db.Keys;
      while todo != {}
        invariant todo <= db.Keys
        invariant forall g :: g in exportMap <==> exists id | id in db && id !in todo && Rival(db, id, excludeVM) ::
          g in ExportIds(db[id].vm.config.ports)
      {
        var id :| id in todo;
        todo := todo - {id};
        if Rival(db, id, excludeVM) {
          exportMap := exportMap + map g | g in ExportIds(db[id].vm.config.ports) :: db[id].vm.config.name;
        }
      }
    }

    /** CheckPortsConflicts: exports of other active VMs, and imports of the VM's own exports. */
    method CheckPortsConflicts(ports: seq<VMPort>, excludeVM: string) returns (ok: bool)
      ensures ok <==> !ExportConflict(db, ports, excludeVM) && !SelfImport(ports)
    {
      var exportMap := RivalExports(excludeVM);
      ClearIff(db, ports, excludeVM, exportMap.Keys);
      ok := AllClear(ports, exportMap);
    }

    method CheckConflicts(config: Config, excludeVM: string, parentOK: bool) returns (ok: bool)
      ensures ok <==> !Conflict(db, config, excludeVM) && parentOK
    {
      ok := CheckDomainsConflicts(config.domains, excludeVM, parentOK);
      if ok {
        ok := CheckPortsConflicts(config.ports, excludeVM);
      }
    }

    // -- operations ---------------------------------------------------------

    /** Gives the active flag of a name to one revision, or takes it from all. */
    method SetFlags(name: string, revision: int)
      modifies this`db
      ensures db == Activate(old(db), name, revision)
    {
      var todo := db.Keys;
      while todo != {}
        invariant todo <= db.Keys && db.Keys == old(db).Keys
        invariant forall id | id in db ::
          db[id] == if id in todo then old(db)[id] else Activate(old(db), name, revision)[id]
      {
        var id :| id in todo;
        todo := todo - {id};
        if db[id].name.name == name {
          db := db[id := db[id].(active := db[id].name.revision == revision)];
        }
      }
    }

    method Add(vm: VM, name: VMName, active: bool, parentOK: bool, disk: Disk) returns (ok: bool)
      requires Valid() && EntryOK(Entry(name, vm, active))
      modifies this
      ensures Valid() && greenhouse == old(greenhouse) && (Inv(old(db)) ==> Inv(db))
      ensures Outcome(db, ok) == Added(old(db), vm, name, active, parentOK, ok)
      ensures ok <==>
        var added := Added(old(db), vm, name, active, parentOK, true); added.ok && Saves(disk, added.db, greenhouse)
      ensures ok ==> DomainTables.IsTable(domainTable, db)
    {
      if active {
        var free := CheckConflicts(vm.config, name.name, parentOK);
        if !free {
          return false;
        }
      }
      ok := Insert(vm, name, active, parentOK, disk);
    }

    /** The part of Add that holds the lock. */
    method Insert(vm: VM, name: VMName, active: bool, ghost parentOK: bool, disk: Disk) returns (ok: bool)
      requires Valid() && EntryOK(Entry(name, vm, active))
      requires (active ==> !Conflict(db, vm.config, name.name) && parentOK)
      modifies this
      ensures Valid() && greenhouse == old(greenhouse) && (Inv(old(db)) ==> Inv(db))
      ensures Outcome(db, ok) == Added(old(db), vm, name, active, parentOK, ok)
      ensures ok <==>
        var added := Added(old(db), vm, name, active, parentOK, true); added.ok && Saves(disk, added.db, greenhouse)
      ensures ok ==> DomainTables.IsTable(domainTable, db)
    {
      if name.ID() in db {
        return false;
      }
      AddKeepsOneActive(db, vm, name, active, parentOK, true);
      AddKeepsOneActive(db, vm, name, active, parentOK, false);
      if Inv(db) {
        AddKeepsInv(db, vm, name, active, parentOK, true);
        AddKeepsInv(db, vm, name, active, parentOK, false);
      }
      if active {
        SetFlags(name.name, REVISION_NONE);
      }
      ghost var others := db;
      RemovePut(others, name.ID(), Entry(name, vm, active));
      db := db[name.ID() := Entry(name, vm, active)];
      ok := Save(disk);
      if !ok {
        db := Remove(db, name.ID());
      }
    }

    method SetActiveRevision(name: string, revision: int, parentOK: bool, disk: Disk) returns (ok: bool)
      requires Valid()
      modifies this
      ensures Valid() && greenhouse == old(greenhouse) && (Inv(old(db)) ==> Inv(db))
      ensures CanActivate(old(db), name, revision, parentOK) ==>
        db == Activate(old(db), name, revision) && (ok <==> Saves(disk, db, greenhouse))
      ensures !CanActivate(old(db), name, revision, parentOK) ==> db == old(db) && !ok
    {
      if revision == REVISION_NONE {
        var count := GetCountForName(name);
        CountIsZeroIff(db, name, count);
        if count == 0 {
          return false;
        }
      } else {
        var id := VMName(name, revision).ID();
        if id !in db {
          return false;
        }
        var free := CheckConflicts(db[id].vm.config, name, parentOK);
        if !free {
          return false;
        }
      }
      ActivateKeeps(db, name, revision);
      if Inv(db) {
        SetActiveKeepsInv(db, name, revision, parentOK, true);
      }
      SetFlags(name, revision);
      ok := Save(disk);
    }

    /** Gives the flag of an active entry to the highest other revision, if there is one. */
    method HandOver(id: string, parentOK: bool, disk: Disk) returns (ok: bool)
      requires Valid() && id in db && db[id].active
      modifies this
      ensures Valid() && greenhouse == old(greenhouse) && (Inv(old(db)) ==> Inv(db))
      ensures var e := old(db)[id];
        var heir := Highest(old(db), e.name.name, e.name.revision);
        var saved := Saves(disk, Activate(old(db), e.name.name, heir), greenhouse);
        Outcome(db, ok) == if heir >= 0 then Activated(old(db), e.name.name, heir, parentOK, saved)
          else Outcome(old(db), true)
    {
      var e := db[id];
      var maxRevision := FindHighest(db, e.name.name, e.name.revision);
      ok := true;
      if maxRevision >= 0 {
        ok := SetActiveRevision(e.name.name, maxRevision, parentOK, disk);
      }
    }

    /** An active entry first hands its flag over, which saves the database once more. */
    method Delete(name: VMName, parentOK: bool, disk1: Disk, disk2: Disk) returns (ok: bool)
      requires Valid()
      modifies this
      ensures Valid() && greenhouse == old(greenhouse) && (Inv(old(db)) ==> Inv(db))
      ensures var saved := Saves(disk1, HandedOver(old(db), name), greenhouse);
        var deleted := Deleted(old(db), name, parentOK, saved, true);
        db == deleted.db && (ok <==> deleted.ok && Saves(disk2, db, greenhouse))
    {
      var id := name.ID();
      if id !in db {
        return false;
      }
      if db[id].active {
        ok := HandOver(id, parentOK, disk1);
        if !ok {
          return;
        }
      }
      ok := Drop(id, disk2);
    }

    method Drop(id: string, disk: Disk) returns (ok: bool)
      requires Valid()
      modifies this
      ensures Valid() && greenhouse == old(greenhouse) && (Inv(old(db)) ==> Inv(db))
      ensures db == Remove(old(db), id) && (ok <==> Saves(disk, db, greenhouse))
    {
      if Inv(db) {
        RemoveKeepsInv(db, id);
      }
      db := map x | x in db && x != id :: db[x];
      ok := Save(disk);
    }

    /** RedefineVM; whether the save succeeds goes unnoticed. */
    method Redefine(id: string, config: Config, parentOK: bool, force: bool, disk: Disk) returns (ok: bool)
      requires Valid() && id in db && ConfigOK(config)
      modifies this
      ensures Valid() && greenhouse == old(greenhouse) && (Inv(old(db)) ==> Inv(db))
      ensures Outcome(db, ok) == Redefined(old(db), id, config, parentOK, force)
    {
      var e := db[id];
      if (e.vm.locked && !force) || e.vm.wip != NoOperation || config.name != e.vm.config.name {
        return false;
      }
      if e.active {
        var free := CheckConflicts(config, config.name, parentOK);
        if !free {
          return false;
        }
      }
      RedefineKeepsOneActive(db, id, config, parentOK, force);
      if Inv(db) {
        RedefineKeepsInv(db, id, config, parentOK, force);
      }
      ghost var after := Redefined(db, id, config, parentOK, force).db;
      var actions := CarryActions(e.vm.config.actions, config.actions);
      var tags := CarryTags(e.vm.config.tags, config.tags);
      db := db[id := e.(vm := e.vm.(config := config.(actions := actions, tags := tags)))];
      assert db == after;
      var _ := Save(disk);
      return true;
    }

    method AddToGreenhouse(vm: VM, name: VMName, disk: Disk) returns (ok: bool)
      requires Valid() && EntryOK(Entry(name, vm, false))
      modifies this
      ensures Valid() && db == old(db)
      ensures greenhouse == if name.ID() in old(greenhouse) then old(greenhouse)
        else old(greenhouse)[name.ID() := Entry(name, vm, false)]
      ensures ok <==> name.ID() !in old(greenhouse) && Saves(disk, db, greenhouse)
    {
      if name.ID() in greenhouse {
        return false;
      }
      greenhouse := greenhouse[name.ID() := Entry(name, vm, false)];
      ok := Save(disk);
    }

    method DeleteFromGreenhouse(name: VMName) returns (ok: bool)
      requires Valid()
      modifies this`greenhouse
      ensures Valid()
      ensures greenhouse == Remove(old(greenhouse), name.ID()) && (ok <==> name.ID() in old(greenhouse))
    {
      ok := name.ID() in greenhouse;
      greenhouse := map id | id in greenhouse && id != name.ID() :: greenhouse[id];
    }

    // -- lookups ------------------------------------------------------------

    /** GetActiveEntryByName finds the one active revision of a name, exactly if there is one. */
    method GetActiveEntryByName(name: string) returns (r: Option<Entry>)
      requires Valid()
      ensures r.Some? <==> exists id :: ActiveOf(db, name, id)
      ensures r.Some? ==> forall id | ActiveOf(db, name, id) :: db[id] == r.value
    {
      var maxRevision := -1;
      var todo := db.Keys;
      while todo != {}
        invariant todo <= db.Keys
        invariant maxRevision >= -1
        invariant maxRevision >= 0 ==> exists id :: ActiveOf(db, name, id) && db[id].name.revision == maxRevision
        invariant maxRevision == -1 ==> forall id | ActiveOf(db, name, id) :: id in todo
      {
        var id :| id in todo;
        todo := todo - {id};
        assert EntryOK(db[id]);
        if db[id].name.name == name && db[id].name.revision > maxRevision && db[id].active {
          maxRevision := db[id].name.revision;
          assert ActiveOf(db, name, id);
        }
      }
      if maxRevision == -1 {
        return None;
      }
      ghost var id :| ActiveOf(db, name, id) && db[id].name.revision == maxRevision;
      assert db[id].name == VMName(name, maxRevision);
      return Some(db[VMName(name, maxRevision).ID()]);
    }

    method GetNextRevisionForName(name: string) returns (r: int)
      requires Valid()
      ensures ValidName(name) ==> r >= 0 && VMName(name, r).ID() !in db
      ensures forall id | id in db && db[id].name.name == name :: db[id].name.revision < r
    {
      var highest := FindHighest(db, name, REVISION_NONE);
      assert forall id | id in db :: EntryOK(db[id]);
      if ValidName(name) {
        NextRevisionIsFree(db, name);
      }
      r := highest + 1;
    }

    /** GetCountForName counts the entries of a name. */
    method GetCountForName(name: string) returns (count: nat)
      ensures count == |set id | id in db && db[id].name.name == name|
    {
      count := 0;
      var todo := db.Keys;
      while todo != {}
        invariant todo <= db.Keys
        invariant count == |set id | id in db && id !in todo && db[id].name.name == name|
      {
        var id :| id in todo;
        ghost var counted := set x | x in db && x !in todo && db[x].name.name == name;
        todo := todo - {id};
        ghost var now := set x | x in db && x !in todo && db[x].name.name == name;
        if db[id].name.name == name {
          assert now == counted + {id};
          count := count + 1;
        } else {
          assert now == counted;
        }
      }
      ghost var all := set id | id in db && db[id].name.name == name;
      assert (set id | id in db && id !in todo && db[id].name.name == name) == all;
    }
  }

  method CarryActions(before: map<string, Action>, incoming: map<string, Action>) returns (actions: map<string, Action>)
    ensures actions == CarriedActions(before, incoming)
    ensures forall a :: a in actions <==> a in incoming || (a in before && !before[a].fromConfig)
    ensures forall a | a in actions :: actions[a] == if a in incoming then incoming[a] else before[a]
  {
    actions := incoming;
    var todo := before.Keys;
    while todo != {}
      invariant todo <= before.Keys
      invariant forall a :: a in actions <==> a in incoming || (a in before && a !in todo && !before[a].fromConfig)
      invariant forall a | a in actions :: actions[a] == if a in incoming then incoming[a] else before[a]
    {
      var a :| a in todo;
      todo := todo - {a};
      if !before[a].fromConfig && a !in actions {
        actions := actions[a := before[a]];
      }
    }
  }

  method CarryTags(before: map<string, bool>, incoming: map<string, bool>) returns (tags: map<string, bool>)
    ensures tags == CarriedTags(before, incoming)
    ensures forall t :: t in tags <==> t in incoming || (t in before && !before[t])
    ensures forall t | t in tags :: tags[t] == if t in before && !before[t] then false else incoming[t]
  {
    tags := incoming;
    var todo := before.Keys;
    while todo != {}
      invariant todo <= before.Keys
      invariant forall t :: t in tags <==> t in incoming || (t in before && t !in todo && !before[t])
      invariant forall t | t in tags :: tags[t] <==>
        t in incoming && incoming[t] && (t in before && t !in todo ==> before[t])
    {
      var t :| t in todo;
      todo := todo - {t};
      if !before[t] {
        tags := tags[t := false];
      }
    }
  }

  lemma CountIsZeroIff(db: Entries, name: string, count: nat)
    requires count == |set id | id in db && db[id].name.name == name|
    ensures count == 0 <==> !HasName(db, name)
  {
    var ids := set id | id in db && db[id].name.name == name;
    if HasName(db, name) {
      var id :| id in db && db[id].name.name == name;
      assert id in ids;
    }
  }

  /** A port of the list with the global ID of the export that an import asks for. */
  predicate Exports(ports: seq<VMPort>, imported: VMPort) {
    exists q | q in ports :: q.GlobalID() == imported.Exported().GlobalID()
  }

  method FindExport(ports: seq<VMPort>, imported: VMPort) returns (found: bool)
    ensures found <==> Exports(ports, imported)
  {
    var wanted := imported.Exported().GlobalID();
    for j := 0 to |ports|
      invariant forall k | 0 <= k < j :: ports[k].GlobalID() != wanted
    {
      if ports[j].GlobalID() == wanted {
        assert ports[j] in ports;
        return true;
      }
    }
    return false;
  }

  /** The i-th port neither exports a taken global ID nor imports an export of its own VM. */
  predicate Clear(ports: seq<VMPort>, i: nat, taken: set<string>)
    requires i < |ports|
  {
    if ports[i].direction == Export then ports[i].GlobalID() !in taken else !Exports(ports, ports[i])
  }

  method AllClear(ports: seq<VMPort>, exportMap: map<string, string>) returns (ok: bool)
    ensures ok <==> forall i | 0 <= i < |ports| :: Clear(ports, i, exportMap.Keys)
  {
    for i := 0 to |ports|
      invariant forall j | 0 <= j < i :: Clear(ports, j, exportMap.Keys)
    {
      var taken := false;
      if ports[i].direction == Export {
        taken := ports[i].GlobalID() in exportMap;
      } else {
        taken := FindExport(ports, ports[i]);
      }
      assert taken <==> !Clear(ports, i, exportMap.Keys);
      if taken {
        return false;
      }
    }
    return true;
  }

  lemma ClearIff(db: Entries, ports: seq<VMPort>, excludeVM: string, taken: set<string>)
    requires forall g :: g in taken <==>
      exists id | id in db && Rival(db, id, excludeVM) :: g in ExportIds(db[id].vm.config.ports)
    ensures (forall i | 0 <= i < |ports| :: Clear(ports, i, taken)) <==>
      !ExportConflict(db, ports, excludeVM) && !SelfImport(ports)
  {
    SelfImportIff(ports);
    ExportConflictIff(db, ports, excludeVM, taken);
    if i :| 0 <= i < |ports| && ports[i].direction == Import && Exports(ports, ports[i]) {
      assert !Clear(ports, i, taken);
    }
    if i :| 0 <= i < |ports| && ports[i].direction == Export && ports[i].GlobalID() in taken {
      assert !Clear(ports, i, taken);
    }
    if i :| 0 <= i < |ports| && !Clear(ports, i, taken) {
      assert ports[i].direction == Export ==> ports[i].GlobalID() in taken;
    }
  }

  lemma SelfImportIff(ports: seq<VMPort>)
    ensures SelfImport(ports) <==> exists i | 0 <= i < |ports| ::
      ports[i].direction == Import && Exports(ports, ports[i])
  {
  }

  lemma ExportConflictIff(db: Entries, ports: seq<VMPort>, excludeVM: string, taken: set<string>)
    requires forall g :: g in taken <==>
      exists id | id in db && Rival(db, id, excludeVM) :: g in ExportIds(db[id].vm.config.ports)
    ensures ExportConflict(db, ports, excludeVM) <==> taken * ExportIds(ports) != {}
    ensures ExportConflict(db, ports, excludeVM) <==>
      exists i | 0 <= i < |ports| :: ports[i].direction == Export && ports[i].GlobalID() in taken
  {
    if ExportConflict(db, ports, excludeVM) {
      var id :| id in db && Rival(db, id, excludeVM) && ExportIds(db[id].vm.config.ports) * ExportIds(ports) != {};
      var g :| g in ExportIds(db[id].vm.config.ports) * ExportIds(ports);
      assert g in taken * ExportIds(ports);
    }
    if g :| g in taken * ExportIds(ports) {
      var id :| id in db && Rival(db, id, excludeVM) && g in ExportIds(db[id].vm.config.ports);
      assert g in ExportIds(db[id].vm.config.ports) * ExportIds(ports);
      var p :| p in ports && p.direction == Export && p.GlobalID() == g;
      var i :| 0 <= i < |ports| && ports[i] == p;
    }
    if i :| 0 <= i < |ports| && ports[i].direction == Export && ports[i].GlobalID() in taken {
      assert ports[i].GlobalID() in taken * ExportIds(ports);
    }
  }

  lemma RemovePut(db: Entries, id: string, e: Entry)
    requires id !in db
    ensures Remove(db[id := e], id) == db
  {
  }
}
