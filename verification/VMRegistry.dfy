/** What the VM database holds, the conflict rules between active VMs, and the effect of each
    operation on the entries. */
module VMRegistry {
  import opened Results
  import opened Text
  import opened VMNames
  import opened VMPorts
  import opened PortArrays

  const REVISION_NONE := -1

  datatype Domain = Domain(name: string, redirectTo: string, destinationPort: int)

  /** A do-action, written in the config file or announced by a script while the VM was built. */
  datatype Action = Action(script: string, fromConfig: bool)

  /** A tag maps to true when it was written in the config file, to false when a script set it. */
  datatype Config = Config(name: string, domains: seq<Domain>, ports: seq<VMPort>,
                           actions: map<string, Action>, tags: map<string, bool>,
                           hasBackup: bool, hasRestore: bool)

  datatype Operation = NoOperation | BackupInProgress | RestoreInProgress

  datatype VM = VM(config: Config, locked: bool, wip: Operation, mac: string, ip: string, lastIP: string)

  datatype Entry = Entry(name: VMName, vm: VM, active: bool)

  /** Entries by ID of their name. */
  type Entries = map<string, Entry>

  // -- conflicts ------------------------------------------------------------

  function DomainNames(domains: seq<Domain>): set<string> {
    set d | d in domains :: d.name
  }

  function ExportIds(ports: seq<VMPort>): set<string> {
    set p | p in ports && p.direction == Export :: p.GlobalID()
  }

  /** An active entry of another VM; the empty name excludes nobody. */
  predicate Rival(db: Entries, id: string, excludeVM: string)
    requires id in db
  {
    db[id].active && (excludeVM == "" || db[id].name.name != excludeVM)
  }

  predicate DomainConflict(db: Entries, domains: seq<Domain>, excludeVM: string) {
    exists id | id in db && Rival(db, id, excludeVM) ::
      DomainNames(db[id].vm.config.domains) * DomainNames(domains) != {}
  }

  predicate ExportConflict(db: Entries, ports: seq<VMPort>, excludeVM: string) {
    exists id | id in db && Rival(db, id, excludeVM) :: ExportIds(db[id].vm.config.ports) * ExportIds(ports) != {}
  }

  /** A VM that imports one of its own ports. */
  predicate SelfImport(ports: seq<VMPort>) {
    exists p, q | p in ports && q in ports :: p.direction == Import && q.GlobalID() == p.Exported().GlobalID()
  }

  predicate Conflict(db: Entries, config: Config, excludeVM: string) {
    DomainConflict(db, config.domains, excludeVM) || ExportConflict(db, config.ports, excludeVM)
      || SelfImport(config.ports)
  }

  /** An import of its own: a VM exports a private port that it also imports, of the same group. */
  lemma SelfImportMeaning(ports: seq<VMPort>)
    requires forall p | p in ports :: WellFormed(p)
    ensures SelfImport(ports) <==> exists p, q | p in ports && q in ports ::
      p.direction == Import && q.direction == Export && q.publicPort == 0 && q.port == p.port && q.group == p.group
  {
    forall p, q | p in ports && q in ports && p.direction == Import
      ensures q.GlobalID() == p.Exported().GlobalID() <==>
        q.direction == Export && q.publicPort == 0 && q.port == p.port && q.group == p.group
    {
      GlobalIdMeaning(q, p.Exported());
    }
  }

  // -- the invariant --------------------------------------------------------

  predicate DistinctDomains(domains: seq<Domain>) {
    forall i, j | 0 <= i < j < |domains| :: domains[i].name != domains[j].name
  }

  /** What reading a config file guarantees. */
  predicate ConfigOK(c: Config) {
    && ValidName(c.name) && DistinctDomains(c.domains)
    && (forall p | p in c.ports :: WellFormed(p)) && Distinct(c.ports) && Indexed(c.ports)
  }

  predicate NameFits(name: VMName, config: Config) {
    Valid(name) && config.name == name.name && ConfigOK(config)
  }

  predicate EntryOK(e: Entry) {
    NameFits(e.name, e.vm.config)
  }

  ghost predicate KeysAreIds(db: Entries) {
    forall id | id in db :: EntryOK(db[id]) && id == db[id].name.ID()
  }

  ghost predicate OneActive(db: Entries) {
    forall a, b | a in db && b in db && db[a].active && db[b].active && db[a].name.name == db[b].name.name :: a == b
  }

  predicate Apart(a: Config, b: Config) {
    DomainNames(a.domains) * DomainNames(b.domains) == {} && ExportIds(a.ports) * ExportIds(b.ports) == {}
  }

  ghost predicate ActivesApart(db: Entries) {
    forall a, b | a in db && b in db && a != b && db[a].active && db[b].active ::
      Apart(db[a].vm.config, db[b].vm.config)
  }

  /** No active VM imports a port of its own. */
  ghost predicate NoSelfImports(db: Entries) {
    forall id | id in db && db[id].active :: !SelfImport(db[id].vm.config.ports)
  }

  ghost predicate Inv(db: Entries) {
    KeysAreIds(db) && OneActive(db) && ActivesApart(db) && NoSelfImports(db)
  }

  // -- effects --------------------------------------------------------------

  /** The entries after giving the active flag of `name` to `revision` (to none of them if
      there is no such revision). */
  function Activate(db: Entries, name: string, revision: int): Entries {
    map id | id in db ::
      if db[id].name.name == name then db[id].(active := db[id].name.revision == revision) else db[id]
  }

  function Remove(db: Entries, id: string): Entries {
    map x | x in db && x != id :: db[x]
  }

  ghost predicate HasRevision(db: Entries, name: string, except: int) {
    exists id | id in db :: db[id].name.name == name && db[id].name.revision != except
  }

  /** The highest revision of `name`, leaving one revision aside. */
  ghost predicate IsHighest(db: Entries, name: string, except: int, revision: int) {
    && (exists id | id in db ::
          db[id].name.name == name && db[id].name.revision != except && db[id].name.revision == revision)
    && (forall id | id in db && db[id].name.name == name && db[id].name.revision != except ::
          db[id].name.revision <= revision)
  }

  /** The highest revision of `name` but one, or -1. */
  ghost function Highest(db: Entries, name: string, except: int): (r: int)
    ensures !HasRevision(db, name, except) ==> r == -1
    ensures HasRevision(db, name, except) ==> IsHighest(db, name, except, r)
  {
    if !HasRevision(db, name, except) then -1
    else
      HighestExists(db, name, except);
      var r :| IsHighest(db, name, except, r); r
  }

  lemma HighestExists(db: Entries, name: string, except: int)
    requires HasRevision(db, name, except)
    ensures exists r :: IsHighest(db, name, except, r)
  {
    var id :| id in db && db[id].name.name == name && db[id].name.revision != except;
    var best, rest := db[id].name.revision, db.Keys;
    while rest != {}
      invariant rest <= db.Keys
      invariant exists x | x in db ::
        db[x].name.name == name && db[x].name.revision != except && db[x].name.revision == best
      invariant forall x | x in db && x !in rest && db[x].name.name == name && db[x].name.revision != except ::
        db[x].name.revision <= best
    {
      var x :| x in rest;
      if db[x].name.name == name && db[x].name.revision != except && db[x].name.revision > best {
        best := db[x].name.revision;
      }
      rest := rest - {x};
    }
    assert IsHighest(db, name, except, best);
  }

  /** The loop over the entries by which a highest revision is found. */
  method FindHighest(db: Entries, name: string, except: int) returns (r: int)
    requires KeysAreIds(db)
    ensures r == Highest(db, name, except)
  {
    r := -1;
    var todo := db.Keys;
    while todo != {}
      invariant todo <= db.Keys
      invariant r >= -1
      invariant r >= 0 ==> exists id | id in db ::
        db[id].name.name == name && db[id].name.revision != except && db[id].name.revision == r
      invariant forall id | id in db && id !in todo && db[id].name.name == name && db[id].name.revision != except ::
        db[id].name.revision <= r
    {
      var id :| id in todo;
      todo := todo - {id};
      assert EntryOK(db[id]);
      if db[id].name.name == name && db[id].name.revision != except && db[id].name.revision > r {
        r := db[id].name.revision;
      }
    }
    HighestIs(db, name, except, r);
  }

  lemma HighestIs(db: Entries, name: string, except: int, r: int)
    requires r >= -1
    requires r >= 0 ==> exists id | id in db ::
      db[id].name.name == name && db[id].name.revision != except && db[id].name.revision == r
    requires forall id | id in db && db[id].name.name == name && db[id].name.revision != except ::
      0 <= db[id].name.revision <= r
    ensures Highest(db, name, except) == r
  {
  }

  /** The state an operation leaves behind, and whether it reports success. */
  datatype Outcome = Outcome(db: Entries, ok: bool)

  /** Add. `parentOK` is the answer of the proxy-chain parent, `saved` that of save(). */
  function Added(db: Entries, vm: VM, name: VMName, active: bool, parentOK: bool, saved: bool): Outcome {
    if active && (Conflict(db, vm.config, name.name) || !parentOK) then Outcome(db, false)
    else if name.ID() in db then Outcome(db, false)
    else
      var others := if active then Activate(db, name.name, REVISION_NONE) else db;
      if saved then Outcome(others[name.ID() := Entry(name, vm, active)], true) else Outcome(others, false)
  }

  predicate HasName(db: Entries, name: string) {
    exists id | id in db :: db[id].name.name == name
  }

  /** The checks of SetActiveRevision, made before it takes the lock. */
  predicate CanActivate(db: Entries, name: string, revision: int, parentOK: bool) {
    if revision == REVISION_NONE then HasName(db, name)
    else
      var id := VMName(name, revision).ID();
      id in db && !Conflict(db, db[id].vm.config, name) && parentOK
  }

  /** SetActiveRevision: a failed save does not take the flags back. */
  function Activated(db: Entries, name: string, revision: int, parentOK: bool, saved: bool): Outcome {
    if CanActivate(db, name, revision, parentOK) then Outcome(Activate(db, name, revision), saved)
    else Outcome(db, false)
  }

  /** Delete: an active entry first hands its flag to the highest other revision. */
  ghost function Deleted(db: Entries, name: VMName, parentOK: bool, saved1: bool, saved2: bool): Outcome {
    var id := name.ID();
    if id !in db then Outcome(db, false)
    else
      var e := db[id];
      var heir := Highest(db, e.name.name, e.name.revision);
      var handed := if e.active && heir >= 0 then Activated(db, e.name.name, heir, parentOK, saved1)
        else Outcome(db, true);
      if !handed.ok then handed else Outcome(Remove(handed.db, id), saved2)
  }

  /** Actions added by scripts are kept under a new config, unless it names them itself. */
  function CarriedActions(before: map<string, Action>, actions: map<string, Action>): map<string, Action> {
    map a | a in before.Keys + actions.Keys && (a in actions || !before[a].fromConfig) ::
      if a in actions then actions[a] else before[a]
  }

  function CarriedTags(before: map<string, bool>, tags: map<string, bool>): map<string, bool> {
    map t | t in before.Keys + tags.Keys && (t in tags || !before[t]) ::
      t in tags && tags[t] && (t in before ==> before[t])
  }

  /** The new config of a VM keeps what scripts had added to the old one. */
  function Carried(before: Config, config: Config): Config {
    config.(actions := CarriedActions(before.actions, config.actions), tags := CarriedTags(before.tags, config.tags))
  }

  /** RedefineVM replaces the config of an entry; an active one must not conflict. */
  function Redefined(db: Entries, id: string, config: Config, parentOK: bool, force: bool): Outcome
    requires id in db
  {
    var e := db[id];
    if (e.vm.locked && !force) || e.vm.wip != NoOperation || config.name != e.vm.config.name then Outcome(db, false)
    else if e.active && (Conflict(db, config, config.name) || !parentOK) then Outcome(db, false)
    else Outcome(db[id := e.(vm := e.vm.(config := Carried(e.vm.config, config)))], true)
  }

  // -- each operation keeps the invariant -----------------------------------

  lemma ActivateKeeps(db: Entries, name: string, revision: int)
    requires KeysAreIds(db)
    ensures KeysAreIds(Activate(db, name, revision))
    ensures OneActive(db) ==> OneActive(Activate(db, name, revision))
  {
  }

  lemma ApartSymmetric(a: Config, b: Config)
    requires Apart(a, b)
    ensures Apart(b, a)
  {
  }

  lemma NoConflictIsApart(db: Entries, config: Config, name: string, id: string)
    requires id in db && db[id].active && db[id].name.name != name
    requires !DomainConflict(db, config.domains, name) && !ExportConflict(db, config.ports, name)
    ensures Apart(db[id].vm.config, config) && Apart(config, db[id].vm.config)
  {
  }

  /** An active VM conflicts with no other one, whatever happens to the revisions of its name. */
  lemma ActiveHasNoConflict(before: Entries, db: Entries, id: string)
    requires Inv(before) && id in before && before[id].active
    requires forall x | x in db && db[x].name.name != before[id].name.name ::
      x in before && db[x].name == before[x].name && db[x].active == before[x].active && db[x].vm.config
        == before[x].vm.config
    ensures !Conflict(db, before[id].vm.config, before[id].name.name)
  {
    assert EntryOK(before[id]);
  }

  /** An entry that may stand beside the other active ones. */
  ghost predicate Fits(db: Entries, id: string, e: Entry) {
    forall x | x in db && x != id && db[x].active ::
      db[x].name.name != e.name.name && Apart(db[x].vm.config, e.vm.config)
  }

  lemma PutKeepsInv(db: Entries, id: string, e: Entry)
    requires Inv(db) && EntryOK(e) && id == e.name.ID()
    requires e.active ==> Fits(db, id, e) && !SelfImport(e.vm.config.ports)
    ensures Inv(db[id := e])
  {
    var after := db[id := e];
    forall a, b | a in after && b in after && a != b && after[a].active && after[b].active
      ensures Apart(after[a].vm.config, after[b].vm.config)
    {
      if a == id {
        ApartSymmetric(db[b].vm.config, e.vm.config);
      }
    }
  }

  /** Taking active flags away keeps the invariant. */
  lemma FewerActiveKeepsInv(db: Entries, after: Entries)
    requires Inv(db) && Fewer(db, after)
    ensures Inv(after)
  {
    FewerKeepsKeys(db, after);
    FewerKeepsApart(db, after);
  }

  /** Some entries have lost their active flag. */
  predicate Fewer(db: Entries, after: Entries) {
    after.Keys == db.Keys && forall x | x in db ::
      after[x] == db[x].(active := after[x].active) && (after[x].active ==> db[x].active)
  }

  lemma FewerKeepsKeys(db: Entries, after: Entries)
    requires KeysAreIds(db) && OneActive(db) && Fewer(db, after)
    ensures KeysAreIds(after) && OneActive(after)
  {
  }

  lemma FewerKeepsApart(db: Entries, after: Entries)
    requires ActivesApart(db) && NoSelfImports(db) && Fewer(db, after)
    ensures ActivesApart(after) && NoSelfImports(after)
  {
  }

  lemma DeactivateKeepsInv(db: Entries, name: string)
    requires Inv(db)
    ensures Inv(Activate(db, name, REVISION_NONE))
    ensures forall id | id in db && db[id].name.name == name :: !Activate(db, name, REVISION_NONE)[id].active
  {
    assert forall id | id in db :: Valid(db[id].name);
    FewerActiveKeepsInv(db, Activate(db, name, REVISION_NONE));
  }

  lemma RemoveKeepsInv(db: Entries, id: string)
    requires Inv(db)
    ensures Inv(Remove(db, id))
  {
  }

  lemma NoneActive(db: Entries, name: string)
    requires KeysAreIds(db)
    ensures forall id | id in db && db[id].name.name == name :: !Activate(db, name, REVISION_NONE)[id].active
  {
    assert forall id | id in db :: EntryOK(db[id]);
  }

  lemma PutKeepsOneActive(db: Entries, id: string, e: Entry)
    requires KeysAreIds(db) && OneActive(db) && EntryOK(e) && id == e.name.ID()
    requires e.active ==> forall x | x in db && db[x].name.name == e.name.name :: !db[x].active
    ensures KeysAreIds(db[id := e]) && OneActive(db[id := e])
  {
  }

  /** Whatever other VMs have, an addition leaves one active revision per name. */
  lemma AddKeepsOneActive(db: Entries, vm: VM, name: VMName, active: bool, parentOK: bool, saved: bool)
    requires KeysAreIds(db) && OneActive(db) && EntryOK(Entry(name, vm, active))
    ensures var after := Added(db, vm, name, active, parentOK, saved).db; KeysAreIds(after) && OneActive(after)
  {
    if active {
      ActivateKeeps(db, name.name, REVISION_NONE);
      NoneActive(db, name.name);
      PutKeepsOneActive(Activate(db, name.name, REVISION_NONE), name.ID(), Entry(name, vm, active));
    } else {
      PutKeepsOneActive(db, name.ID(), Entry(name, vm, active));
    }
  }

  lemma AddKeepsInv(db: Entries, vm: VM, name: VMName, active: bool, parentOK: bool, saved: bool)
    requires Inv(db) && EntryOK(Entry(name, vm, active))
    ensures Inv(Added(db, vm, name, active, parentOK, saved).db)
  {
    var e := Entry(name, vm, active);
    if active && !Conflict(db, vm.config, name.name) {
      DeactivateKeepsInv(db, name.name);
      var others := Activate(db, name.name, REVISION_NONE);
      forall x | x in others && x != name.ID() && others[x].active
        ensures others[x].name.name != name.name && Apart(others[x].vm.config, vm.config)
      {
        NoConflictIsApart(db, vm.config, name.name, x);
      }
      PutKeepsInv(others, name.ID(), e);
    } else if !active {
      PutKeepsInv(db, name.ID(), e);
    }
  }

  lemma ActivateKeepsApart(db: Entries, name: string, revision: int)
    requires Inv(db) && CanActivate(db, name, revision, true)
    ensures ActivesApart(Activate(db, name, revision)) && NoSelfImports(Activate(db, name, revision))
  {
    var after := Activate(db, name, revision);
    forall a, b | a in after && b in after && a != b && after[a].active && after[b].active
      ensures Apart(after[a].vm.config, after[b].vm.config)
    {
      if db[a].name.name == name {
        assert db[a].name == VMName(name, revision) && db[b].name.name != name;
        NoConflictIsApart(db, db[a].vm.config, name, b);
      } else if db[b].name.name == name {
        assert db[b].name == VMName(name, revision);
        NoConflictIsApart(db, db[b].vm.config, name, a);
      }
    }
  }

  lemma SetActiveKeepsInv(db: Entries, name: string, revision: int, parentOK: bool, saved: bool)
    requires Inv(db)
    ensures Inv(Activated(db, name, revision, parentOK, saved).db)
  {
    ActivateKeeps(db, name, revision);
    if CanActivate(db, name, revision, parentOK) {
      ActivateKeepsApart(db, name, revision);
    }
  }

  lemma DeleteKeepsInv(db: Entries, name: VMName, parentOK: bool, saved1: bool, saved2: bool)
    requires Inv(db)
    ensures Inv(Deleted(db, name, parentOK, saved1, saved2).db)
  {
    if name.ID() in db {
      var e := db[name.ID()];
      var heir := Highest(db, e.name.name, e.name.revision);
      SetActiveKeepsInv(db, e.name.name, heir, parentOK, saved1);
      RemoveKeepsInv(db, name.ID());
      RemoveKeepsInv(Activated(db, e.name.name, heir, parentOK, saved1).db, name.ID());
    }
  }

  lemma RedefineKeepsInv(db: Entries, id: string, config: Config, parentOK: bool, force: bool)
    requires Inv(db) && id in db && ConfigOK(config)
    ensures Inv(Redefined(db, id, config, parentOK, force).db)
  {
    var e := db[id];
    if Redefined(db, id, config, parentOK, force).ok {
      var redefined := e.(vm := e.vm.(config := Carried(e.vm.config, config)));
      if e.active {
        forall x | x in db && x != id && db[x].active
          ensures db[x].name.name != e.name.name && Apart(db[x].vm.config, config)
        {
          NoConflictIsApart(db, config, config.name, x);
        }
      }
      PutKeepsInv(db, id, redefined);
    }
  }

  lemma RedefineKeepsOneActive(db: Entries, id: string, config: Config, parentOK: bool, force: bool)
    requires KeysAreIds(db) && OneActive(db) && id in db && ConfigOK(config)
    ensures var after := Redefined(db, id, config, parentOK, force).db; KeysAreIds(after) && OneActive(after)
  {
    var e := db[id];
    if e.vm.config.name == config.name {
      SameFlagKeeps(db, id, e.(vm := e.vm.(config := Carried(e.vm.config, config))));
    }
  }

  lemma SameFlagKeeps(db: Entries, id: string, e: Entry)
    requires KeysAreIds(db) && OneActive(db) && id in db && EntryOK(e)
    requires e.name == db[id].name && e.active == db[id].active
    ensures KeysAreIds(db[id := e]) && OneActive(db[id := e])
  {
  }

  /** A new config is refused for a VM that is locked, unless forced, or busy, or of another name, and for an
      active one in conflict. Otherwise only the config changes: it is the new one, with what scripts had
      added to the old one: actions that it does not name, and tags, which stay tags of scripts. */
  lemma RedefinedMeaning(db: Entries, id: string, config: Config, parentOK: bool, force: bool)
    requires id in db
    ensures var e, r := db[id], Redefined(db, id, config, parentOK, force);
      && (r.ok <==>
            && (!e.vm.locked || force) && e.vm.wip == NoOperation && config.name == e.vm.config.name
            && (e.active ==> parentOK && !Conflict(db, config, config.name)))
      && r.db.Keys == db.Keys && (forall x | x in db && (x != id || !r.ok) :: r.db[x] == db[x])
      && (r.ok ==>
            var c, before := r.db[id].vm.config, e.vm.config;
            && r.db[id] == e.(vm := e.vm.(config := c))
            && c == config.(actions := c.actions, tags := c.tags)
            && (forall a :: a in c.actions <==>
                  a in config.actions || (a in before.actions && !before.actions[a].fromConfig))
            && (forall a | a in c.actions ::
                  c.actions[a] == if a in config.actions then config.actions[a] else before.actions[a])
            && (forall t :: t in c.tags <==> t in config.tags || (t in before.tags && !before.tags[t]))
            && (forall t | t in c.tags ::
                  c.tags[t] <==> t in config.tags && config.tags[t] && (t in before.tags ==> before.tags[t])))
  {
  }

  predicate AllFromConfig(config: Config) {
    (forall a | a in config.actions :: config.actions[a].fromConfig) && (forall t | t in config.tags :: config.tags[t])
  }

  /** Redefining a VM twice is redefining it once with the last config, unless the first one hid
      an action added by a script that the last one does not name. */
  lemma RedefinedTwice(before: Config, first: Config, last: Config)
    requires AllFromConfig(first) && AllFromConfig(last)
    ensures Carried(Carried(before, first), last) == Carried(before, last) <==>
      forall a | a in before.actions && !before.actions[a].fromConfig && a in first.actions :: a in last.actions
  {
    ActionsTwice(before.actions, first.actions, last.actions);
    TagsTwice(before.tags, first.tags, last.tags);
  }

  lemma ActionsTwice(before: map<string, Action>, first: map<string, Action>, last: map<string, Action>)
    requires forall a | a in first :: first[a].fromConfig
    ensures CarriedActions(CarriedActions(before, first), last) == CarriedActions(before, last) <==>
      forall a | a in before && !before[a].fromConfig && a in first :: a in last
  {
    var mid := CarriedActions(before, first);
    var twice, once := CarriedActions(mid, last), CarriedActions(before, last);
    assert twice.Keys <= once.Keys;
    assert forall a | a in twice :: twice[a] == once[a];
    if a :| a in before && !before[a].fromConfig && a in first && a !in last {
      assert a in once && a !in twice;
    } else {
      assert once.Keys <= twice.Keys;
    }
  }

  lemma TagsTwice(before: map<string, bool>, first: map<string, bool>, last: map<string, bool>)
    requires forall t | t in first :: first[t]
    ensures CarriedTags(CarriedTags(before, first), last) == CarriedTags(before, last)
  {
  }

  // -- what a failed save leaves --------------------------------------------

  ghost predicate HasActive(db: Entries, name: string) {
    exists id :: ActiveOf(db, name, id)
  }

  lemma ActivateNothing(db: Entries, name: string)
    requires KeysAreIds(db)
    ensures Activate(db, name, REVISION_NONE) == db <==> !HasActive(db, name)
  {
    assert forall id | id in db :: EntryOK(db[id]);
    var after := Activate(db, name, REVISION_NONE);
    assert forall id | id in db && after[id] != db[id] :: ActiveOf(db, name, id);
    assert forall id | ActiveOf(db, name, id) :: after[id] != db[id];
  }

  lemma ActivateAgain(db: Entries, name: string, revision: int)
    requires Inv(db) && VMName(name, revision).ID() in db
    requires db[VMName(name, revision).ID()].name == VMName(name, revision)
    ensures Activate(db, name, revision) == db <==> ActiveOf(db, name, VMName(name, revision).ID())
  {
  }

  /** An addition whose save fails leaves the database as it was, except that another active
      revision of the name has lost its flag. */
  lemma FailedAdd(db: Entries, vm: VM, name: VMName, active: bool, parentOK: bool)
    requires Inv(db) && Added(db, vm, name, active, parentOK, true).ok
    ensures Added(db, vm, name, active, parentOK, false).db == db <==> !active || !HasActive(db, name.name)
  {
    ActivateNothing(db, name.name);
  }

  /** A change of active revision is accepted if the name exists, to deactivate all of it, or if the revision
      exists, has no conflict and the parent agrees. Then exactly the flags of the name change. */
  lemma ActivatedMeaning(db: Entries, name: string, revision: int, parentOK: bool, saved: bool)
    ensures var id, r := VMName(name, revision).ID(), Activated(db, name, revision, parentOK, saved);
      var accepted := if revision == -1 then exists x | x in db :: db[x].name.name == name
        else id in db && !Conflict(db, db[id].vm.config, name) && parentOK;
      && r.db.Keys == db.Keys && (r.ok <==> accepted && saved)
      && forall x | x in db ::
           r.db[x] == if accepted && db[x].name.name == name
             then db[x].(active := db[x].name.revision == revision) else db[x]
  {
  }

  /** A change of active revision whose save fails is not taken back: the database is as it was
      only if that revision already was the active one. */
  lemma FailedActivation(db: Entries, name: string, revision: int, parentOK: bool)
    requires Inv(db) && CanActivate(db, name, revision, parentOK) && ValidName(name) && revision >= REVISION_NONE
    ensures Activated(db, name, revision, parentOK, false).db == db <==>
      if revision == REVISION_NONE then !HasActive(db, name) else ActiveOf(db, name, VMName(name, revision).ID())
  {
    if revision == REVISION_NONE {
      ActivateNothing(db, name);
    } else {
      var id := VMName(name, revision).ID();
      assert EntryOK(db[id]);
      IdInjective(db[id].name, VMName(name, revision));
      ActivateAgain(db, name, revision);
    }
  }

  /** The active entry cannot hand its flag over. */
  ghost predicate CannotHandOver(db: Entries, name: VMName, parentOK: bool)
    requires name.ID() in db
  {
    var e := db[name.ID()];
    && e.active && HasRevision(db, e.name.name, e.name.revision)
    && !CanActivate(db, e.name.name, Highest(db, e.name.name, e.name.revision), parentOK)
  }

  /** A failed deletion leaves the database as it was if and only if there was no such entry, or it
      could not hand its flag over. */
  lemma FailedDelete(db: Entries, name: VMName, parentOK: bool, saved1: bool, saved2: bool)
    requires KeysAreIds(db) && !Deleted(db, name, parentOK, saved1, saved2).ok
    ensures Deleted(db, name, parentOK, saved1, saved2).db == db <==>
      name.ID() !in db || CannotHandOver(db, name, parentOK)
  {
    if name.ID() in db {
      var e := db[name.ID()];
      HighestIsRevision(db, e.name.name, e.name.revision);
      assert !Activate(db, e.name.name, Highest(db, e.name.name, e.name.revision))[name.ID()].active || !e.active
        || !HasRevision(db, e.name.name, e.name.revision);
    }
  }

  /** Otherwise one of the saves failed: the first one after the flag was handed over, or the second one
      after the entry was removed as well. */
  lemma FailedDeleteLeaves(db: Entries, name: VMName, parentOK: bool, saved1: bool, saved2: bool)
    requires KeysAreIds(db) && !Deleted(db, name, parentOK, saved1, saved2).ok
    requires name.ID() in db && !CannotHandOver(db, name, parentOK)
    ensures var e := db[name.ID()];
      var left := Deleted(db, name, parentOK, saved1, saved2).db;
      if e.active && HasRevision(db, e.name.name, e.name.revision) && !saved1
      then left == Activate(db, e.name.name, Highest(db, e.name.name, e.name.revision))
      else left == Deleted(db, name, true, true, true).db && name.ID() !in left
  {
    var e := db[name.ID()];
    HighestIsRevision(db, e.name.name, e.name.revision);
  }

  lemma HighestIsRevision(db: Entries, name: string, except: int)
    requires KeysAreIds(db)
    ensures HasRevision(db, name, except) <==> Highest(db, name, except) >= 0
    ensures HasRevision(db, name, except) ==> Highest(db, name, except) != except
  {
    assert forall id | id in db :: Valid(db[id].name);
  }

  // -- every run ------------------------------------------------------------

  datatype Step =
    | Add(vm: VM, name: VMName, active: bool, parentOK: bool, saved: bool)
    | SetActive(vmName: string, revision: int, parentOK: bool, saved: bool)
    | Delete(name: VMName, parentOK: bool, saved: bool, saved2: bool)
    | Redefine(id: string, config: Config, parentOK: bool, force: bool)
    | Lock(id: string, locked: bool)

  /** Callers add VMs under the name of their config, and only use configs that were read. */
  predicate Allowed(db: Entries, step: Step) {
    match step
    case Add(vm, name, active, _, _) => EntryOK(Entry(name, vm, active))
    case Redefine(id, config, _, _) => id in db && ConfigOK(config)
    case Lock(id, _) => id in db
    case _ => true
  }

  ghost function Next(db: Entries, step: Step): Entries
    requires Allowed(db, step)
  {
    match step
    case Add(vm, name, active, parentOK, saved) => Added(db, vm, name, active, parentOK, saved).db
    case SetActive(vmName, revision, parentOK, saved) => Activated(db, vmName, revision, parentOK, saved).db
    case Delete(name, parentOK, saved, saved2) => Deleted(db, name, parentOK, saved, saved2).db
    case Redefine(id, config, parentOK, force) => Redefined(db, id, config, parentOK, force).db
    case Lock(id, locked) => db[id := db[id].(vm := db[id].vm.(locked := locked))]
  }

  ghost predicate IsRun(db: Entries, steps: seq<Step>)
    decreases |steps|
  {
    steps == [] || (Allowed(db, steps[0]) && IsRun(Next(db, steps[0]), steps[1..]))
  }

  ghost function After(db: Entries, steps: seq<Step>): Entries
    requires IsRun(db, steps)
    decreases |steps|
  {
    if steps == [] then db else After(Next(db, steps[0]), steps[1..])
  }

  lemma StepKeepsInv(db: Entries, step: Step)
    requires Inv(db) && Allowed(db, step)
    ensures Inv(Next(db, step))
  {
    match step
    case Add(vm, name, active, parentOK, saved) => AddKeepsInv(db, vm, name, active, parentOK, saved);
    case SetActive(vmName, revision, parentOK, saved) => SetActiveKeepsInv(db, vmName, revision, parentOK, saved);
    case Delete(name, parentOK, saved, saved2) => DeleteKeepsInv(db, name, parentOK, saved, saved2);
    case Redefine(id, config, parentOK, force) => RedefineKeepsInv(db, id, config, parentOK, force);
    case Lock(id, locked) => PutKeepsInv(db, id, db[id].(vm := db[id].vm.(locked := locked)));
  }

  /** Every run of operations, with any answers of the disk and of the proxy-chain parent,
      keeps: the key of an entry is its ID, a name has at most one active revision, and active
      VMs have disjoint domains and exports. */
  lemma {:induction false} RunKeepsInv(db: Entries, steps: seq<Step>)
    requires Inv(db) && IsRun(db, steps)
    ensures Inv(After(db, steps))
    decreases |steps|
  {
    if steps != [] {
      StepKeepsInv(db, steps[0]);
      RunKeepsInv(Next(db, steps[0]), steps[1..]);
    }
  }

  // -- lookups --------------------------------------------------------------

  /** The next revision of a name always has a free ID. */
  lemma NextRevisionIsFree(db: Entries, name: string)
    requires KeysAreIds(db) && ValidName(name)
    ensures var r := Highest(db, name, REVISION_NONE) + 1; r >= 0 && VMName(name, r).ID() !in db
  {
    var next := VMName(name, Highest(db, name, REVISION_NONE) + 1);
    if HasRevision(db, name, REVISION_NONE) {
      var id :| id in db && db[id].name.name == name && db[id].name.revision == next.revision - 1;
      assert Valid(db[id].name);
    }
    forall id | id in db ensures id != next.ID() {
      assert EntryOK(db[id]);
      assert db[id].name != next;
      if db[id].name.ID() == next.ID() {
        IdInjective(db[id].name, next);
      }
    }
  }

  ghost predicate ActiveOf(db: Entries, name: string, id: string) {
    id in db && db[id].name.name == name && db[id].active
  }

  /** The entry `id` is gone, and of the rest of its name exactly the highest revision is active. */
  predicate Promotes(db: Entries, after: Entries, id: string)
    requires id in db
  {
    var name := db[id].name.name;
    && after.Keys == db.Keys - {id}
    && (forall x | x in after :: after[x].name == db[x].name && after[x].vm == db[x].vm)
    && (forall x | x in after && db[x].name.name != name :: after[x] == db[x])
    && (forall x | x in after && after[x].name.name == name :: after[x].active <==>
          forall y | y in after && after[y].name.name == name :: after[y].name.revision <= after[x].name.revision)
  }

  lemma HandedToHeir(db: Entries, id: string, heir: int)
    requires id in db && IsHighest(db, db[id].name.name, db[id].name.revision, heir)
    requires forall x | x in db && db[x].name == db[id].name :: x == id
    ensures Promotes(db, Remove(Activate(db, db[id].name.name, heir), id), id)
  {
    var h :| h in db && db[h].name.name == db[id].name.name && db[h].name.revision != db[id].name.revision
      && db[h].name.revision == heir;
    assert h in Remove(Activate(db, db[id].name.name, heir), id);
  }

  lemma OnlyKeyOfName(db: Entries, id: string)
    requires KeysAreIds(db) && id in db
    ensures forall x | x in db && db[x].name == db[id].name :: x == id
  {
  }

  lemma DeletedActive(db: Entries, name: VMName, parentOK: bool, saved1: bool, saved2: bool)
    requires name.ID() in db && db[name.ID()].active && Deleted(db, name, parentOK, saved1, saved2).ok
    ensures var e := db[name.ID()];
      var heir := Highest(db, e.name.name, e.name.revision);
      Deleted(db, name, parentOK, saved1, saved2).db
        == Remove(if heir >= 0 then Activate(db, e.name.name, heir) else db, name.ID())
  {
  }

  lemma NoHeir(db: Entries, id: string)
    requires id in db && !HasRevision(db, db[id].name.name, db[id].name.revision)
    requires forall x | x in db && db[x].name == db[id].name :: x == id
    ensures Promotes(db, Remove(db, id), id)
  {
  }

  /** A successful deletion of an active entry leaves exactly the highest remaining revision of
      its name active, and touches nothing else. */
  lemma DeletePromotes(db: Entries, name: VMName, parentOK: bool, saved1: bool, saved2: bool)
    requires Inv(db) && name.ID() in db && db[name.ID()].active
    requires Deleted(db, name, parentOK, saved1, saved2).ok
    ensures Promotes(db, Deleted(db, name, parentOK, saved1, saved2).db, name.ID())
  {
    var e := db[name.ID()];
    OnlyKeyOfName(db, name.ID());
    HighestIsRevision(db, e.name.name, e.name.revision);
    DeletedActive(db, name, parentOK, saved1, saved2);
    if HasRevision(db, e.name.name, e.name.revision) {
      HandedToHeir(db, name.ID(), Highest(db, e.name.name, e.name.revision));
    } else {
      NoHeir(db, name.ID());
    }
  }

  lemma SameRevisionSameKey(db: Entries, id: string)
    requires KeysAreIds(db) && id in db
    ensures forall x | x in db && db[x].name.name == db[id].name.name && db[x].name.revision
      == db[id].name.revision :: x == id
  {
  }
}
