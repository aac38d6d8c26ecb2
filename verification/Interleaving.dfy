/** Concurrent callers of the VM database. An operation checks first and takes the lock later,
    so the commits of other callers may fall between the two. */
module Interleaving {
  import opened VMNames
  import opened VMPorts
  import opened PortArrays
  import opened VMRegistry
  import opened PortJoin
  import opened DomainTables
  import opened VMDatabases

  /** What a caller still has to do: the next part of its operation that holds the lock. Handing
      is a deletion that found an heir for the active flag but has not checked it yet. */
  datatype Pending =
    | Adding(vm: VM, name: VMName, active: bool)
    | Activating(vmName: string, revision: int)
    | Handing(name: VMName, vmName: string, heir: int)
    | HandingOver(name: VMName, vmName: string, heir: int)
    | Removing(name: VMName)
    | Redefining(id: string, config: Config)

  datatype State = State(db: Entries, greenhouse: Entries, pending: map<nat, Pending>)

  /** Enter and Leave are the whole of a change of the greenhouse. */
  datatype Step =
    | Begin(caller: nat, pending: Pending)
    | HandOver(caller: nat)
    | GiveUp(caller: nat)
    | Commit(caller: nat, disk: Disk)
    | Enter(name: VMName, vm: VM)
    | Leave(name: VMName)

  /** Callers add VMs under the name of their config, and only use configs that were read. */
  predicate WellMade(p: Pending) {
    && (p.Adding? ==> EntryOK(Entry(p.name, p.vm, p.active)))
    && (p.Redefining? ==> ConfigOK(p.config))
  }

  predicate Allowed(s: State, step: Step) {
    match step
    case Begin(c, p) => c !in s.pending && WellMade(p)
    case HandOver(c) => c in s.pending && s.pending[c].Handing?
    case GiveUp(c) => c in s.pending
    case Commit(c, _) => c in s.pending && !s.pending[c].Handing?
    case Enter(name, vm) => EntryOK(Entry(name, vm, false))
    case Leave(_) => true
  }

  /** The checks a step relies on hold at that very moment. */
  ghost predicate Honest(s: State, step: Step)
    requires Allowed(s, step)
  {
    match step
    case Begin(_, Adding(vm, name, active)) => active ==> !Conflict(s.db, vm.config, name.name)
    case Begin(_, Activating(vmName, revision)) => CanActivate(s.db, vmName, revision, true)
    case Begin(_, Handing(name, vmName, heir)) =>
      && name.ID() in s.db && s.db[name.ID()].active && s.db[name.ID()].name.name == vmName
      && heir == Highest(s.db, vmName, name.revision) && heir >= 0
    case Begin(_, HandingOver(_, _, _)) => false
    case Begin(_, Removing(name)) =>
      name.ID() in s.db && (s.db[name.ID()].active ==> Highest(s.db, name.name, name.revision) < 0)
    case Begin(_, Redefining(id, config)) =>
      id in s.db && Redefines(s.db, id, config) && (s.db[id].active ==> !Conflict(s.db, config, config.name))
    case HandOver(c) => CanActivate(s.db, s.pending[c].vmName, s.pending[c].heir, true)
    case _ => true
  }

  /** A new config has the name of the old one. */
  predicate Redefines(db: Entries, id: string, config: Config) {
    id in db && db[id].vm.config.name == config.name
  }

  /** The entries that a commit tries to save. */
  function Tentative(db: Entries, p: Pending): Entries {
    match p
    case Adding(vm, name, active) =>
      if name.ID() in db then db
      else
        var others := if active then Activate(db, name.name, REVISION_NONE) else db;
        others[name.ID() := Entry(name, vm, active)]
    case Activating(vmName, revision) => Activate(db, vmName, revision)
    case HandingOver(_, vmName, heir) => Activate(db, vmName, heir)
    case Removing(name) => Remove(db, name.ID())
    case Redefining(id, config) =>
      if Redefines(db, id, config) then db[id := WithConfig(db[id], config)] else db
    case Handing(_, _, _) => db
  }

  function WithConfig(e: Entry, config: Config): Entry {
    e.(vm := e.vm.(config := Carried(e.vm.config, config)))
  }

  /** The commit saves the entries. */
  ghost predicate Saved(db: Entries, greenhouse: Entries, p: Pending, disk: Disk) {
    (p.Adding? ==> p.name.ID() !in db) && Saves(disk, Tentative(db, p), greenhouse)
  }

  /** The entries after a commit: only an addition that could not be saved is taken back. */
  ghost function Committed(db: Entries, greenhouse: Entries, p: Pending, disk: Disk): Entries {
    if p.Adding? && p.name.ID() !in db && !Saved(db, greenhouse, p, disk)
    then Remove(Tentative(db, p), p.name.ID())
    else Tentative(db, p)
  }

  function Without(pending: map<nat, Pending>, c: nat): map<nat, Pending> {
    map d | d in pending && d != c :: pending[d]
  }

  ghost function Next(s: State, step: Step): State
    requires Allowed(s, step)
  {
    match step
    case Begin(c, p) => s.(pending := s.pending[c := p])
    case HandOver(c) =>
      var p := s.pending[c];
      s.(pending := s.pending[c := HandingOver(p.name, p.vmName, p.heir)])
    case GiveUp(c) => s.(pending := Without(s.pending, c))
    case Commit(c, disk) =>
      var p := s.pending[c];
      s.(db := Committed(s.db, s.greenhouse, p, disk),
         pending := if p.HandingOver? && Saved(s.db, s.greenhouse, p, disk) then s.pending[c := Removing(p.name)]
           else Without(s.pending, c))
    case Enter(name, vm) =>
      if name.ID() in s.greenhouse then s
      else s.(greenhouse := s.greenhouse[name.ID() := Entry(name, vm, false)])
    case Leave(name) => s.(greenhouse := Remove(s.greenhouse, name.ID()))
  }

  /** What the commit of each operation does: flags move whether it is saved or not, an addition that is not
      saved is taken back, and a deletion goes on once its change of flags is saved. */
  lemma CommitMeaning(s: State, c: nat, disk: Disk)
    requires Allowed(s, Commit(c, disk))
    ensures var t, p := Next(s, Commit(c, disk)), s.pending[c];
      && t.greenhouse == s.greenhouse
      && (forall d | d != c ::
            (d in t.pending <==> d in s.pending) && (d in t.pending ==> t.pending[d] == s.pending[d]))
      && match p
         case Adding(vm, name, active) =>
           var flags := if active && name.ID() !in s.db then Activate(s.db, name.name, REVISION_NONE) else s.db;
           var more := flags[name.ID() := Entry(name, vm, active)];
           c !in t.pending &&
             t.db == if name.ID() !in s.db && Saves(disk, more, s.greenhouse) then more else flags
         case Activating(vmName, revision) => t.db == Activate(s.db, vmName, revision) && c !in t.pending
         case HandingOver(name, vmName, heir) =>
           && t.db == Activate(s.db, vmName, heir)
           && (c in t.pending <==> Saves(disk, t.db, s.greenhouse))
           && (c in t.pending ==> t.pending[c] == Removing(name))
         case Removing(name) => t.db == Remove(s.db, name.ID()) && c !in t.pending
         case Redefining(id, config) =>
           && c !in t.pending
           && t.db == if id in s.db && s.db[id].vm.config.name == config.name
                then s.db[id := s.db[id].(vm := s.db[id].vm.(config := Carried(s.db[id].vm.config, config)))]
                else s.db
         case Handing(_, _, _) => false
  {
    match s.pending[c]
    case Adding(vm, name, active) =>
      if name.ID() !in s.db {
        var flags := if active then Activate(s.db, name.name, REVISION_NONE) else s.db;
        RemovePut(flags, name.ID(), Entry(name, vm, active));
      }
    case _ =>
  }

  ghost predicate IsRun(s: State, steps: seq<Step>)
    decreases |steps|
  {
    steps == [] || (Allowed(s, steps[0]) && IsRun(Next(s, steps[0]), steps[1..]))
  }

  ghost function After(s: State, steps: seq<Step>): State
    requires IsRun(s, steps)
    decreases |steps|
  {
    if steps == [] then s else After(Next(s, steps[0]), steps[1..])
  }

  ghost predicate AllHonest(s: State, steps: seq<Step>)
    requires IsRun(s, steps)
    decreases |steps|
  {
    steps == [] || (Honest(s, steps[0]) && AllHonest(Next(s, steps[0]), steps[1..]))
  }

  ghost predicate Consistent(s: State) {
    && KeysAreIds(s.db) && OneActive(s.db) && GreenhouseOK(s.greenhouse)
    && forall c | c in s.pending :: WellMade(s.pending[c])
  }

  lemma CommittedIsAdded(db: Entries, greenhouse: Entries, vm: VM, name: VMName, active: bool, disk: Disk)
    requires active ==> !Conflict(db, vm.config, name.name)
    ensures var p := Adding(vm, name, active);
      Committed(db, greenhouse, p, disk) == Added(db, vm, name, active, true, Saved(db, greenhouse, p, disk)).db
  {
    if name.ID() !in db {
      RemovePut(if active then Activate(db, name.name, REVISION_NONE) else db, name.ID(), Entry(name, vm, active));
    }
  }

  lemma InsertedKeepsOneActive(db: Entries, vm: VM, name: VMName, active: bool)
    requires KeysAreIds(db) && OneActive(db) && EntryOK(Entry(name, vm, active))
    ensures KeysAreIds(Tentative(db, Adding(vm, name, active))) && OneActive(Tentative(db, Adding(vm, name, active)))
  {
    if active {
      ActivateKeeps(db, name.name, REVISION_NONE);
      NoneActive(db, name.name);
      PutKeepsOneActive(Activate(db, name.name, REVISION_NONE), name.ID(), Entry(name, vm, active));
    } else {
      PutKeepsOneActive(db, name.ID(), Entry(name, vm, active));
    }
  }

  lemma CommittedKeeps(db: Entries, greenhouse: Entries, p: Pending, disk: Disk)
    requires KeysAreIds(db) && OneActive(db) && WellMade(p)
    ensures var after := Committed(db, greenhouse, p, disk); KeysAreIds(after) && OneActive(after)
  {
    match p
    case Adding(vm, name, active) => InsertedKeepsOneActive(db, vm, name, active);
    case Activating(vmName, revision) => ActivateKeeps(db, vmName, revision);
    case HandingOver(_, vmName, heir) => ActivateKeeps(db, vmName, heir);
    case Removing(_) =>
    case Redefining(_, _) =>
    case Handing(_, _, _) =>
  }

  lemma StepKeepsOneActive(s: State, step: Step)
    requires Consistent(s) && Allowed(s, step)
    ensures Consistent(Next(s, step))
  {
    if step.Commit? {
      CommittedKeeps(s.db, s.greenhouse, s.pending[step.caller], step.disk);
    }
  }

  /** Whatever the order in which any number of callers make their steps, whether saves succeed
      or not, and even if checks were answered wrongly: each name has at most one active revision. */
  lemma {:induction false} RunKeepsOneActive(s: State, steps: seq<Step>)
    requires Consistent(s) && IsRun(s, steps)
    ensures Consistent(After(s, steps))
    decreases |steps|
  {
    if steps != [] {
      StepKeepsOneActive(s, steps[0]);
      RunKeepsOneActive(Next(s, steps[0]), steps[1..]);
    }
  }

  // -- what the gap between check and commit breaks -------------------------

  /** The configs of two VMs that must not be active together. */
  lemma ConflictIffNotApart(db: Entries, config: Config, name: string)
    ensures DomainConflict(db, config.domains, name) || ExportConflict(db, config.ports, name) <==>
      exists id | id in db && Rival(db, id, name) :: !Apart(db[id].vm.config, config)
  {
  }

  function PrivateExportIds(ports: seq<VMPort>): set<string> {
    set p | p in ports && p.direction == Export && p.publicPort == 0 :: p.GlobalID()
  }

  /** A private port that another active VM exports as well. */
  predicate PrivateConflict(db: Entries, ports: seq<VMPort>, excludeVM: string) {
    exists id | id in db && Rival(db, id, excludeVM) ::
      PrivateExportIds(db[id].vm.config.ports) * PrivateExportIds(ports) != {}
  }

  lemma ClaimsOf(db: Entries, id: string, d: string) returns (i: nat)
    requires id in db && db[id].active && d in DomainNames(db[id].vm.config.domains)
    ensures Claims(db, id, i) && DomainOf(db, id, i) == d
  {
    i :| 0 <= i < |db[id].vm.config.domains| && db[id].vm.config.domains[i].name == d;
  }

  /** While two active VMs claim one domain, no save succeeds. */
  lemma SharedDomainBlocks(db: Entries, greenhouse: Entries, x: string, y: string, d: string, disk: Disk)
    requires x != y && Claimed(db, x, d) && Claimed(db, y, d)
    ensures !Saves(disk, db, greenhouse)
  {
    var i := ClaimsOf(db, x, d);
    var j := ClaimsOf(db, y, d);
  }

  ghost predicate Claimed(db: Entries, id: string, d: string) {
    id in db && db[id].active && d in DomainNames(db[id].vm.config.domains)
  }

  lemma OutsideOf(db: Entries, id: string, p: VMPort) returns (i: nat)
    requires id in db && db[id].active && p in db[id].vm.config.ports && p.publicPort != 0
    ensures Outside(db, id, i) && db[id].vm.config.ports[i] == p
  {
    i :| 0 <= i < |db[id].vm.config.ports| && db[id].vm.config.ports[i] == p;
  }

  lemma SharedExport(a: Config, b: Config) returns (p: VMPort, q: VMPort)
    requires ExportIds(a.ports) * ExportIds(b.ports) != {}
    ensures p in a.ports && q in b.ports && p.direction == q.direction == Export && p.GlobalID() == q.GlobalID()
  {
    var g :| g in ExportIds(a.ports) * ExportIds(b.ports);
    p :| p in a.ports && p.direction == Export && p.GlobalID() == g;
    q :| q in b.ports && q.direction == Export && q.GlobalID() == g;
  }

  lemma SharedPrivate(a: seq<VMPort>, b: seq<VMPort>, p: VMPort, q: VMPort)
    requires p in a && q in b && p.direction == q.direction == Export && p.GlobalID() == q.GlobalID()
    requires p.publicPort == q.publicPort == 0
    ensures PrivateExportIds(a) * PrivateExportIds(b) != {}
  {
    assert p.GlobalID() in PrivateExportIds(a) * PrivateExportIds(b);
  }

  /** Two active VMs with a common export can be saved only if it is private. */
  lemma SharedOutsideBlocks(db: Entries, greenhouse: Entries, x: string, y: string, disk: Disk)
    requires KeysAreIds(db) && x in db && y in db && x != y && db[x].active && db[y].active
    requires var a, b := db[x].vm.config.ports, db[y].vm.config.ports;
      ExportIds(a) * ExportIds(b) != {} && PrivateExportIds(a) * PrivateExportIds(b) == {}
    ensures !Saves(disk, db, greenhouse)
  {
    assert EntryOK(db[x]) && EntryOK(db[y]);
    var p, q := SharedExport(db[x].vm.config, db[y].vm.config);
    GlobalIdMeaning(p, q);
    assert p.publicPort != 0 by {
      if p.publicPort == 0 {
        SharedPrivate(db[x].vm.config.ports, db[y].vm.config.ports, p, q);
      }
    }
    var i := OutsideOf(db, x, p);
    var j := OutsideOf(db, y, q);
  }

  lemma Inserted(db: Entries, vm: VM, name: VMName)
    requires KeysAreIds(db) && EntryOK(Entry(name, vm, true)) && name.ID() !in db
    ensures var after := Tentative(db, Adding(vm, name, true));
      && name.ID() in after && after[name.ID()] == Entry(name, vm, true)
      && forall id | id in db && Rival(db, id, name.name) :: id in after && after[id] == db[id] && id != name.ID()
  {
  }

  /** A conflict of a saved insertion can only be one of private exports. */
  lemma SavedConflictIsPrivate(db: Entries, greenhouse: Entries, vm: VM, name: VMName, disk: Disk)
    requires KeysAreIds(db) && EntryOK(Entry(name, vm, true)) && name.ID() !in db
    requires Saved(db, greenhouse, Adding(vm, name, true), disk)
    ensures !DomainConflict(db, vm.config.domains, name.name)
    ensures ExportConflict(db, vm.config.ports, name.name) <==> PrivateConflict(db, vm.config.ports, name.name)
  {
    var after := Tentative(db, Adding(vm, name, true));
    Inserted(db, vm, name);
    InsertedKeepsKeys(db, vm, name);
    forall id | id in db && Rival(db, id, name.name)
      ensures DomainNames(db[id].vm.config.domains) * DomainNames(vm.config.domains) == {}
      ensures ExportIds(db[id].vm.config.ports) * ExportIds(vm.config.ports) != {} ==>
        PrivateExportIds(db[id].vm.config.ports) * PrivateExportIds(vm.config.ports) != {}
    {
      if d :| d in DomainNames(db[id].vm.config.domains) * DomainNames(vm.config.domains) {
        SharedDomainBlocks(after, greenhouse, id, name.ID(), d, disk);
      }
      if ExportIds(db[id].vm.config.ports) * ExportIds(vm.config.ports) != {}
        && PrivateExportIds(db[id].vm.config.ports) * PrivateExportIds(vm.config.ports) == {} {
        SharedOutsideBlocks(after, greenhouse, id, name.ID(), disk);
      }
    }
    PrivateIsExport(db, vm.config.ports, name.name);
  }

  lemma InsertedKeepsKeys(db: Entries, vm: VM, name: VMName)
    requires KeysAreIds(db) && EntryOK(Entry(name, vm, true)) && name.ID() !in db
    ensures KeysAreIds(Tentative(db, Adding(vm, name, true)))
  {
    ActivateKeeps(db, name.name, REVISION_NONE);
  }

  lemma PrivateIsExport(db: Entries, ports: seq<VMPort>, name: string)
    ensures PrivateConflict(db, ports, name) ==> ExportConflict(db, ports, name)
  {
    forall id | id in db && PrivateExportIds(db[id].vm.config.ports) * PrivateExportIds(ports) != {}
      ensures ExportIds(db[id].vm.config.ports) * ExportIds(ports) != {}
    {
      PrivateWithin(db[id].vm.config.ports, ports);
    }
  }

  lemma PrivateWithin(a: seq<VMPort>, b: seq<VMPort>)
    ensures PrivateExportIds(a) * PrivateExportIds(b) <= ExportIds(a) * ExportIds(b)
  {
  }

  /** An insertion of an active VM keeps the whole invariant exactly when it cannot be saved, or its
      config has no private export of another active VM at that moment and no import of its own; the
      earlier check does not count. A common domain or outside port is refused by the save. */
  lemma InsertionKeepsInvIff(db: Entries, greenhouse: Entries, vm: VM, name: VMName, disk: Disk)
    requires Inv(db) && EntryOK(Entry(name, vm, true)) && name.ID() !in db
    ensures var p := Adding(vm, name, true);
      Inv(Committed(db, greenhouse, p, disk)) <==>
        !Saved(db, greenhouse, p, disk)
          || (!PrivateConflict(db, vm.config.ports, name.name) && !SelfImport(vm.config.ports))
  {
    var p := Adding(vm, name, true);
    if Saved(db, greenhouse, p, disk) {
      SavedConflictIsPrivate(db, greenhouse, vm, name, disk);
      InsertedKeepsInvIff(db, vm, name);
    } else {
      RemovePut(Activate(db, name.name, REVISION_NONE), name.ID(), Entry(name, vm, true));
      DeactivateKeepsInv(db, name.name);
    }
  }

  lemma InsertedKeepsInvIff(db: Entries, vm: VM, name: VMName)
    requires Inv(db) && EntryOK(Entry(name, vm, true)) && name.ID() !in db
    ensures Inv(Tentative(db, Adding(vm, name, true))) <==> !Conflict(db, vm.config, name.name)
  {
    var after := Tentative(db, Adding(vm, name, true));
    ConflictIffNotApart(db, vm.config, name.name);
    if !Conflict(db, vm.config, name.name) {
      AddKeepsInv(db, vm, name, true, true, true);
    } else if SelfImport(vm.config.ports) {
      assert after[name.ID()].active && after[name.ID()].vm == vm;
    } else {
      var id :| id in db && Rival(db, id, name.name) && !Apart(db[id].vm.config, vm.config);
      assert after[id] == db[id] && after[id].active && after[name.ID()].active;
      assert !ActivesApart(after);
    }
  }

  /** A change of active revision, which is not taken back when it cannot be saved, keeps the whole
      invariant exactly when the config has no conflict at the moment of the commit. */
  lemma ActivationKeepsInvIff(db: Entries, greenhouse: Entries, id: string, disk: Disk)
    requires Inv(db) && id in db
    ensures var e := db[id];
      Inv(Committed(db, greenhouse, Activating(e.name.name, e.name.revision), disk)) <==>
        !Conflict(db, e.vm.config, e.name.name)
  {
    var e := db[id];
    assert EntryOK(e);
    var after := Activate(db, e.name.name, e.name.revision);
    ConflictIffNotApart(db, e.vm.config, e.name.name);
    SameRevisionSameKey(db, id);
    if !Conflict(db, e.vm.config, e.name.name) {
      SetActiveKeepsInv(db, e.name.name, e.name.revision, true, true);
    } else if SelfImport(e.vm.config.ports) {
      assert after[id].active && after[id].vm == e.vm;
    } else {
      var x :| x in db && Rival(db, x, e.name.name) && !Apart(db[x].vm.config, e.vm.config);
      assert after[x] == db[x] && after[id].active && after[id].vm == e.vm;
      assert !ActivesApart(after);
    }
  }

  /** No conflict that a commit would bring about: checked now, not when the caller looked. */
  ghost predicate Harmless(s: State, step: Step)
    requires Allowed(s, step)
  {
    step.Commit? ==>
      match s.pending[step.caller]
      case Adding(vm, name, active) =>
        active && Saved(s.db, s.greenhouse, s.pending[step.caller], step.disk) ==>
          !PrivateConflict(s.db, vm.config.ports, name.name) && !SelfImport(vm.config.ports)
      case Activating(vmName, revision) => MayBeActive(s.db, vmName, revision)
      case HandingOver(_, vmName, heir) => MayBeActive(s.db, vmName, heir)
      case Redefining(id, config) =>
        Redefines(s.db, id, config) && s.db[id].active ==> !Conflict(s.db, config, config.name)
      case _ => true
  }

  predicate MayBeActive(db: Entries, name: string, revision: int) {
    forall id | id in db && db[id].name == VMName(name, revision) :: !Conflict(db, db[id].vm.config, name)
  }

  lemma ActivateKeepsInvIff(db: Entries, name: string, revision: int)
    requires Inv(db)
    ensures Inv(Activate(db, name, revision)) <==> MayBeActive(db, name, revision)
  {
    if id :| id in db && db[id].name == VMName(name, revision) {
      SameRevisionSameKey(db, id);
      ActivationKeepsInvIff(db, map[], id, Disk(true, true, true));
    } else {
      FewerActiveKeepsInv(db, Activate(db, name, revision));
    }
  }

  /** A new config, which is not taken back either, keeps the whole invariant exactly when the VM is not
      active, or the config has no conflict at the moment it is put in place. */
  lemma RedefinitionKeepsInvIff(db: Entries, id: string, config: Config)
    requires Inv(db) && id in db && ConfigOK(config) && Redefines(db, id, config)
    ensures Inv(db[id := WithConfig(db[id], config)]) <==>
      (db[id].active ==> !Conflict(db, config, config.name))
  {
    var e := WithConfig(db[id], config);
    var after := db[id := e];
    assert EntryOK(db[id]);
    ConflictIffNotApart(db, config, config.name);
    if !e.active || !Conflict(db, config, config.name) {
      forall x | x in db && x != id && db[x].active && e.active
        ensures db[x].name.name != e.name.name && Apart(db[x].vm.config, config)
      {
        NoConflictIsApart(db, config, config.name, x);
      }
      PutKeepsInv(db, id, e);
    } else if SelfImport(config.ports) {
      assert after[id].active && after[id].vm.config.ports == config.ports;
    } else {
      var x :| x in db && Rival(db, x, config.name) && !Apart(db[x].vm.config, config);
      assert after[x] == db[x] && after[x].active && after[id].active;
      assert !Apart(after[x].vm.config, after[id].vm.config);
    }
  }

  lemma StepKeepsInvIff(s: State, step: Step)
    requires Consistent(s) && Inv(s.db) && Allowed(s, step)
    ensures Inv(Next(s, step).db) <==> Harmless(s, step)
  {
    if step.Commit? {
      match s.pending[step.caller]
      case Adding(vm, name, active) =>
        if active && name.ID() !in s.db {
          InsertionKeepsInvIff(s.db, s.greenhouse, vm, name, step.disk);
        } else if !active {
          CommittedIsAdded(s.db, s.greenhouse, vm, name, active, step.disk);
          AddKeepsInv(s.db, vm, name, active, true, Saved(s.db, s.greenhouse, s.pending[step.caller], step.disk));
        }
      case Activating(vmName, revision) => ActivateKeepsInvIff(s.db, vmName, revision);
      case HandingOver(_, vmName, heir) => ActivateKeepsInvIff(s.db, vmName, heir);
      case Removing(name) => RemoveKeepsInv(s.db, name.ID());
      case Redefining(id, config) =>
        if Redefines(s.db, id, config) {
          RedefinitionKeepsInvIff(s.db, id, config);
        }
      case Handing(_, _, _) =>
    }
  }

  ghost predicate AllHarmless(s: State, steps: seq<Step>)
    requires IsRun(s, steps)
    decreases |steps|
  {
    steps == [] || (Harmless(s, steps[0]) && AllHarmless(Next(s, steps[0]), steps[1..]))
  }

  ghost predicate AlwaysInv(s: State, steps: seq<Step>)
    requires IsRun(s, steps)
    decreases |steps|
  {
    Inv(s.db) && (steps == [] || AlwaysInv(Next(s, steps[0]), steps[1..]))
  }

  /** A run of any number of callers keeps the whole invariant exactly when no commit meets a conflict
      that it brings about. */
  lemma {:induction false} RunKeepsInvIff(s: State, steps: seq<Step>)
    requires Consistent(s) && Inv(s.db) && IsRun(s, steps)
    ensures AlwaysInv(s, steps) <==> AllHarmless(s, steps)
    decreases |steps|
  {
    if steps != [] {
      StepKeepsOneActive(s, steps[0]);
      StepKeepsInvIff(s, steps[0]);
      if Inv(Next(s, steps[0]).db) {
        RunKeepsInvIff(Next(s, steps[0]), steps[1..]);
      }
    }
  }

  // -- two callers that check before either commits -------------------------

  /** The run in which two callers check, then commit one after the other. */
  function Race(p: Pending, q: Pending, disk1: Disk, disk2: Disk): seq<Step> {
    [Begin(0, p), Begin(1, q), Commit(0, disk1), Commit(1, disk2)]
  }

  lemma RaceRuns(db: Entries, greenhouse: Entries, p: Pending, q: Pending, disk1: Disk, disk2: Disk)
    requires WellMade(p) && WellMade(q) && !p.Handing? && !q.Handing? && !p.HandingOver?
    ensures var s := State(db, greenhouse, map[]);
      var steps := Race(p, q, disk1, disk2);
      && IsRun(s, steps)
      && (Honest(s, Begin(0, p)) && Honest(s, Begin(1, q)) ==> AllHonest(s, steps))
      && After(s, steps).db == Committed(Committed(db, greenhouse, p, disk1), greenhouse, q, disk2)
      && After(s, steps).greenhouse == greenhouse
  {
    var a, b, c, d := Begin(0, p), Begin(1, q), Commit(0, disk1), Commit(1, disk2);
    var s0 := State(db, greenhouse, map[]);
    var s1 := Next(s0, a);
    var s2 := Next(s1, b);
    var s3 := Next(s2, c);
    assert s2.pending == map[0 := p, 1 := q];
    assert s3.pending[1] == q;
    RunCons(s3, d, []);
    RunCons(s2, c, [d]);
    RunCons(s1, b, [c] + [d]);
    RunCons(s0, a, [b] + ([c] + [d]));
    assert [d] == [d] + [] && [a] + ([b] + ([c] + [d])) == Race(p, q, disk1, disk2);
  }

  lemma RunCons(s: State, step: Step, rest: seq<Step>)
    requires Allowed(s, step) && IsRun(Next(s, step), rest)
    ensures IsRun(s, [step] + rest) && After(s, [step] + rest) == After(Next(s, step), rest)
    ensures AllHonest(s, [step] + rest) <==> Honest(s, step) && AllHonest(Next(s, step), rest)
  {
    assert ([step] + rest)[1..] == rest;
  }

  /** Two activations, both checked before either commits, keep the invariant exactly when the two
      VMs may be active together: no save can undo them. With a common domain the second one reports
      an error although both VMs are active. */
  lemma RaceOfActivationsIff(db: Entries, greenhouse: Entries, x: string, y: string, disk1: Disk, disk2: Disk)
    requires Inv(db) && x in db && y in db && db[x].name.name != db[y].name.name
    requires !Conflict(db, db[x].vm.config, db[x].name.name) && !Conflict(db, db[y].vm.config, db[y].name.name)
    ensures var p := Activating(db[x].name.name, db[x].name.revision);
      var q := Activating(db[y].name.name, db[y].name.revision);
      var s := State(db, greenhouse, map[]);
      var steps := Race(p, q, disk1, disk2);
      && IsRun(s, steps) && AllHonest(s, steps)
      && var after := After(s, steps).db;
      && x in after && y in after && after[x] == db[x].(active := true) && after[y] == db[y].(active := true)
      && (Inv(after) <==> Apart(db[x].vm.config, db[y].vm.config))
      && (DomainNames(db[x].vm.config.domains) * DomainNames(db[y].vm.config.domains) != {} ==>
            !Saves(disk2, after, greenhouse))
  {
    var p := Activating(db[x].name.name, db[x].name.revision);
    var q := Activating(db[y].name.name, db[y].name.revision);
    assert EntryOK(db[x]) && EntryOK(db[y]);
    RaceRuns(db, greenhouse, p, q, disk1, disk2);
    var mid := Activate(db, db[x].name.name, db[x].name.revision);
    var after := Activate(mid, db[y].name.name, db[y].name.revision);
    ActivationKeepsInvIff(db, greenhouse, x, disk1);
    ActivationKeepsInvIff(mid, greenhouse, y, disk2);
    ConflictAfterActivation(db, x, db[y].vm.config, db[y].name.name);
    if d :| d in DomainNames(db[x].vm.config.domains) * DomainNames(db[y].vm.config.domains) {
      SharedDomainBlocks(after, greenhouse, x, y, d, disk2);
    }
  }

  lemma ConflictAfterActivation(db: Entries, x: string, config: Config, name: string)
    requires Inv(db) && x in db && db[x].name.name != name && name != "" && !Conflict(db, config, name)
    ensures var mid := Activate(db, db[x].name.name, db[x].name.revision);
      Conflict(mid, config, name) <==> !Apart(db[x].vm.config, config)
  {
    var mid := Activate(db, db[x].name.name, db[x].name.revision);
    SameRevisionSameKey(db, x);
    ConflictIffNotApart(db, config, name);
    ConflictIffNotApart(mid, config, name);
    assert mid[x].active && Rival(mid, x, name);
    forall id | id in mid && Rival(mid, id, name) && id != x ensures Apart(mid[id].vm.config, config) {
      assert Rival(db, id, name);
    }
  }

  /** Two additions of active VMs, both checked before either commits, keep the invariant exactly when
      one of them cannot be saved, or they export no common private port. */
  lemma RaceOfAdditionsIff(db: Entries, greenhouse: Entries, a: VM, b: VM, m: VMName, n: VMName, disk1: Disk,
                           disk2: Disk)
    requires Inv(db) && EntryOK(Entry(m, a, true)) && EntryOK(Entry(n, b, true)) && m.name != n.name
    requires m.ID() !in db && n.ID() !in db
    requires !Conflict(db, a.config, m.name) && !Conflict(db, b.config, n.name)
    ensures var p, q := Adding(a, m, true), Adding(b, n, true);
      var s := State(db, greenhouse, map[]);
      var steps := Race(p, q, disk1, disk2);
      && IsRun(s, steps) && AllHonest(s, steps)
      && (Inv(After(s, steps).db) <==>
            !Saved(db, greenhouse, p, disk1)
              || !Saved(Committed(db, greenhouse, p, disk1), greenhouse, q, disk2)
              || PrivateExportIds(a.config.ports) * PrivateExportIds(b.config.ports) == {})
  {
    var p, q := Adding(a, m, true), Adding(b, n, true);
    var mid := Committed(db, greenhouse, p, disk1);
    RaceRuns(db, greenhouse, p, q, disk1, disk2);
    if m.ID() == n.ID() {
      IdInjective(m, n);
    }
    CommittedIsAdded(db, greenhouse, a, m, true, disk1);
    AddKeepsInv(db, a, m, true, true, Saved(db, greenhouse, p, disk1));
    InsertionKeepsInvIff(mid, greenhouse, b, n, disk2);
    ConflictAfterInsertion(db, greenhouse, a, m, disk1, b.config, n.name);
  }

  lemma ConflictAfterInsertion(db: Entries, greenhouse: Entries, vm: VM, name: VMName, disk: Disk, config: Config,
                               other: string)
    requires Inv(db) && EntryOK(Entry(name, vm, true)) && name.ID() !in db
    requires name.name != other && other != "" && !Conflict(db, config, other)
    ensures var p := Adding(vm, name, true);
      PrivateConflict(Committed(db, greenhouse, p, disk), config.ports, other) <==>
        Saved(db, greenhouse, p, disk) && PrivateExportIds(vm.config.ports) * PrivateExportIds(config.ports) != {}
  {
    var p := Adding(vm, name, true);
    var mid := Committed(db, greenhouse, p, disk);
    forall id | id in mid && Rival(mid, id, other) && id != name.ID()
      ensures PrivateExportIds(mid[id].vm.config.ports) * PrivateExportIds(config.ports) == {}
    {
      assert Rival(db, id, other) && mid[id].vm == db[id].vm;
      PrivateIsExport(db, config.ports, other);
    }
    if Saved(db, greenhouse, p, disk) {
      assert mid[name.ID()] == Entry(name, vm, true) && Rival(mid, name.ID(), other);
    }
  }

  // -- after a race on a domain ---------------------------------------------

  /** A commit that takes the active flag, the entry or the domain of `id` away. */
  predicate ReleasedBy(db: Entries, p: Pending, id: string, d: string)
    requires id in db
  {
    match p
    case Adding(_, name, active) => active && name.ID() !in db && name.name == db[id].name.name
    case Activating(vmName, revision) => vmName == db[id].name.name && revision != db[id].name.revision
    case HandingOver(_, vmName, heir) => vmName == db[id].name.name && heir != db[id].name.revision
    case Removing(name) => name.ID() == id
    case Redefining(x, config) => x == id && Redefines(db, x, config) && d !in DomainNames(config.domains)
    case Handing(_, _, _) => false
  }

  predicate Releases(s: State, step: Step, id: string, d: string)
    requires Allowed(s, step) && id in s.db
  {
    step.Commit? && ReleasedBy(s.db, s.pending[step.caller], id, d)
  }

  lemma TentativeClaimIff(db: Entries, p: Pending, id: string, d: string)
    requires KeysAreIds(db) && Claimed(db, id, d)
    ensures Claimed(Tentative(db, p), id, d) <==> !ReleasedBy(db, p, id, d)
  {
  }

  lemma CommittedClaimIff(db: Entries, greenhouse: Entries, p: Pending, disk: Disk, id: string, d: string)
    requires KeysAreIds(db) && Claimed(db, id, d)
    ensures Claimed(Committed(db, greenhouse, p, disk), id, d) <==> !ReleasedBy(db, p, id, d)
  {
    TentativeClaimIff(db, p, id, d);
  }

  lemma StepKeepsClaimIff(s: State, step: Step, id: string, d: string)
    requires KeysAreIds(s.db) && Allowed(s, step) && Claimed(s.db, id, d)
    ensures Claimed(Next(s, step).db, id, d) <==> !Releases(s, step, id, d)
  {
    if step.Commit? {
      CommittedClaimIff(s.db, s.greenhouse, s.pending[step.caller], step.disk, id, d);
    }
  }

  ghost predicate SomeReleases(s: State, steps: seq<Step>, id: string, d: string)
    requires IsRun(s, steps)
    decreases |steps|
  {
    steps != [] && ((id in s.db && Releases(s, steps[0], id, d)) || SomeReleases(Next(s, steps[0]), steps[1..], id, d))
  }

  /** Some commit of the run saves the database. */
  ghost predicate SomeSaved(s: State, steps: seq<Step>)
    requires IsRun(s, steps)
    decreases |steps|
  {
    steps != [] && (Succeeds(s, steps[0]) || SomeSaved(Next(s, steps[0]), steps[1..]))
  }

  ghost predicate Succeeds(s: State, step: Step)
    requires Allowed(s, step)
  {
    step.Commit? && Saved(s.db, s.greenhouse, s.pending[step.caller], step.disk)
  }

  lemma StepBlocked(s: State, step: Step, x: string, y: string, d: string)
    requires Consistent(s) && Allowed(s, step) && x != y && Claimed(s.db, x, d) && Claimed(s.db, y, d)
    requires !Releases(s, step, x, d) && !Releases(s, step, y, d)
    ensures !Succeeds(s, step) && Next(s, step).db.Keys <= s.db.Keys
  {
    if step.Commit? {
      var p := s.pending[step.caller];
      TentativeClaimIff(s.db, p, x, d);
      TentativeClaimIff(s.db, p, y, d);
      SharedDomainBlocks(Tentative(s.db, p), s.greenhouse, x, y, d, step.disk);
    }
  }

  /** Once two active VMs share a domain, every save fails and no VM can be added, whatever any number
      of callers do, until one of the two loses its flag, its entry or that domain. */
  lemma {:induction false} BlockedUntilReleased(s: State, steps: seq<Step>, x: string, y: string, d: string)
    requires Consistent(s) && IsRun(s, steps) && x != y && Claimed(s.db, x, d) && Claimed(s.db, y, d)
    requires !SomeReleases(s, steps, x, d) && !SomeReleases(s, steps, y, d)
    ensures !SomeSaved(s, steps) && After(s, steps).db.Keys <= s.db.Keys
    ensures Claimed(After(s, steps).db, x, d) && Claimed(After(s, steps).db, y, d)
    decreases |steps|
  {
    if steps != [] {
      StepKeepsOneActive(s, steps[0]);
      StepKeepsClaimIff(s, steps[0], x, d);
      StepKeepsClaimIff(s, steps[0], y, d);
      StepBlocked(s, steps[0], x, y, d);
      BlockedUntilReleased(Next(s, steps[0]), steps[1..], x, y, d);
    }
  }
}
