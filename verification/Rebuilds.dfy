/** VMRebuild: a VM is replaced by a new revision of it, restored from a transient backup. */
module Rebuilds {
  import opened Results
  import opened VMNames
  import opened VMRegistry
  import opened Rollbacks
  import opened Daemons
  import NewVMs

  /** Whether each step succeeds. */
  datatype RebuildEnv = RebuildEnv(
    running: bool, configOK: bool, build: NewVMs.BuildEnv,
    savedOff: bool, backup: BackupEnv, restoreOK: bool, parentOK: bool, savedOn: bool, deletion: DeleteEnv,
    backupDropped: bool, discard: DeleteEnv, undoParentOK: bool)

  /** Where a rebuild stopped. */
  datatype Stage =
    | Refused      // before anything was changed
    | HalfBuilt    // the disk of the new revision was created, but not filled: it stays
    | Deactivating // the flags could not be saved
    | Working      // while the new revision was prepared
    | Deleting     // the original could not be deleted
    | Emptied      // its disk was deleted, but nothing else
    | Lost         // it was deleted, but an error was reported
    | Done

  function Registered(active: bool): seq<Undo> {
    if active then [DeleteNew, Reactivate] else [DeleteNew]
  }

  predicate RegisteredAll(active: bool, defers: seq<Undo>) {
    defers == Registered(active) || defers == Registered(active) + [DropBackup]
  }

  /** The new revision is there; only flags of the name, and possibly the lock of the original,
      have changed since. */
  ghost predicate Prepared(before: Entries, started: Entries, db: Entries, defers: seq<Undo>, job: Job, vm: VM,
                           unlocked: bool)
  {
    && Started(before, started, job, vm)
    && RegisteredAll(before[job.Id()].active, defers)
    && var target := Unlock(started, job.Id(), unlocked);
       if before[job.Id()].active then SameButFlags(target, db, job.source.name) else db == target
  }

  /** What the steps leave to the compensations. */
  ghost predicate Stopped(before: Entries, started: Entries, db: Entries, defers: seq<Undo>, job: Job, vm: VM,
                          stage: Stage)
  {
    match stage
    case Refused => defers == [] && db == before
    case HalfBuilt => defers == [] && db == before
    case Deactivating =>
      && Started(before, started, job, vm) && before[job.Id()].active
      && defers == [DeleteNew] && db == Activate(started, job.source.name, REVISION_NONE)
    case Working => Prepared(before, started, db, defers, job, vm, false)
    case Deleting => Prepared(before, started, db, defers, job, vm, true)
    case Emptied => Prepared(before, started, db, defers, job, vm, true)
    case Lost =>
      && Started(before, started, job, vm) && RegisteredAll(before[job.Id()].active, defers)
      && db == Replaced(before, job, vm)
    case Done => true
  }

  /** What a failed rebuild leaves once its compensations have succeeded. */
  ghost function LeftBy(before: Entries, job: Job, vm: VM, stage: Stage): Entries {
    if job.Id() !in before then before
    else
      match stage
      case Deactivating => Activate(before, job.source.name, REVISION_NONE)
      case Deleting => Unlock(before, job.Id(), true)
      case Emptied => Unlock(before, job.Id(), true)
      case Lost => Deleted(Replaced(before, job, vm), job.replacement, true, true, true).db
      case _ => before
  }

  lemma PreparedUnwinds(before: Entries, started: Entries, db: Entries, defers: seq<Undo>, job: Job, vm: VM,
                        unlocked: bool)
    requires Inv(before) && Prepared(before, started, db, defers, job, vm, unlocked)
    ensures job.Id() in before && Unwound(db, defers, job) == Unlock(before, job.Id(), unlocked)
  {
    var active := before[job.Id()].active;
    UnwindBackup(db, Registered(active), job);
    if active {
      UnwindActive(before, started, db, job, vm, unlocked);
    } else {
      UnwindInactive(before, started, job, vm, unlocked);
    }
  }

  lemma StoppedUnwinds(before: Entries, started: Entries, db: Entries, defers: seq<Undo>, job: Job, vm: VM,
                       stage: Stage)
    requires Inv(before) && stage != Done && Stopped(before, started, db, defers, job, vm, stage)
    ensures Unwound(db, defers, job) == LeftBy(before, job, vm, stage)
  {
    match stage
    case Refused =>
    case HalfBuilt =>
    case Deactivating => UnwindDeactivated(before, started, job, vm);
    case Working => PreparedUnwinds(before, started, db, defers, job, vm, false);
    case Deleting => PreparedUnwinds(before, started, db, defers, job, vm, true);
    case Emptied => PreparedUnwinds(before, started, db, defers, job, vm, true);
    case Lost => LostUnwinds(before, started, defers, job, vm);
  }

  /** The original cannot be activated again, and the compensations delete the new revision too. */
  lemma LostUnwinds(before: Entries, started: Entries, defers: seq<Undo>, job: Job, vm: VM)
    requires Started(before, started, job, vm) && RegisteredAll(before[job.Id()].active, defers)
    ensures Unwound(Replaced(before, job, vm), defers, job)
      == Deleted(Replaced(before, job, vm), job.replacement, true, true, true).db
  {
    var db := Replaced(before, job, vm);
    IdsApart(job);
    UnwindBackup(db, Registered(before[job.Id()].active), job);
    assert Compensated(db, Reactivate, job) == db;
    assert [DeleteNew, Reactivate][..1] == [DeleteNew] && [DeleteNew][..0] == [];
    assert Unwound(db, [DeleteNew], job) == Unwound(Compensated(db, DeleteNew, job), [], job);
  }

  /** Once the original is deleted but an error reported, nothing of the VM is left in the database but
      its other revisions, unless the new one cannot hand its flag to the highest of them. */
  lemma LostLeaves(before: Entries, job: Job, vm: VM)
    requires Inv(before) && Valid(job.source) && job.Id() in before && EntryOK(Entry(job.replacement, vm, false))
    requires job.replacement.name == job.source.name && job.NewId() !in before
    ensures var rest := Remove(before, job.Id());
      var heir := Highest(rest, job.source.name, REVISION_NONE);
      LeftBy(before, job, vm, Lost)
        == if !before[job.Id()].active || !HasRevision(rest, job.source.name, REVISION_NONE) then rest
           else if CanActivate(rest, job.source.name, heir, true) then Activate(rest, job.source.name, heir)
           else Replaced(before, job, vm)
  {
    var rest, db := Remove(before, job.Id()), Replaced(before, job, vm);
    assert job.NewId() in db && db[job.NewId()] == Entry(job.replacement, vm, before[job.Id()].active);
    assert KeysAreIds(rest);
    assert db == rest[job.NewId() := db[job.NewId()]];
    SameHeir(rest, db, job);
    DiscardedLeaves(rest, db, job);
  }

  /** What the deletion of the new revision leaves. */
  lemma DiscardedLeaves(rest: Entries, db: Entries, job: Job)
    requires KeysAreIds(rest) && Valid(job.replacement) && job.replacement.name == job.source.name
    requires job.NewId() !in rest && job.NewId() in db && db[job.NewId()].name == job.replacement
    requires db == rest[job.NewId() := db[job.NewId()]]
    requires SameHeirs(rest, db, job)
    ensures var heir := Highest(rest, job.source.name, REVISION_NONE);
      Deleted(db, job.replacement, true, true, true).db
        == if !db[job.NewId()].active || !HasRevision(rest, job.source.name, REVISION_NONE) then rest
           else if CanActivate(rest, job.source.name, heir, true) then Activate(rest, job.source.name, heir)
           else db
  {
    var heir := Highest(rest, job.source.name, REVISION_NONE);
    RemoveAdded(rest, db, job.NewId(), job.source.name, heir);
    HighestIsRevision(rest, job.source.name, REVISION_NONE);
    if HasRevision(rest, job.source.name, REVISION_NONE) {
      SameCheck(rest, db, job, heir);
    }
  }

  lemma RemoveAdded(rest: Entries, db: Entries, id: string, name: string, revision: int)
    requires id !in rest && id in db && db == rest[id := db[id]]
    ensures Remove(db, id) == rest && Remove(Activate(db, name, revision), id) == Activate(rest, name, revision)
  {
  }

  /** The new revision has the same heir as the name would have without it. */
  ghost predicate SameHeirs(rest: Entries, db: Entries, job: Job) {
    var name, r := job.source.name, job.replacement.revision;
    && (HasRevision(rest, name, REVISION_NONE) <==> HasRevision(db, name, r))
    && Highest(db, name, r) == Highest(rest, name, REVISION_NONE)
  }

  lemma SameHeir(rest: Entries, db: Entries, job: Job)
    requires KeysAreIds(rest) && Valid(job.replacement) && job.replacement.name == job.source.name
    requires job.NewId() !in rest && job.NewId() in db && db[job.NewId()].name == job.replacement
    requires db == rest[job.NewId() := db[job.NewId()]]
    ensures SameHeirs(rest, db, job)
  {
    var name, r := job.source.name, job.replacement.revision;
    assert forall x | x in rest :: EntryOK(rest[x]) && rest[x].name != job.replacement;
    assert forall x | x in rest && rest[x].name.name == name ::
      rest[x].name.revision != REVISION_NONE && rest[x].name.revision != r;
    assert forall x | x in db && db[x].name.name == name && db[x].name.revision != r :: x in rest && rest[x] == db[x];
    assert forall x | x in rest :: db[x] == rest[x];
    if HasRevision(rest, name, REVISION_NONE) {
      assert IsHighest(rest, name, REVISION_NONE, Highest(db, name, r));
    }
  }

  lemma SameCheck(rest: Entries, db: Entries, job: Job, heir: int)
    requires KeysAreIds(rest) && Valid(job.replacement) && job.replacement.name == job.source.name
    requires job.NewId() !in rest && job.NewId() in db && db[job.NewId()].name == job.replacement
    requires db == rest[job.NewId() := db[job.NewId()]]
    requires IsHighest(rest, job.source.name, REVISION_NONE, heir)
    ensures CanActivate(db, job.source.name, heir, true) <==> CanActivate(rest, job.source.name, heir, true)
  {
    var x :| x in rest && rest[x].name == VMName(job.source.name, heir);
    assert EntryOK(rest[x]) && x == VMName(job.source.name, heir).ID() && x != job.NewId() && db[x] == rest[x];
    SameConflict(rest, db, job.NewId(), rest[x].vm.config, job.source.name);
  }

  /** Revisions of the name itself make no conflict. */
  lemma SameConflict(rest: Entries, db: Entries, id: string, config: Config, name: string)
    requires id !in rest && id in db && db == rest[id := db[id]] && db[id].name.name == name && name != ""
    ensures Conflict(db, config, name) <==> Conflict(rest, config, name)
  {
    assert forall y | y in rest :: y in db && db[y] == rest[y];
    assert forall y | y in db && Rival(db, y, name) :: y in rest && Rival(rest, y, name);
  }

  /** The entries once the new revision is active, if the original was. */
  function Switched(started: Entries, job: Job, active: bool): Entries {
    if active then Activate(started, job.replacement.name, job.replacement.revision) else started
  }

  // -- lemmas about the steps -----------------------------------------------

  /** NewVM, not activating what it builds, leaves the database as found or with one more entry. */
  lemma StartedByNewVM(before: Entries, after: Entries, p: NewVMs.Plan, job: Job, ok: bool, failedSave: bool)
    requires Inv(before) && NewVMs.DatabaseAfter(before, after, p, false, ok, failedSave)
    requires Valid(job.source) && job.Id() in before && before[job.Id()].name == job.source
    requires p.name == job.replacement == VMName(job.source.name, Highest(before, job.source.name, REVISION_NONE) + 1)
    requires EntryOK(Entry(job.replacement, p.vm, false)) && !p.vm.locked
    ensures if ok then Started(before, after, job, p.vm) else after == before
  {
  }

  lemma ActivateIsSameButFlags(db: Entries, name: string, revision: int)
    ensures SameButFlags(db, Activate(db, name, revision), name)
  {
  }

  lemma ActivateTwice(db: Entries, name: string, r1: int, r2: int)
    ensures Activate(Activate(db, name, r1), name, r2) == Activate(db, name, r2)
  {
  }

  function WithLock(db: Entries, id: string): Entries
    requires id in db
  {
    db[id := db[id].(vm := db[id].vm.(locked := true))]
  }

  /** What a rebuild has made of the entries when it tries to delete the original. */
  function SwitchedAndUnlocked(started: Entries, job: Job, active: bool): Entries
    requires job.Id() in started
  {
    Unlock(Switched(started, job, active), job.Id(), true)
  }

  /** A completed rebuild. */
  function Rebuilt(before: Entries, job: Job, vm: VM, lock: bool): Entries
    requires job.Id() in before
  {
    var rest := Replaced(before, job, vm);
    if lock || before[job.Id()].vm.locked then WithLock(rest, job.NewId()) else rest
  }

  predicate AddedIf(added: bool, before: set<string>, after: set<string>, thing: string) {
    if added then thing !in before && after == before + {thing} else after == before
  }

  predicate DiskIf(added: bool, leaked: bool, before: set<string>, after: set<string>, disk: string) {
    if added then disk !in before && after == before + {disk} else after == if leaked then before + {disk} else before
  }

  /** Keys stay IDs, wherever the steps stop. */
  lemma StoppedKeys(before: Entries, started: Entries, db: Entries, defers: seq<Undo>, job: Job, vm: VM, stage: Stage)
    requires KeysAreIds(before) && stage != Done && Stopped(before, started, db, defers, job, vm, stage)
    ensures KeysAreIds(db)
  {
    if !Early(stage) {
      StartedKeys(before, started, job, vm);
    }
    if stage == Deactivating {
      ActivateKeeps(started, job.source.name, REVISION_NONE);
    } else if !Early(stage) {
      if stage == Lost {
        IdsApart(job);
      } else {
        PreparedKeys(before, started, db, defers, job, vm, stage != Working);
      }
    }
  }

  lemma PreparedKeys(before: Entries, started: Entries, db: Entries, defers: seq<Undo>, job: Job, vm: VM,
                     unlocked: bool)
    requires KeysAreIds(started) && Prepared(before, started, db, defers, job, vm, unlocked)
    ensures KeysAreIds(db)
  {
  }

  lemma RebuiltKeys(before: Entries, started: Entries, job: Job, vm: VM, lock: bool)
    requires KeysAreIds(before) && Started(before, started, job, vm)
    ensures KeysAreIds(Rebuilt(before, job, vm, lock))
  {
  }

  /** The disk of the original is gone. */
  predicate DiskGone(stage: Stage) {
    stage == Emptied || DomainGone(stage)
  }

  /** And its domain. */
  predicate DomainGone(stage: Stage) {
    stage == Lost || stage == Done
  }

  /** Disks, or domains, at each stage: the new one is there from the start. */
  predicate Moved(stage: Stage, leaked: bool, gone: bool, before: set<string>, after: set<string>, source: string,
                  added: string)
  {
    if Early(stage) then after == if leaked then before + {added} else before
    else added !in before && after == if gone then before + {added} - {source} else before + {added}
  }

  predicate MovedIf(added: bool, gone: bool, before: set<string>, after: set<string>, source: string, thing: string) {
    var more := if added then before + {thing} else before;
    after == if gone then more - {source} else more
  }

  /** The new revision is not there yet. */
  predicate Early(stage: Stage) {
    stage == Refused || stage == HalfBuilt
  }

  /** The disks that a rebuild leaves. */
  predicate DisksLeft(before: set<string>, after: set<string>, stage: Stage, job: Job) {
    MovedIf(stage == Done || stage == HalfBuilt, DiskGone(stage), before, after, job.Id() + ".qcow2",
            job.NewId() + ".qcow2")
  }

  predicate DomainsLeft(before: set<string>, after: set<string>, stage: Stage, job: Job, prefix: string) {
    MovedIf(stage == Done, DomainGone(stage), before, after, prefix + job.Id(), prefix + job.NewId())
  }

  /** And the entries: those of a completed rebuild, or, if the compensations succeed, what the stage
      leaves. */
  ghost predicate Concluded(before: Entries, after: Entries, stage: Stage, job: Job, vm: VM, lock: bool,
                            env: RebuildEnv)
  {
    if job.Id() !in before then stage == Refused && after == before
    else if stage == Done then after == Rebuilt(before, job, vm, lock)
    else Compensates(env) ==> after == LeftBy(before, job, vm, stage)
  }

  /** Every compensation succeeds. */
  predicate Compensates(env: RebuildEnv) {
    env.discard.Fine() && env.undoParentOK && env.build.undoDomainOK && env.build.undoDiskOK
  }

  /** The new revision is deleted again. */
  predicate Discards(db: Entries, defers: seq<Undo>, job: Job) {
    DeleteNew in defers && MayDelete(db, job.NewId())
  }

  function Unless(discarded: bool, things: set<string>, thing: string): set<string> {
    if discarded then things - {thing} else things
  }

  /** Until its deletion is tried, the new revision stays as it was; and it does not come back. */
  predicate SoFar(before: Entries, db: Entries, undone: seq<Undo>, job: Job) {
    && (MayDelete(db, job.NewId()) ==> MayDelete(before, job.NewId()))
    && (DeleteNew !in undone && MayDelete(before, job.NewId()) ==> MayDelete(db, job.NewId()))
  }

  lemma UndoneOneMore(before: Entries, db: Entries, things0: set<string>, things: set<string>, undone: seq<Undo>,
                      u: Undo, job: Job, thing: string)
    requires SoFar(before, db, undone, job) && things == Unless(Discards(before, undone, job), things0, thing)
    ensures Unless(Discards(db, [u], job), things, thing)
      == Unless(Discards(before, [u] + undone, job), things0, thing)
  {
  }

  lemma CompensatedSoFar(before: Entries, db: Entries, undone: seq<Undo>, u: Undo, job: Job)
    requires SoFar(before, db, undone, job)
    ensures SoFar(before, Compensated(db, u, job), [u] + undone, job)
  {
  }

  lemma MovedBack(stage: Stage, leaked: bool, gone: bool, before: set<string>, mid: set<string>, after: set<string>,
                  source: string, added: string)
    requires Moved(stage, leaked, gone, before, mid, source, added)
    requires after == Unless(stage != Done && !Early(stage), mid, added)
    requires (leaked ==> Early(stage)) && (Early(stage) ==> !gone)
    ensures MovedIf(stage == Done || leaked, gone, before, after, source, added)
  {
  }

  lemma StoppedHasNew(before: Entries, started: Entries, db: Entries, defers: seq<Undo>, job: Job, vm: VM, stage: Stage)
    requires stage != Done && Stopped(before, started, db, defers, job, vm, stage)
    ensures Discards(db, defers, job) <==> !Early(stage)
  {
    if !Early(stage) {
      assert Registered(before[job.Id()].active)[0] == DeleteNew;
      assert defers[0] == DeleteNew;
      IdsApart(job);
    }
  }

  lemma NextIsFree(before: Entries, job: Job, conf: Config)
    requires Inv(before) && ConfigOK(conf)
    requires job.replacement == VMName(conf.name, Highest(before, conf.name, REVISION_NONE) + 1)
    ensures job.NewId() !in before
  {
    NextRevisionIsFree(before, conf.name);
  }

  lemma SourceName(db: Entries, source: VMName)
    requires KeysAreIds(db) && Valid(source) && source.ID() in db
    ensures db[source.ID()].name == source
  {
    assert EntryOK(db[source.ID()]);
    IdInjective(db[source.ID()].name, source);
  }

  lemma StartedSource(before: Entries, started: Entries, job: Job, vm: VM)
    requires Started(before, started, job, vm)
    ensures job.Id() in started && started[job.Id()] == before[job.Id()]
  {
  }

  lemma NewStays(before: Entries, started: Entries, job: Job, vm: VM, active: bool)
    requires Started(before, started, job, vm)
    ensures var db := if active then Activate(started, job.source.name, REVISION_NONE) else started;
      job.NewId() in db && db[job.NewId()].vm == vm && job.Id() in db && db[job.Id()].vm == before[job.Id()].vm
  {
  }

  lemma PreparedUnlocked(before: Entries, started: Entries, db: Entries, defers: seq<Undo>, job: Job, vm: VM)
    requires Prepared(before, started, db, defers, job, vm, false)
    ensures job.Id() in db && Prepared(before, started, Unlock(db, job.Id(), true), defers, job, vm, true)
  {
  }

  /** The transient backup is known exactly while its deletion is registered. */
  predicate BackupKept(defers: seq<Undo>, volume: string, backups0: set<string>, volumes0: set<string>,
                       backups: set<string>, volumes: set<string>) {
    if DropBackup in defers
    then backups == backups0 + {volume} && volumes == volumes0 + {volume} && volume !in backups0 && volume !in volumes0
    else backups == backups0
  }

  lemma BackupGone(defers: seq<Undo>, volume: string, b0: set<string>, v0: set<string>, b1: set<string>,
                   v1: set<string>, b2: set<string>, v2: set<string>, dropped: bool, safe: bool)
    requires BackupKept(defers, volume, b0, v0, b1, v1) && (DropBackup !in defers && safe ==> v1 == v0)
    requires b2 == if DropBackup in defers then b1 - {volume} else b1
    requires v2 == if DropBackup in defers && volume in b1 && dropped then v1 - {volume} else v1
    ensures b2 == b0 && (dropped && safe ==> v2 == v0)
  {
  }

  lemma DeletedKeeps(db: Entries, name: VMName, env: DeleteEnv)
    requires KeysAreIds(db)
    ensures KeysAreIds(Deleted(db, name, env.parentOK, env.saved1, env.saved2).db)
  {
    if name.ID() in db {
      var e := db[name.ID()];
      var heir := Highest(db, e.name.name, e.name.revision);
      ActivateKeeps(db, e.name.name, heir);
      RemoveKeepsKeys(db, name.ID());
      RemoveKeepsKeys(Activate(db, e.name.name, heir), name.ID());
    }
  }

  lemma RemoveKeepsKeys(db: Entries, id: string)
    requires KeysAreIds(db)
    ensures KeysAreIds(Remove(db, id))
  {
  }

  lemma StartedKeys(before: Entries, started: Entries, job: Job, vm: VM)
    requires KeysAreIds(before) && Started(before, started, job, vm)
    ensures KeysAreIds(started)
  {
  }

  /** Deleting the original, once unlocked and no longer active, completes the replacement. */
  lemma FinishedByDelete(before: Entries, started: Entries, db: Entries, job: Job, vm: VM, active: bool, env: DeleteEnv)
    requires KeysAreIds(before) && OneActive(before)
    requires Started(before, started, job, vm) && active == before[job.Id()].active
    requires db == Switched(started, job, active)
    ensures job.Id() in db && KeysAreIds(Unlock(db, job.Id(), true))
    ensures db[job.Id()].vm.locked == before[job.Id()].vm.locked
    ensures Deleted(Unlock(db, job.Id(), true), job.source, env.parentOK, env.saved1, env.saved2)
      == Outcome(Replaced(before, job, vm), env.saved2)
    ensures Replaced(before, job, vm)[job.NewId()].vm == vm
  {
    UnlockedKeys(before, started, db, job, vm, active);
    if active {
      ReplacedActive(before, started, job, vm, env.parentOK, env.saved1, env.saved2);
    } else {
      ReplacedInactive(before, started, job, vm, env.parentOK, env.saved1, env.saved2);
    }
  }

  lemma UnlockedKeys(before: Entries, started: Entries, db: Entries, job: Job, vm: VM, active: bool)
    requires KeysAreIds(before) && Started(before, started, job, vm)
    requires db == Switched(started, job, active)
    ensures job.Id() in db && KeysAreIds(Unlock(db, job.Id(), true)) && db[job.Id()].vm == before[job.Id()].vm
  {
    StartedKeys(before, started, job, vm);
    ActivateKeeps(started, job.replacement.name, job.replacement.revision);
    IdsApart(job);
  }

  // -- when a rebuild succeeds -----------------------------------------------

  /** The data of the original, if it has any, reach the new revision. */
  predicate Copies(source: VM, vm: VM, backups: set<string>, volumes: set<string>, volume: string, env: RebuildEnv) {
    source.config.hasBackup ==>
      TakesBackup(source, backups, volumes, volume, env.backup) && env.restoreOK && vm.config.hasRestore
  }

  /** The flag can be handed over; what the new revision conflicts with is already known at the start. */
  predicate HandsOver(before: Entries, job: Job, vm: VM, env: RebuildEnv) {
    !Conflict(before, vm.config, job.source.name) && env.parentOK && env.savedOn
  }

  /** The checks made before anything is changed. */
  predicate Accepts(source: VM, env: RebuildEnv) {
    source.wip == NoOperation && source.config.hasRestore == source.config.hasBackup && env.running && env.configOK
  }

  predicate Accepted(db: Entries, source: VMName, env: RebuildEnv) {
    source.ID() in db && Accepts(db[source.ID()].vm, env)
  }

  /** Where a rebuild stops before the new revision has taken the place of the original, if it does. */
  function MoveStage(before: Entries, job: Job, vm: VM, backups: set<string>, volumes: set<string>, volume: string,
                     env: RebuildEnv): Stage
    requires job.Id() in before
  {
    var source := before[job.Id()];
    if source.active && !env.savedOff then Deactivating
    else if !Copies(source.vm, vm, backups, volumes, volume, env) then Working
    else if source.active && !HandsOver(before, job, vm, env) then Working
    else Done
  }

  /** Where a rebuild stops once the new revision is there. */
  function StageFrom(before: Entries, job: Job, vm: VM, backups: set<string>, volumes: set<string>, volume: string,
                     env: RebuildEnv): Stage
    requires job.Id() in before
  {
    var moved := MoveStage(before, job, vm, backups, volumes, volume, env);
    if moved == Done then DeleteStage(env.deletion) else moved
  }

  /** Where the deletion of the original, which is not locked and not active, stops. */
  function DeleteStage(env: DeleteEnv): Stage {
    if !env.Empties() then Deleting else if !env.undefined then Emptied else if !env.Removes() then Lost else Done
  }

  /** Where a rebuild of a VM that accepts it stops. */
  function StageOf(before: Entries, w: NewVMs.World, p: NewVMs.Plan, job: Job, backups: set<string>,
                   volumes: set<string>,
                   volume: string, env: RebuildEnv): Stage
    requires job.Id() in before
  {
    if env.build.saved && NewVMs.Buildable(before, w, p, false, false, env.build)
    then StageFrom(before, job, p.vm, backups, volumes, volume, env)
    else if Leaks(before, w, p, env) then HalfBuilt
    else Refused
  }

  function PlanOf(job: Job, conf: Config, pointer: nat, prefix: string, env: RebuildEnv): NewVMs.Plan {
    NewVMs.Plan(job.replacement, NewVMs.NewMachine(conf, env.build), pointer, prefix)
  }

  /** One entry is replaced: the new one has its active flag, and is locked if it was, or on request. */
  predicate InItsPlace(before: Entries, after: Entries, job: Job, vm: VM, lock: bool) {
    && job.Id() in before && job.NewId() !in before && after.Keys == before.Keys - {job.Id()} + {job.NewId()}
    && (forall x | x in before && x != job.Id() :: after[x] == before[x])
    && after[job.NewId()].name == job.replacement
    && after[job.NewId()].vm == vm.(locked := lock || before[job.Id()].vm.locked)
    && (after[job.NewId()].active <==> before[job.Id()].active)
  }

  lemma RebuiltMeaning(before: Entries, job: Job, vm: VM, lock: bool)
    requires job.Id() in before && job.NewId() !in before && !vm.locked
    ensures InItsPlace(before, Rebuilt(before, job, vm, lock), job, vm, lock)
  {
  }

  /** Where a rebuild of a VM that accepts it stops, in terms of the entries, of what there is and of the
      answers. */
  lemma StageMeaning(before: Entries, w: NewVMs.World, p: NewVMs.Plan, job: Job, backups: set<string>,
                     volumes: set<string>, volume: string, env: RebuildEnv)
    requires Inv(before) && job.Id() in before && p.name == job.replacement && p.vm.wip == NoOperation
    requires p.name == VMName(job.source.name, Highest(before, job.source.name, REVISION_NONE) + 1)
    requires ValidName(job.source.name)
    ensures var b, k, d, source := env.build, env.backup, env.deletion, before[job.Id()];
      var leased := b.ready && p.prefix + job.NewId() !in w.domains && b.ip.Some? && b.seeded && b.checked;
      var created := leased && b.diskCreated && job.NewId() + ".qcow2" !in w.disks;
      var built := created && b.diskFilled && b.resizeOK && b.templateOK && b.defineOK && b.booted
        && b.actionsOK && b.prepareOK && b.installOK && b.saved;
      var off := built && (source.active ==> env.savedOff);
      var stored := k.running && k.keyOK && k.created && k.filled && k.resized && k.attachOK && k.preOK && k.postOK
        && k.scriptsOK && k.detachOK && k.compressOK;
      var copied := source.vm.config.hasBackup ==>
        && source.vm.wip == NoOperation && volume !in backups && volume !in volumes && stored
        && env.restoreOK && p.vm.config.hasRestore;
      var moved := off && copied && (source.active ==>
        !Conflict(before, p.vm.config, job.source.name) && env.parentOK && env.savedOn);
      var emptied := moved && d.stopped && d.diskDeleted;
      var stage := StageOf(before, w, p, job, backups, volumes, volume, env);
      && (stage == Refused <==> !built && !(created && !b.diskFilled))
      && (stage == HalfBuilt <==> created && !b.diskFilled)
      && (stage == Deactivating <==> built && !off)
      && (stage == Working <==> off && !moved)
      && (stage == Deleting <==> moved && !emptied)
      && (stage == Emptied <==> emptied && !d.undefined)
      && (stage == Lost <==> emptied && d.undefined && !(d.saved2 && d.rebuilt))
      && (stage == Done <==> emptied && d.undefined && d.saved2 && d.rebuilt)
  {
    NextRevisionIsFree(before, job.source.name);
    NewVMs.BuildableMeaning(before, w, p, false, false, env.build);
    BuiltStage(before, w, p, job, backups, volumes, volume, env);
    CopiesMeaning(before[job.Id()].vm, p.vm, backups, volumes, volume, env);
  }

  lemma BuiltStage(before: Entries, w: NewVMs.World, p: NewVMs.Plan, job: Job, backups: set<string>,
                   volumes: set<string>, volume: string, env: RebuildEnv)
    requires job.Id() in before
    ensures var built := env.build.saved && NewVMs.Buildable(before, w, p, false, false, env.build);
      var stage := StageOf(before, w, p, job, backups, volumes, volume, env);
      if built then stage == StageFrom(before, job, p.vm, backups, volumes, volume, env) && !Early(stage)
      else stage == if Leaks(before, w, p, env) then HalfBuilt else Refused
  {
  }

  lemma CopiesMeaning(source: VM, vm: VM, backups: set<string>, volumes: set<string>, volume: string, env: RebuildEnv)
    ensures var k := env.backup;
      Copies(source, vm, backups, volumes, volume, env) <==>
        (source.config.hasBackup ==>
          && source.wip == NoOperation && volume !in backups && volume !in volumes
          && k.running && k.keyOK && k.created && k.filled && k.resized && k.attachOK && k.preOK && k.postOK
          && k.scriptsOK && k.detachOK && k.compressOK && env.restoreOK && vm.config.hasRestore)
  {
  }

  /** What each stage leaves of the entries: all as found; or the flags of the name gone; or the original
      unlocked. */
  lemma LeftByMeaning(before: Entries, job: Job, vm: VM, stage: Stage)
    requires job.Id() in before && KeysAreIds(before)
    ensures var after := LeftBy(before, job, vm, stage);
      && (stage in {Refused, HalfBuilt, Working} ==> after == before)
      && (stage == Deactivating ==> after.Keys == before.Keys && forall x | x in before ::
            after[x] == if before[x].name.name == job.source.name then before[x].(active := false) else before[x])
      && (stage in {Deleting, Emptied} ==> after.Keys == before.Keys && forall x | x in before ::
            after[x].name == before[x].name && after[x].active == before[x].active
            && after[x].vm == if x == job.Id() then before[x].vm.(locked := false) else before[x].vm)
  {
    assert forall x | x in before :: EntryOK(before[x]);
    assert forall x | x in before && before[x].name.name == job.source.name :: before[x].name.revision != REVISION_NONE;
  }

  /** Activating the new revision is refused exactly when its config conflicts with another VM that
      was active at the start. */
  lemma SwitchedOnIff(before: Entries, started: Entries, job: Job, vm: VM, parentOK: bool)
    requires Started(before, started, job, vm)
    ensures var db := Activate(started, job.source.name, REVISION_NONE);
      CanActivate(db, job.replacement.name, job.replacement.revision, parentOK)
      <==> !Conflict(before, vm.config, job.source.name) && parentOK
  {
    var db, name := Activate(started, job.source.name, REVISION_NONE), job.source.name;
    assert forall x | x in before ::
      x in db && (Rival(before, x, name) <==> Rival(db, x, name)) && before[x].vm == db[x].vm;
    assert forall x | x in db && x !in before :: x == job.NewId() && !Rival(db, x, name);
  }

  /** A failed rebuild whose compensations succeed leaves the database as found, unless the flags
      could not be saved, or the original was locked and could not be deleted. */
  lemma AsFoundIff(before: Entries, job: Job, vm: VM, backups: set<string>, volumes: set<string>, volume: string,
                   env: RebuildEnv)
    requires Inv(before) && Valid(job.source) && job.Id() in before && job.NewId() !in before
    requires StageFrom(before, job, vm, backups, volumes, volume, env) != Done
    ensures var stage := StageFrom(before, job, vm, backups, volumes, volume, env);
      LeftBy(before, job, vm, stage) == before <==>
        stage == Working || ((stage == Deleting || stage == Emptied) && !before[job.Id()].vm.locked)
  {
    SourceName(before, job.source);
    if before[job.Id()].active {
      assert ActiveOf(before, job.source.name, job.Id());
      ActivateNothing(before, job.source.name);
    }
    LostIsGone(before, job, vm);
  }

  lemma LostIsGone(before: Entries, job: Job, vm: VM)
    requires job.Id() in before && job.NewId() !in before
    ensures job.Id() !in LeftBy(before, job, vm, Lost)
  {
    assert job.Id() !in Replaced(before, job, vm);
  }

  /** The disk of the new revision is created, but cannot be filled: it stays. */
  predicate Leaks(db: Entries, w: NewVMs.World, p: NewVMs.Plan, env: RebuildEnv) {
    NewVMs.LeaksDisk(db, w, p, false, env.build)
  }

  class Rebuild {
    const daemon: Daemon
    const server: NewVMs.Server
    var defers: seq<Undo>

    constructor (daemon: Daemon)
      ensures this.daemon == daemon && server == daemon.server && defers == []
    {
      this.daemon, server, defers := daemon, daemon.server, [];
    }

    /** The new revision, not active yet. */
    method Start(job: Job, conf: Config, pointer: nat, env: RebuildEnv) returns (ok: bool, ghost vm: VM)
      requires server == daemon.server && Inv(server.db) && server.defers == [] && defers == []
      requires ConfigOK(conf) && conf.name == job.source.name && Valid(job.source)
      requires job.Id() in server.db && server.db[job.Id()].name == job.source && pointer !in server.libvirt.leases
      requires job.replacement == VMName(conf.name, Highest(server.db, conf.name, REVISION_NONE) + 1)
      modifies this`defers, server, server.libvirt
      ensures server.defers == [] && vm == NewVMs.NewMachine(conf, env.build)
      ensures if ok then defers == [DeleteNew] && Started(old(server.db), server.db, job, vm)
        else defers == [] && server.db == old(server.db)
      ensures env.build.undoDomainOK && env.build.undoDiskOK ==>
        && var p := PlanOf(job, conf, pointer, server.libvirt.prefix, env);
        && DiskIf(ok, Leaks(old(server.db), old(server.Snapshot()), p, env), old(server.disks), server.disks,
                  job.NewId() + ".qcow2")
        && AddedIf(ok, old(server.domains), server.domains, server.libvirt.prefix + job.NewId())
      ensures var p := PlanOf(job, conf, pointer, server.libvirt.prefix, env);
        ok <==> env.build.saved && NewVMs.Buildable(old(server.db), old(server.Snapshot()), p, false, false, env.build)
    {
      assert EntryOK(server.db[job.Id()]);
      var r;
      ghost var p, failedSave;
      ghost var w0 := server.Snapshot();
      r, p, failedSave := server.NewVM(conf, job.replacement.revision, false, false, pointer, env.build);
      vm := NewVMs.NewMachine(conf, env.build);
      ok := r.Some?;
      NextIsFree(old(server.db), job, conf);
      NewVMs.BuildableMeaning(old(server.db), w0, p, false, false, env.build);
      StartedByNewVM(old(server.db), server.db, p, job, ok, failedSave);
      if ok {
        defers := [DeleteNew];
      }
    }

    /** Takes the active flag from the original. */
    method SwitchOff(job: Job, env: RebuildEnv, ghost before: Entries, ghost vm: VM) returns (ok: bool)
      requires defers == [DeleteNew] && Started(before, server.db, job, vm)
      modifies this`defers, server`db
      ensures ok <==> (before[job.Id()].active ==> env.savedOff)
      ensures !ok ==> Stopped(before, old(server.db), server.db, defers, job, vm, Deactivating)
      ensures ok ==> defers == Registered(before[job.Id()].active)
      ensures ok ==> server.db == if before[job.Id()].active
        then Activate(old(server.db), job.source.name, REVISION_NONE) else old(server.db)
    {
      if !server.db[job.Id()].active {
        return true;
      }
      server.db := Activate(server.db, job.source.name, REVISION_NONE);
      if !env.savedOff {
        return false;
      }
      defers := defers + [Reactivate];
      return true;
    }

    /** Copies the data of the original, if it has any: backup, then restore. */
    method Copy(job: Job, volume: string, env: RebuildEnv, ghost vm: VM) returns (ok: bool)
      requires server == daemon.server && job.Id() in server.db && DropBackup !in defers
      requires job.NewId() in server.db && server.db[job.NewId()].vm == vm && vm.wip == NoOperation
      modifies this`defers, daemon, server`db
      ensures server.db == old(server.db)
      ensures defers == old(defers) || defers == old(defers) + [DropBackup]
      ensures daemon.backups == if defers == old(defers) then old(daemon.backups) else old(daemon.backups) + {volume}
      ensures defers == old(defers) ==>
        VolumeSafe(server.db[job.Id()].vm, old(daemon.backups), old(daemon.volumes), volume, env.backup) ==>
        daemon.volumes == old(daemon.volumes)
      ensures defers != old(defers) ==>
        daemon.volumes == old(daemon.volumes) + {volume} && volume !in old(daemon.volumes)
          && volume !in old(daemon.backups)
      ensures ok <==> Copies(server.db[job.Id()].vm, vm, old(daemon.backups), old(daemon.volumes), volume, env)
    {
      if !server.db[job.Id()].vm.config.hasBackup {
        return true;
      }
      ghost var db := server.db;
      var backup := daemon.VMBackup(job.Id(), volume, env.backup);
      if backup.None? {
        return false;
      }
      defers := defers + [DropBackup];
      ok := daemon.VMRestore(job.NewId(), env.restoreOK);
      assert server.db[job.NewId()] == db[job.NewId()];
      assert server.db == db;
    }

    /** Gives the active flag to the new revision. */
    method SwitchOn(job: Job, active: bool, env: RebuildEnv, ghost before: Entries, ghost started: Entries,
                    ghost vm: VM)
      returns (ok: bool)
      requires Started(before, started, job, vm) && active == before[job.Id()].active
      requires server.db == if active then Activate(started, job.source.name, REVISION_NONE) else started
      modifies server`db
      ensures if active then SameButFlags(started, server.db, job.source.name) else server.db == started
      ensures ok ==> server.db == Switched(started, job, active)
      ensures ok <==> (active ==> HandsOver(before, job, vm, env))
    {
      if !active {
        return true;
      }
      ActivateIsSameButFlags(started, job.source.name, REVISION_NONE);
      ActivateIsSameButFlags(started, job.source.name, job.replacement.revision);
      ActivateTwice(started, job.source.name, REVISION_NONE, job.replacement.revision);
      SwitchedOnIff(before, started, job, vm, env.parentOK);
      var done := Activated(server.db, job.replacement.name, job.replacement.revision, env.parentOK, env.savedOn);
      server.db := done.db;
      return done.ok;
    }

    method DeleteUnlocked(job: Job, env: DeleteEnv, ghost rest: Entries) returns (ok: bool)
      requires server == daemon.server && KeysAreIds(server.db) && MayDelete(server.db, job.Id())
      requires Deleted(server.db, job.source, env.parentOK, env.saved1, env.saved2) == Outcome(rest, env.saved2)
      modifies server`db, server`disks, server`domains
      ensures ok <==> env.Removes()
      ensures server.db == if env.Undefines() then rest else old(server.db)
      ensures server.disks == Unless(env.Empties(), old(server.disks), job.Id() + ".qcow2")
      ensures server.domains == Unless(env.Undefines(), old(server.domains), server.libvirt.prefix + job.Id())
    {
      ok := daemon.VMDelete(job.source, env);
    }

    /** Unlocks and deletes the original; the new revision is locked if it was, or on request. `rest`
        are the entries without the original. */
    method Finish(job: Job, lock: bool, env: RebuildEnv, ghost rest: Entries) returns (ok: bool)
      requires server == daemon.server && job.Id() in server.db && job.NewId() in rest
      requires KeysAreIds(Unlock(server.db, job.Id(), true))
      requires var d := env.deletion;
        Deleted(Unlock(server.db, job.Id(), true), job.source, d.parentOK, d.saved1, d.saved2)
          == Outcome(rest, d.saved2)
      modifies server`db, server`disks, server`domains
      ensures ok <==> env.deletion.Removes()
      ensures server.db == if !env.deletion.Undefines() then Unlock(old(server.db), job.Id(), true)
        else if ok && (lock || old(server.db)[job.Id()].vm.locked) then WithLock(rest, job.NewId())
        else rest
      ensures server.disks == if env.deletion.Empties() then old(server.disks) - {job.Id() + ".qcow2"}
        else old(server.disks)
      ensures server.domains == if env.deletion.Undefines()
        then old(server.domains) - {server.libvirt.prefix + job.Id()} else old(server.domains)
    {
      var originalLocked := server.db[job.Id()].vm.locked;
      var _ := daemon.VMLockUnlock(job.Id(), false);
      assert server.db == Unlock(old(server.db), job.Id(), true);
      ok := DeleteUnlocked(job, env.deletion, rest);
      if ok && (lock || originalLocked) {
        var _ := daemon.VMLockUnlock(job.NewId(), true);
      }
    }

    method UndoOne(u: Undo, job: Job, success: bool, volume: string, env: RebuildEnv)
      requires server == daemon.server && KeysAreIds(server.db)
      modifies daemon, server`db, server`disks, server`domains
      ensures KeysAreIds(server.db)
      ensures success ==>
        server.db == old(server.db) && server.disks == old(server.disks) && server.domains == old(server.domains)
      ensures !success && env.discard.Fine() && env.undoParentOK ==>
        && server.db == Compensated(old(server.db), u, job)
        && Undone(old(server.disks), old(server.domains), server.disks, server.domains,
                  Discards(old(server.db), [u], job), job)
      ensures daemon.backups == if u == DropBackup then old(daemon.backups) - {volume} else old(daemon.backups)
      ensures daemon.volumes == if u == DropBackup && volume in old(daemon.backups) && env.backupDropped
        then old(daemon.volumes) - {volume} else old(daemon.volumes)
    {
      if u == DropBackup {
        daemon.DropBackup(volume, env.backupDropped, env.backupDropped);
      } else if !success {
        UndoInDatabase(u, job, env);
      }
    }

    /** The disk and the domain of the new revision, once its deletion has been tried. */
    ghost predicate Undone(disks0: set<string>, domains0: set<string>, disks: set<string>, domains: set<string>,
                           discarded: bool, job: Job)
    {
      && disks == Unless(discarded, disks0, job.NewId() + ".qcow2")
      && domains == Unless(discarded, domains0, server.libvirt.prefix + job.NewId())
    }

    method UndoInDatabase(u: Undo, job: Job, env: RebuildEnv)
      requires server == daemon.server && KeysAreIds(server.db) && u != DropBackup
      modifies server`db, server`disks, server`domains
      ensures KeysAreIds(server.db)
      ensures env.discard.Fine() && env.undoParentOK ==>
        && server.db == Compensated(old(server.db), u, job)
        && Undone(old(server.disks), old(server.domains), server.disks, server.domains,
                  Discards(old(server.db), [u], job), job)
    {
      if u == Reactivate {
        ActivateKeeps(server.db, job.source.name, job.source.revision);
        server.db := Activated(server.db, job.source.name, job.source.revision, env.undoParentOK, true).db;
      } else {
        DeletedKeeps(server.db, job.replacement, env.discard);
        var _ := daemon.VMDelete(job.replacement, env.discard);
      }
    }

    /** The deferred calls, last in, first out; after a success, only the backup is deleted. */
    method Unwind(job: Job, success: bool, volume: string, env: RebuildEnv)
      requires server == daemon.server && KeysAreIds(server.db)
      modifies this`defers, daemon, server`db, server`disks, server`domains
      ensures defers == []
      ensures success ==>
        server.db == old(server.db) && server.disks == old(server.disks) && server.domains == old(server.domains)
      ensures !success && env.discard.Fine() && env.undoParentOK ==>
        && server.db == Unwound(old(server.db), old(defers), job)
        && Undone(old(server.disks), old(server.domains), server.disks, server.domains,
                  Discards(old(server.db), old(defers), job), job)
      ensures daemon.backups == if DropBackup in old(defers) then old(daemon.backups) - {volume}
        else old(daemon.backups)
      ensures daemon.volumes == if DropBackup in old(defers) && volume in old(daemon.backups) && env.backupDropped
        then old(daemon.volumes) - {volume} else old(daemon.volumes)
    {
      while defers != []
        invariant defers <= old(defers) && KeysAreIds(server.db)
        invariant success ==>
          server.db == old(server.db) && server.disks == old(server.disks) && server.domains == old(server.domains)
        invariant !success && env.discard.Fine() && env.undoParentOK ==>
          && Unwound(server.db, defers, job) == Unwound(old(server.db), old(defers), job)
          && Undone(old(server.disks), old(server.domains), server.disks, server.domains,
                    Discards(old(server.db), old(defers)[|defers|..], job), job)
          && SoFar(old(server.db), server.db, old(defers)[|defers|..], job)
        invariant daemon.backups ==
          if DropBackup in old(defers)[|defers|..] then old(daemon.backups) - {volume} else old(daemon.backups)
        invariant daemon.volumes ==
          if DropBackup in old(defers)[|defers|..] && volume in old(daemon.backups) && env.backupDropped
          then old(daemon.volumes) - {volume} else old(daemon.volumes)
        decreases |defers|
      {
        var u := defers[|defers| - 1];
        assert old(defers)[|defers| - 1..] == [u] + old(defers)[|defers|..];
        defers := defers[..|defers| - 1];
        ghost var db1, disks1, domains1, undone := server.db, server.disks, server.domains, old(defers)[|defers| + 1..];
        UndoOne(u, job, success, volume, env);
        if !success && env.discard.Fine() && env.undoParentOK {
          CompensatedSoFar(old(server.db), db1, undone, u, job);
          UndoneOneMore(old(server.db), db1, old(server.disks), disks1, undone, u, job, job.NewId() + ".qcow2");
          UndoneOneMore(old(server.db), db1, old(server.domains), domains1, undone, u, job,
            server.libvirt.prefix + job.NewId());
        }
      }
      assert old(defers)[0..] == old(defers);
    }

    /** Copies the data, then moves the active flag. */
    method Transfer(job: Job, active: bool, volume: string, env: RebuildEnv, ghost before: Entries,
                    ghost started: Entries, ghost vm: VM)
      returns (ok: bool)
      requires server == daemon.server && Started(before, started, job, vm) && vm.wip == NoOperation
      requires active == before[job.Id()].active && defers == Registered(active)
      requires server.db == if active then Activate(started, job.source.name, REVISION_NONE) else started
      modifies this`defers, daemon, server`db
      ensures Prepared(before, started, server.db, defers, job, vm, false)
      ensures ok ==> server.db == Switched(started, job, active)
      ensures BackupKept(defers, volume, old(daemon.backups), old(daemon.volumes), daemon.backups, daemon.volumes)
      ensures DropBackup !in defers ==>
        VolumeSafe(before[job.Id()].vm, old(daemon.backups), old(daemon.volumes), volume, env.backup) ==>
        daemon.volumes == old(daemon.volumes)
      ensures var copied := Copies(before[job.Id()].vm, vm, old(daemon.backups), old(daemon.volumes), volume, env);
        ok <==> copied && (active ==> HandsOver(before, job, vm, env))
    {
      NewStays(before, started, job, vm, active);
      ActivateIsSameButFlags(started, job.source.name, REVISION_NONE);
      ok := Copy(job, volume, env, vm);
      if ok {
        ok := SwitchOn(job, active, env, before, started, vm);
      }
    }

    /** Puts the new revision in the place of the original. */
    method Move(job: Job, active: bool, volume: string, env: RebuildEnv, ghost before: Entries, ghost vm: VM)
      returns (ok: bool, ghost stage: Stage)
      requires server == daemon.server && defers == [DeleteNew]
      requires Started(before, server.db, job, vm) && vm.wip == NoOperation && active == before[job.Id()].active
      modifies this`defers, daemon, server`db
      ensures stage == MoveStage(before, job, vm, old(daemon.backups), old(daemon.volumes), volume, env)
      ensures ok <==> stage == Done
      ensures !ok ==> Stopped(before, old(server.db), server.db, defers, job, vm, stage)
      ensures ok ==> Prepared(before, old(server.db), server.db, defers, job, vm, false)
      ensures ok ==> server.db == Switched(old(server.db), job, active)
      ensures BackupKept(defers, volume, old(daemon.backups), old(daemon.volumes), daemon.backups, daemon.volumes)
      ensures DropBackup !in defers ==>
        VolumeSafe(before[job.Id()].vm, old(daemon.backups), old(daemon.volumes), volume, env.backup) ==>
        daemon.volumes == old(daemon.volumes)
    {
      ghost var started := server.db;
      ok := SwitchOff(job, env, before, vm);
      if !ok {
        return false, Deactivating;
      }
      ok := Transfer(job, active, volume, env, before, started, vm);
      stage := if ok then Done else Working;
    }

    /** From the new revision to the end: takes the original's place. */
    method Replace(job: Job, lock: bool, volume: string, env: RebuildEnv, ghost before: Entries, ghost vm: VM)
      returns (ok: bool, ghost stage: Stage)
      requires server == daemon.server && defers == [DeleteNew]
      requires KeysAreIds(before) && OneActive(before) && Started(before, server.db, job, vm) && vm.wip == NoOperation
      modifies this`defers, daemon, server`db, server`disks, server`domains
      ensures !Early(stage) && (ok <==> stage == Done)
      ensures Stopped(before, old(server.db), server.db, defers, job, vm, stage)
      ensures ok ==> server.db == Rebuilt(before, job, vm, lock)
      ensures server.disks == if DiskGone(stage) then old(server.disks) - {job.Id() + ".qcow2"} else old(server.disks)
      ensures server.domains == if DomainGone(stage) then old(server.domains) - {server.libvirt.prefix + job.Id()}
        else old(server.domains)
      ensures BackupKept(defers, volume, old(daemon.backups), old(daemon.volumes), daemon.backups, daemon.volumes)
      ensures DropBackup !in defers ==>
        VolumeSafe(before[job.Id()].vm, old(daemon.backups), old(daemon.volumes), volume, env.backup) ==>
        daemon.volumes == old(daemon.volumes)
      ensures stage == StageFrom(before, job, vm, old(daemon.backups), old(daemon.volumes), volume, env)
      ensures stage == Deleting || stage == Emptied ==>
        server.db == SwitchedAndUnlocked(old(server.db), job, before[job.Id()].active)
    {
      ghost var started := server.db;
      StartedSource(before, started, job, vm);
      var active := server.db[job.Id()].active;
      ok, stage := Move(job, active, volume, env, before, vm);
      if ok {
        ok, stage := Conclude(job, lock, active, env, before, started, vm);
      }
    }

    /** Deletes the original, whose place the new revision has taken. */
    method Conclude(job: Job, lock: bool, active: bool, env: RebuildEnv, ghost before: Entries, ghost started: Entries,
                    ghost vm: VM)
      returns (ok: bool, ghost stage: Stage)
      requires server == daemon.server && KeysAreIds(before) && OneActive(before)
      requires Prepared(before, started, server.db, defers, job, vm, false) && active == before[job.Id()].active
      requires server.db == Switched(started, job, active)
      modifies server`db, server`disks, server`domains
      ensures stage == DeleteStage(env.deletion) && (ok <==> stage == Done)
      ensures ok ==> server.db == Rebuilt(before, job, vm, lock)
      ensures !ok ==> Stopped(before, started, server.db, defers, job, vm, stage)
      ensures stage == Deleting || stage == Emptied ==> server.db == SwitchedAndUnlocked(started, job, active)
      ensures server.disks == if DiskGone(stage) then old(server.disks) - {job.Id() + ".qcow2"} else old(server.disks)
      ensures server.domains == if DomainGone(stage) then old(server.domains) - {server.libvirt.prefix + job.Id()}
        else old(server.domains)
    {
      FinishedByDelete(before, started, server.db, job, vm, active, env.deletion);
      PreparedUnlocked(before, started, server.db, defers, job, vm);
      ok := Finish(job, lock, env, Replaced(before, job, vm));
      stage := DeleteStage(env.deletion);
    }

    /** The steps of VMRebuild up to its return. */
    method Steps(job: Job, conf: Config, lock: bool, pointer: nat, volume: string, env: RebuildEnv)
      returns (ok: bool, ghost stage: Stage)
      requires server == daemon.server && Inv(server.db) && server.defers == [] && defers == []
      requires ConfigOK(conf) && conf.name == job.source.name && Valid(job.source)
      requires job.Id() in server.db && server.db[job.Id()].name == job.source && pointer !in server.libvirt.leases
      requires job.replacement == VMName(conf.name, Highest(server.db, conf.name, REVISION_NONE) + 1)
      modifies this`defers, daemon, server, server.libvirt
      ensures ok <==> stage == Done
      ensures KeysAreIds(server.db) && job.NewId() !in old(server.db)
      ensures ok ==> server.db == Rebuilt(old(server.db), job, NewVMs.NewMachine(conf, env.build), lock)
      ensures !ok ==>
        Unwound(server.db, defers, job) == LeftBy(old(server.db), job, NewVMs.NewMachine(conf, env.build), stage)
      ensures env.build.undoDomainOK && env.build.undoDiskOK ==>
        && Moved(stage, stage == HalfBuilt, DiskGone(stage), old(server.disks), server.disks, job.Id() + ".qcow2",
          job.NewId() + ".qcow2")
        && Moved(stage, false, DomainGone(stage), old(server.domains), server.domains,
                 server.libvirt.prefix + job.Id(), server.libvirt.prefix + job.NewId())
      ensures !ok ==> (Discards(server.db, defers, job) <==> !Early(stage))
      ensures BackupKept(defers, volume, old(daemon.backups), old(daemon.volumes), daemon.backups, daemon.volumes)
      ensures DropBackup !in defers ==>
        VolumeSafe(old(server.db)[job.Id()].vm, old(daemon.backups), old(daemon.volumes), volume, env.backup) ==>
        daemon.volumes == old(daemon.volumes)
      ensures stage == StageOf(old(server.db), old(server.Snapshot()),
        PlanOf(job, conf, pointer, server.libvirt.prefix, env), job, old(daemon.backups), old(daemon.volumes), volume,
        env)
    {
      ghost var before := server.db;
      NextIsFree(before, job, conf);
      ghost var leaks := Leaks(before, server.Snapshot(), PlanOf(job, conf, pointer, server.libvirt.prefix, env), env);
      stage := if leaks then HalfBuilt else Refused;
      ghost var vm;
      ok, vm := Start(job, conf, pointer, env);
      if !ok {
        return;
      }
      ghost var started := server.db;
      ok, stage := Replace(job, lock, volume, env, before, vm);
      if ok {
        RebuiltKeys(before, started, job, vm, lock);
      } else {
        StoppedKeys(before, started, server.db, defers, job, vm, stage);
        StoppedUnwinds(before, started, server.db, defers, job, vm, stage);
        StoppedHasNew(before, started, server.db, defers, job, vm, stage);
      }
    }

    /** The deferred calls, after the steps stopped at `stage`. */
    method Settle(job: Job, ok: bool, volume: string, env: RebuildEnv, ghost stage: Stage, ghost vm: VM,
                  ghost before: Entries, ghost disks: set<string>, ghost domains: set<string>)
      requires server == daemon.server && KeysAreIds(server.db) && job.Id() in before && (ok <==> stage == Done)
      requires !ok ==> Discards(server.db, defers, job) <==> !Early(stage)
      requires !ok ==> Unwound(server.db, defers, job) == LeftBy(before, job, vm, stage)
      requires Compensates(env) ==>
        && Moved(stage, stage == HalfBuilt, DiskGone(stage), disks, server.disks, job.Id() + ".qcow2",
                 job.NewId() + ".qcow2")
        && Moved(stage, false, DomainGone(stage), domains, server.domains, server.libvirt.prefix + job.Id(),
          server.libvirt.prefix + job.NewId())
      modifies this`defers, daemon, server`db, server`disks, server`domains
      ensures ok ==> server.db == old(server.db)
      ensures !ok && Compensates(env) ==> server.db == LeftBy(before, job, vm, stage)
      ensures Compensates(env) ==>
        && DisksLeft(disks, server.disks, stage, job)
        && DomainsLeft(domains, server.domains, stage, job, server.libvirt.prefix)
      ensures daemon.backups == if DropBackup in old(defers) then old(daemon.backups) - {volume}
        else old(daemon.backups)
      ensures daemon.volumes == if DropBackup in old(defers) && volume in old(daemon.backups) && env.backupDropped
        then old(daemon.volumes) - {volume} else old(daemon.volumes)
    {
      ghost var disks1, domains1 := server.disks, server.domains;
      Unwind(job, ok, volume, env);
      if Compensates(env) {
        MovedBack(stage, stage == HalfBuilt, DiskGone(stage), disks, disks1, server.disks, job.Id() + ".qcow2",
          job.NewId() + ".qcow2");
        MovedBack(stage, false, DomainGone(stage), domains, domains1, server.domains,
          server.libvirt.prefix + job.Id(), server.libvirt.prefix + job.NewId());
      }
    }

    /** The steps, then the deferred calls. */
    method Transaction(job: Job, conf: Config, lock: bool, pointer: nat, volume: string, env: RebuildEnv)
      returns (ok: bool, ghost stage: Stage)
      requires server == daemon.server && Inv(server.db) && server.defers == [] && defers == []
      requires ConfigOK(conf) && conf.name == job.source.name && Valid(job.source)
      requires job.Id() in server.db && server.db[job.Id()].name == job.source && pointer !in server.libvirt.leases
      requires job.replacement == VMName(conf.name, Highest(server.db, conf.name, REVISION_NONE) + 1)
      modifies this`defers, daemon, server, server.libvirt
      ensures ok <==> stage == Done
      ensures Concluded(old(server.db), server.db, stage, job, NewVMs.NewMachine(conf, env.build), lock, env)
      ensures Compensates(env) ==>
        && DisksLeft(old(server.disks), server.disks, stage, job)
        && DomainsLeft(old(server.domains), server.domains, stage, job, server.libvirt.prefix)
      ensures daemon.backups == old(daemon.backups)
      ensures env.backupDropped ==>
        VolumeSafe(old(server.db)[job.Id()].vm, old(daemon.backups), old(daemon.volumes), volume, env.backup) ==>
        daemon.volumes == old(daemon.volumes)
      ensures stage == StageOf(old(server.db), old(server.Snapshot()),
        PlanOf(job, conf, pointer, server.libvirt.prefix, env), job, old(daemon.backups), old(daemon.volumes), volume,
        env)
    {
      ghost var before, disks, domains := server.db, server.disks, server.domains;
      ghost var b0, v0 := daemon.backups, daemon.volumes;
      ok, stage := Steps(job, conf, lock, pointer, volume, env);
      ghost var b1, v1, registered := daemon.backups, daemon.volumes, defers;
      Settle(job, ok, volume, env, stage, NewVMs.NewMachine(conf, env.build), before, disks, domains);
      BackupGone(registered, volume, b0, v0, b1, v1, daemon.backups, daemon.volumes, env.backupDropped,
        VolumeSafe(before[job.Id()].vm, b0, v0, volume, env.backup));
    }

    /** VMRebuild. On success, the original is replaced by one fresh revision; on failure, entries and
        flags are as found, but for the lock of the original if its deletion stopped before the database,
        and for its flag if the deactivation could not be saved. If its deletion went further but reported
        an error, neither the original nor the new revision keeps its disk. */
    method VMRebuild(source: VMName, conf: Config, lock: bool, pointer: nat, volume: string, env: RebuildEnv)
      returns (ok: bool, ghost stage: Stage, ghost job: Job)
      requires server == daemon.server && Inv(server.db) && server.defers == [] && defers == []
      requires Valid(source) && ConfigOK(conf) && conf.name == source.name && pointer !in server.libvirt.leases
      modifies this`defers, daemon, server, server.libvirt
      ensures job == Job(source, VMName(source.name, Highest(old(server.db), source.name, REVISION_NONE) + 1))
      ensures ok <==> stage == Done
      ensures Concluded(old(server.db), server.db, stage, job, NewVMs.NewMachine(conf, env.build), lock, env)
      ensures Compensates(env) ==>
        && DisksLeft(old(server.disks), server.disks, stage, job)
        && DomainsLeft(old(server.domains), server.domains, stage, job, server.libvirt.prefix)
      ensures daemon.backups == old(daemon.backups)
      ensures env.backupDropped && source.ID() in old(server.db) ==>
        VolumeSafe(old(server.db)[source.ID()].vm, old(daemon.backups), old(daemon.volumes), volume, env.backup) ==>
        daemon.volumes == old(daemon.volumes)
      ensures var id := source.ID();
        var accepted := id in old(server.db) && old(server.db)[id].vm.wip == NoOperation && env.running && env.configOK
          && old(server.db)[id].vm.config.hasRestore == old(server.db)[id].vm.config.hasBackup;
        if !accepted then stage == Refused && server.db == old(server.db)
        else stage == StageOf(old(server.db), old(server.Snapshot()),
          PlanOf(job, conf, pointer, server.libvirt.prefix, env), job,
                   old(daemon.backups), old(daemon.volumes), volume, env)
      ensures ok ==> InItsPlace(old(server.db), server.db, job, NewVMs.NewMachine(conf, env.build), lock)
    {
      ok, stage := false, Refused;
      var plan, accepted := Check(source, env);
      job := plan;
      if accepted {
        NextRevisionIsFree(server.db, source.name);
        ok, stage := Transaction(plan, conf, lock, pointer, volume, env);
        RebuiltMeaning(old(server.db), job, NewVMs.NewMachine(conf, env.build), lock);
      }
    }

    /** The new revision, and the checks made before anything is changed. */
    method Check(source: VMName, env: RebuildEnv) returns (job: Job, ok: bool)
      requires KeysAreIds(server.db) && Valid(source)
      ensures job == Job(source, VMName(source.name, Highest(server.db, source.name, REVISION_NONE) + 1))
      ensures ok <==> Accepted(server.db, source, env)
      ensures ok ==> server.db[source.ID()].name == source
    {
      var highest := FindHighest(server.db, source.name, REVISION_NONE);
      job := Job(source, VMName(source.name, highest + 1));
      ok := Checked(source, env);
      if ok {
        SourceName(server.db, source);
      }
    }

    method Checked(source: VMName, env: RebuildEnv) returns (ok: bool)
      ensures ok <==> Accepted(server.db, source, env)
    {
      var id := source.ID();
      if id !in server.db || server.db[id].vm.wip != NoOperation {
        return false;
      }
      var config := server.db[id].vm.config;
      return config.hasRestore == config.hasBackup && env.running && env.configOK;
    }
  }
}
