/** MigrateVM: a VM is built anew on another server, and the original deleted. */
module Migrations {
  import opened VMNames
  import opened VMRegistry
  import Rollbacks
  import opened Daemons

  /** A call to the other server: it may fail there, or succeed with its answer lost. */
  datatype Reply = NotDone | Unheard | Heard

  datatype MigrateEnv = MigrateEnv(
    running: bool, peerFound: bool, searched: bool,
    created: Reply, savedOff: bool, transferred: bool, restored: bool,
    activated: Reply, remoteParentOK: bool, remoteSaved: bool, deletion: DeleteEnv,
    undoParentOK: bool, undoReached: bool)

  datatype Options = Options(force: bool, keepSourceActive: bool, allowNewRevision: bool)

  /** Compensations, in the order they are registered. The last one is only registered once nothing
      can fail any more. */
  datatype Undo = DeleteRemote | Reactivate | DeactivateRemote

  /** Where a migration stopped. */
  datatype Stage =
    | Refused      // before anything was changed
    | Forgotten    // the VM was created on the destination, but the answer was lost
    | Deactivating // the flags of the source could not be saved
    | Working      // while the data was copied, or when the destination refused to activate it
    | Activating   // the destination activated the VM, but an error was reported
    | Done

  predicate BothActive(local: Entries, remote: Entries, id: string, newId: string) {
    id in local && local[id].active && newId in remote && remote[newId].active
  }

  /** Deactivating then re-activating the active revision changes nothing. */
  lemma Reactivated(db: Entries, name: VMName)
    requires Inv(db) && Valid(name) && name.ID() in db && db[name.ID()].name == name && db[name.ID()].active
    ensures var off := Activate(db, name.name, REVISION_NONE);
      && CanActivate(off, name.name, name.revision, true) && Activate(off, name.name, name.revision) == db
  {
    var off := Activate(db, name.name, REVISION_NONE);
    var id := name.ID();
    assert EntryOK(db[id]);
    ActivateAgain(db, name.name, name.revision);
    assert Activate(off, name.name, name.revision) == Activate(db, name.name, name.revision);
    ActiveHasNoConflict(db, off, id);
    assert off[id].vm.config == db[id].vm.config;
  }

  /** The destination with the new VM, not active yet. */
  ghost predicate Created(before: Entries, db: Entries, name: VMName, vm: VM) {
    Valid(name) && name.ID() !in before && db == before[name.ID() := Entry(name, vm, false)]
  }

  function Unlocked(db: Entries, id: string): Entries {
    if id in db then db[id := db[id].(vm := db[id].vm.(locked := false))] else db
  }

  /** Unlocking then deleting a VM of the destination, which refuses to delete a locked one. */
  ghost function Discarded(db: Entries, name: VMName): Entries {
    var unlocked := Unlocked(db, name.ID());
    if MayDelete(unlocked, name.ID()) then Deleted(unlocked, name, true, true, true).db else unlocked
  }

  predicate IsTop(db: Entries, name: string, x: string)
    requires x in db
  {
    forall y | y in db && db[y].name.name == name :: db[y].name.revision <= db[x].name.revision
  }

  /** The active flag of a name is with its highest revision; the rest is the same. */
  predicate HandedDown(before: Entries, after: Entries, name: string) {
    after.Keys == before.Keys
    && forall x | x in before ::
         if before[x].name.name == name then after[x] == before[x].(active := IsTop(before, name, x))
           else after[x] == before[x]
  }

  /** The compensations of a VM that the destination had already activated leave the flag there to
      the highest remaining revision. */
  lemma DiscardedActive(before: Entries, db: Entries, name: VMName, vm: VM)
    requires Inv(before) && Created(before, db, name, vm) && EntryOK(Entry(name, vm, true))
    requires CanActivate(db, name.name, name.revision, true)
    requires Deleted(Unlocked(Activate(db, name.name, name.revision), name.ID()), name, true, true, true).ok
    ensures HandedDown(before, Discarded(Activate(db, name.name, name.revision), name), name.name)
  {
    var on := Unlocked(Activate(db, name.name, name.revision), name.ID());
    ActivatedKeepsInv(before, db, name, vm);
    CreatedThenOn(before, db, name, vm);
    PromotedOnDelete(on, name);
    PromotedIsHandedDown(before, on, Deleted(on, name, true, true, true).db, name);
  }

  lemma ActivatedKeepsInv(before: Entries, db: Entries, name: VMName, vm: VM)
    requires Inv(before) && Created(before, db, name, vm) && EntryOK(Entry(name, vm, true))
    requires CanActivate(db, name.name, name.revision, true)
    ensures Inv(Unlocked(Activate(db, name.name, name.revision), name.ID()))
  {
    PutKeepsInv(before, name.ID(), Entry(name, vm, false));
    SetActiveKeepsInv(db, name.name, name.revision, true, true);
    UnlockedKeepsInv(Activate(db, name.name, name.revision), name.ID());
  }

  /** One more entry, which is active. */
  predicate SwitchedOn(before: Entries, on: Entries, name: VMName) {
    && name.ID() !in before && on.Keys == before.Keys + {name.ID()}
    && on[name.ID()].active && on[name.ID()].name == name
    && (forall x | x in before :: on[x] == before[x].(active := on[x].active))
    && (forall x | x in before && before[x].name.name != name.name :: on[x] == before[x])
  }

  lemma CreatedThenOn(before: Entries, db: Entries, name: VMName, vm: VM)
    requires Created(before, db, name, vm)
    ensures SwitchedOn(before, Unlocked(Activate(db, name.name, name.revision), name.ID()), name)
  {
  }

  predicate Promoted(on: Entries, after: Entries, name: VMName) {
    name.ID() in on && on[name.ID()].name.name == name.name && Promotes(on, after, name.ID())
  }

  lemma PromotedOnDelete(on: Entries, name: VMName)
    requires Inv(on) && name.ID() in on && on[name.ID()].active && on[name.ID()].name.name == name.name
    requires Deleted(on, name, true, true, true).ok
    ensures Promoted(on, Deleted(on, name, true, true, true).db, name)
  {
    DeletePromotes(on, name, true, true, true);
  }

  lemma PromotedIsHandedDown(before: Entries, on: Entries, after: Entries, name: VMName)
    requires SwitchedOn(before, on, name) && Promoted(on, after, name)
    ensures HandedDown(before, after, name.name)
  {
  }

  /** The active flag of a name is with its highest revision, if any. */
  predicate FlagWithTop(db: Entries, name: string) {
    forall x | x in db && db[x].name.name == name :: db[x].active <==> IsTop(db, name, x)
  }

  /** So the destination is as it was exactly when its highest revision, if any, was active. */
  lemma HandedDownIff(before: Entries, after: Entries, name: string)
    requires HandedDown(before, after, name)
    ensures after == before <==> FlagWithTop(before, name)
  {
  }

  lemma UnlockedKeepsInv(db: Entries, id: string)
    requires Inv(db)
    ensures Inv(Unlocked(db, id))
  {
    if id in db {
      PutKeepsInv(db, id, db[id].(vm := db[id].vm.(locked := false)));
    }
  }

  // -- the transaction ------------------------------------------------------

  /** What is migrated: `vm` is the VM as the destination builds it. */
  datatype Job = Job(source: VMName, replacement: VMName, vm: VM) {
    function Id(): string {
      source.ID()
    }

    function NewId(): string {
      replacement.ID()
    }
  }

  function CreatedOn(remote: Entries, job: Job): Entries {
    remote[job.NewId() := Entry(job.replacement, job.vm, false)]
  }

  /** The source once its data is being copied: inactive, unless it is kept active. */
  function SourceOff(local: Entries, job: Job, keep: bool): Entries {
    if job.Id() in local && local[job.Id()].active && !keep
    then Activate(local, job.source.name, REVISION_NONE)
    else local
  }

  function Registered(local: Entries, job: Job, keep: bool): seq<Undo> {
    if job.Id() in local && local[job.Id()].active && !keep then [DeleteRemote, Reactivate] else [DeleteRemote]
  }

  /** What the steps leave to the compensations, from the databases `l0` and `r0`. */
  predicate Stopped(l0: Entries, r0: Entries, l: Entries, r: Entries, defers: seq<Undo>, job: Job, keep: bool,
                    stage: Stage)
  {
    match stage
    case Refused => l == l0 && r == r0 && defers == []
    case Forgotten => l == l0 && r == CreatedOn(r0, job) && defers == []
    case Deactivating =>
      && job.Id() in l0 && l0[job.Id()].active && !keep
      && l == SourceOff(l0, job, keep) && r == CreatedOn(r0, job) && defers == [DeleteRemote]
    case Working => l == SourceOff(l0, job, keep) && r == CreatedOn(r0, job) && defers == Registered(l0, job, keep)
    case Activating =>
      && job.Id() in l0 && l0[job.Id()].active
      && l == SourceOff(l0, job, keep) && defers == Registered(l0, job, keep)
      && r == Activate(CreatedOn(r0, job), job.source.name, job.replacement.revision)
      && CanActivate(CreatedOn(r0, job), job.source.name, job.replacement.revision, true)
    case Done => true
  }

  /** The two databases that a failed migration leaves once its compensations have succeeded. */
  function LocalLeft(l0: Entries, job: Job, stage: Stage): Entries {
    if stage == Deactivating then Activate(l0, job.source.name, REVISION_NONE) else l0
  }

  ghost function RemoteLeft(r0: Entries, job: Job, stage: Stage): Entries {
    match stage
    case Forgotten => CreatedOn(r0, job)
    case Activating => Discarded(Activate(CreatedOn(r0, job), job.source.name, job.replacement.revision),
      job.replacement)
    case _ => r0
  }

  /** A successful migration, on the destination. */
  function Arrived(l0: Entries, r0: Entries, job: Job): Entries
    requires job.Id() in l0
  {
    if l0[job.Id()].active
    then Activate(CreatedOn(r0, job), job.source.name, job.replacement.revision)
    else CreatedOn(r0, job)
  }

  ghost function AfterDeletion(db: Entries, job: Job, env: DeleteEnv): Entries {
    if env.Undefines() && MayDelete(db, job.Id())
    then Deleted(db, job.source, env.parentOK, env.saved1, env.saved2).db else db
  }

  /** And on the source; an error of the deletion is only logged. */
  ghost function Departed(l0: Entries, job: Job, keep: bool, env: DeleteEnv): Entries {
    AfterDeletion(Unlocked(SourceOff(l0, job, keep), job.Id()), job, env)
  }

  predicate ActiveLocked(db: Entries, name: string) {
    exists x | x in db :: db[x].name.name == name && db[x].active && db[x].vm.locked
  }

  /** Where the activation on the destination stops: it refuses to take the flag from a locked VM, or
      the flag is given but an error is reported. */
  function ActivationStage(remote: Entries, job: Job, env: MigrateEnv): Stage {
    if env.activated == NotDone || ActiveLocked(remote, job.source.name) then Working
    else if !CanActivate(remote, job.source.name, job.replacement.revision, env.remoteParentOK) then Working
    else if !env.remoteSaved || env.activated == Unheard then Activating
    else Done
  }

  /** Where a migration that is not refused stops, once the destination has answered. */
  function StageFrom(l0: Entries, r0: Entries, job: Job, keep: bool, env: MigrateEnv): Stage
    requires job.Id() in l0
  {
    if l0[job.Id()].active && !keep && !env.savedOff then Deactivating
    else if !env.transferred || !env.restored then Working
    else if l0[job.Id()].active then ActivationStage(CreatedOn(r0, job), job, env)
    else Done
  }

  function StageOf(l0: Entries, r0: Entries, job: Job, keep: bool, env: MigrateEnv): Stage
    requires job.Id() in l0
  {
    if env.created == Unheard then Forgotten else StageFrom(l0, r0, job, keep, env)
  }

  /** The destination lets the new VM take the active flag: the proxy-chain parent agrees, no active VM of
      the name is locked there, and no other active VM has a domain or export of it. */
  ghost predicate MayTakeOver(r0: Entries, job: Job, parentOK: bool) {
    && parentOK && !SelfImport(job.vm.config.ports)
    && (forall x | x in r0 && r0[x].active && r0[x].name.name == job.source.name :: !r0[x].vm.locked)
    && (forall x | x in r0 && r0[x].active && r0[x].name.name != job.source.name ::
          Apart(r0[x].vm.config, job.vm.config))
  }

  /** Where a migration stops, in terms of the two databases and of the answers. */
  lemma StageMeaning(l0: Entries, r0: Entries, job: Job, keep: bool, env: MigrateEnv)
    requires JobOK(l0, r0, job) && job.Id() in l0
    ensures var stage, active := StageOf(l0, r0, job, keep, env), l0[job.Id()].active;
      var off := active && !keep ==> env.savedOff;
      var copied := off && env.transferred && env.restored;
      var taken := copied && active && env.activated != NotDone && MayTakeOver(r0, job, env.remoteParentOK);
      && stage != Refused
      && (stage == Forgotten <==> env.created == Unheard)
      && (stage == Deactivating <==> env.created != Unheard && !off)
      && (stage == Activating <==>
            env.created != Unheard && taken && (env.activated == Unheard || !env.remoteSaved))
      && (stage == Done <==>
            env.created != Unheard && copied && (active ==> taken && env.activated == Heard && env.remoteSaved))
  {
    NewIsFree(l0, r0, job);
    TakesOverIff(l0, r0, job, env.remoteParentOK);
  }

  lemma TakesOverIff(l0: Entries, r0: Entries, job: Job, parentOK: bool)
    requires JobOK(l0, r0, job) && job.NewId() !in r0
    ensures var r := CreatedOn(r0, job);
      !ActiveLocked(r, job.source.name) && CanActivate(r, job.source.name, job.replacement.revision, parentOK)
      <==> MayTakeOver(r0, job, parentOK)
  {
    var r, name := CreatedOn(r0, job), job.source.name;
    assert r[job.NewId()] == Entry(job.replacement, job.vm, false) && VMName(name, job.replacement.revision).ID() in r;
    assert forall x | x in r && r[x].active :: x in r0 && r[x] == r0[x];
    assert forall x | x in r0 :: r[x] == r0[x];
    ConflictMeaning(r, job.vm.config, name);
  }

  lemma ConflictMeaning(db: Entries, config: Config, name: string)
    requires name != ""
    ensures !Conflict(db, config, name) <==>
      !SelfImport(config.ports)
        && forall x | x in db && db[x].active && db[x].name.name != name :: Apart(db[x].vm.config, config)
  {
    assert forall x | x in db :: Rival(db, x, name) <==> db[x].active && db[x].name.name != name;
  }

  ghost predicate JobOK(l0: Entries, r0: Entries, job: Job) {
    && Inv(l0) && Inv(r0) && Valid(job.source)
    && job.replacement == VMName(job.source.name, Highest(r0, job.source.name, REVISION_NONE) + 1)
    && (job.Id() in l0 ==> job.vm.locked == l0[job.Id()].vm.locked) && EntryOK(Entry(job.replacement, job.vm, false))
  }

  datatype Pair = Pair(local: Entries, remote: Entries)

  /** A compensation that finds the other server reachable. */
  ghost function Compensated(p: Pair, u: Undo, job: Job): Pair {
    match u
    case DeleteRemote => p.(remote := Discarded(p.remote, job.replacement))
    case Reactivate => p.(local := Activated(p.local, job.source.name, job.source.revision, true, true).db)
    case DeactivateRemote => p.(remote := Activated(p.remote, job.source.name, REVISION_NONE, true, true).db)
  }

  /** Last in, first out. */
  ghost function Unwound(p: Pair, defers: seq<Undo>, job: Job): Pair
    decreases |defers|
  {
    if defers == [] then p else Unwound(Compensated(p, defers[|defers| - 1], job), defers[..|defers| - 1], job)
  }

  /** Both copies are active after one of the compensations. */
  ghost predicate BothDuring(p: Pair, defers: seq<Undo>, job: Job)
    decreases |defers|
  {
    defers != [] &&
    var q := Compensated(p, defers[|defers| - 1], job);
    BothActive(q.local, q.remote, job.Id(), job.NewId()) || BothDuring(q, defers[..|defers| - 1], job)
  }

  lemma UnwindOne(p: Pair, job: Job)
    ensures Unwound(p, [DeleteRemote], job) == Compensated(p, DeleteRemote, job)
    ensures BothDuring(p, [DeleteRemote], job) <==>
      var q := Compensated(p, DeleteRemote, job); BothActive(q.local, q.remote, job.Id(), job.NewId())
  {
  }

  lemma UnwindTwo(p: Pair, job: Job)
    ensures var q := Compensated(p, Reactivate, job);
      && Unwound(p, [DeleteRemote, Reactivate], job) == Compensated(q, DeleteRemote, job)
      && (BothDuring(p, [DeleteRemote, Reactivate], job) <==>
            BothActive(q.local, q.remote, job.Id(), job.NewId()) || BothDuring(q, [DeleteRemote], job))
  {
  }

  /** Re-activating the source restores its database. */
  lemma ReactivateRestores(l0: Entries, r: Entries, job: Job)
    requires Inv(l0) && Valid(job.source) && job.Id() in l0 && l0[job.Id()].active
    ensures Compensated(Pair(Activate(l0, job.source.name, REVISION_NONE), r), Reactivate, job) == Pair(l0, r)
  {
    SourceName(l0, job);
    Reactivated(l0, job.source);
  }

  lemma DeleteRemoteRestores(l: Entries, r0: Entries, job: Job)
    requires job.NewId() !in r0 && Valid(job.replacement)
    ensures Compensated(Pair(l, CreatedOn(r0, job)), DeleteRemote, job) == Pair(l, r0)
  {
  }

  /** While the data is copied, everything can be taken back. */
  lemma WorkingUnwinds(l0: Entries, r0: Entries, job: Job, keep: bool)
    requires Inv(l0) && Valid(job.source) && job.Id() in l0 && job.NewId() !in r0 && Valid(job.replacement)
    ensures var p, defers := Pair(SourceOff(l0, job, keep), CreatedOn(r0, job)), Registered(l0, job, keep);
      Unwound(p, defers, job) == Pair(l0, r0) && !BothDuring(p, defers, job)
  {
    var p := Pair(SourceOff(l0, job, keep), CreatedOn(r0, job));
    DeleteRemoteRestores(l0, r0, job);
    UnwindOne(Pair(l0, CreatedOn(r0, job)), job);
    if l0[job.Id()].active && !keep {
      ReactivateRestores(l0, CreatedOn(r0, job), job);
      UnwindTwo(p, job);
    } else {
      UnwindOne(p, job);
    }
  }

  /** When the destination has activated the VM all the same, the source is re-activated while both
      are there. */
  lemma ActivatingUnwinds(l0: Entries, r0: Entries, job: Job, keep: bool)
    requires Inv(l0) && Valid(job.source) && job.Id() in l0 && l0[job.Id()].active
    requires job.replacement.name == job.source.name
    ensures var r := Activate(CreatedOn(r0, job), job.source.name, job.replacement.revision);
      var p, defers := Pair(SourceOff(l0, job, keep), r), Registered(l0, job, keep);
      && Unwound(p, defers, job) == Pair(l0, Discarded(r, job.replacement))
      && (!keep ==> BothDuring(p, defers, job))
  {
    var r := Activate(CreatedOn(r0, job), job.source.name, job.replacement.revision);
    var p := Pair(SourceOff(l0, job, keep), r);
    if keep {
      UnwindOne(p, job);
    } else {
      ReactivateRestores(l0, r, job);
      UnwindTwo(p, job);
      UnwindOne(Pair(l0, r), job);
    }
  }

  lemma DeactivatingUnwinds(l0: Entries, r0: Entries, job: Job)
    requires job.NewId() !in r0 && Valid(job.replacement)
    ensures var l := Activate(l0, job.source.name, REVISION_NONE);
      && Unwound(Pair(l, CreatedOn(r0, job)), [DeleteRemote], job) == Pair(l, r0)
      && !BothDuring(Pair(l, CreatedOn(r0, job)), [DeleteRemote], job)
  {
  }

  lemma StoppedUnwinds(l0: Entries, r0: Entries, l: Entries, r: Entries, defers: seq<Undo>, job: Job, keep: bool,
                       stage: Stage)
    requires JobOK(l0, r0, job) && stage != Done && Stopped(l0, r0, l, r, defers, job, keep, stage)
    requires stage != Refused ==> job.Id() in l0
    ensures Unwound(Pair(l, r), defers, job) == Pair(LocalLeft(l0, job, stage), RemoteLeft(r0, job, stage))
    ensures !keep ==> (BothDuring(Pair(l, r), defers, job) <==> stage == Activating)
  {
    NewIsFree(l0, r0, job);
    match stage
    case Deactivating => DeactivatingUnwinds(l0, r0, job);
    case Working => WorkingUnwinds(l0, r0, job, keep);
    case Activating => ActivatingUnwinds(l0, r0, job, keep);
    case _ =>
  }

  class Migration {
    var local: Entries
    var remote: Entries
    var defers: seq<Undo>
    /** Whether the source and the new VM were active at once, at some moment so far. */
    ghost var both: bool

    constructor (local: Entries, remote: Entries)
      ensures this.local == local && this.remote == remote && defers == [] && !both
    {
      this.local, this.remote, defers, both := local, remote, [], false;
    }

    ghost method Observe(job: Job)
      modifies this`both
      ensures both == (old(both) || BothActive(local, remote, job.Id(), job.NewId()))
    {
      both := both || BothActive(local, remote, job.Id(), job.NewId());
    }

    predicate SourceActive(job: Job)
      reads this`local
    {
      job.Id() in local && local[job.Id()].active
    }

    /** MigrateVM. On success the VM is on the destination, with the active flag and the lock it had on
        the source. On failure, if the compensations succeed, both databases are as found, apart from
        what `LocalLeft` and `RemoteLeft` say of the stage where it stopped. Unless the source is
        kept active, both copies are active at once, at some moment, exactly when the destination has
        activated the VM but reported an error. */
    method MigrateVM(job: Job, options: Options, env: MigrateEnv) returns (ok: bool, ghost stage: Stage)
      requires JobOK(local, remote, job) && defers == [] && !both
      modifies this
      ensures (ok <==> stage == Done)
      ensures stage == Refused <==>
        || job.Id() !in old(local) || !env.running || old(local)[job.Id()].vm.wip != NoOperation
        || (old(local)[job.Id()].vm.locked && !options.force)
        || !env.peerFound || !env.searched || env.created == NotDone
        || (!options.allowNewRevision && exists x | x in old(remote) :: old(remote)[x].name.name == job.source.name)
      ensures stage == Refused ==> local == old(local) && remote == old(remote) && !both
      ensures stage != Refused ==> stage == StageOf(old(local), old(remote), job, options.keepSourceActive, env)
      ensures ok ==> remote == Arrived(old(local), old(remote), job)
      ensures ok ==> local == Departed(old(local), job, options.keepSourceActive, env.deletion)
      ensures !ok && env.undoParentOK && env.undoReached ==>
        local == LocalLeft(old(local), job, stage) && remote == RemoteLeft(old(remote), job, stage)
      ensures !options.keepSourceActive && env.undoParentOK && env.undoReached ==> (both <==> stage == Activating)
    {
      ok, stage := Steps(job, options, env);
      if !ok {
        RemoteKeys(old(local), old(remote), local, remote, defers, job, options.keepSourceActive, stage);
        StoppedUnwinds(old(local), old(remote), local, remote, defers, job, options.keepSourceActive, stage);
        Unwind(job, env);
      } else {
        // every compensation checks that the transaction is not committed
        defers := [];
      }
    }

    method Unwind(job: Job, env: MigrateEnv)
      requires KeysAreIds(remote)
      modifies this
      ensures defers == []
      ensures old(defers) == [] ==> local == old(local) && remote == old(remote) && both == old(both)
      ensures env.undoParentOK && env.undoReached ==>
        && Pair(local, remote) == Unwound(old(Pair(local, remote)), old(defers), job)
        && both == (old(both) || BothDuring(old(Pair(local, remote)), old(defers), job))
    {
      while defers != []
        invariant KeysAreIds(remote)
        invariant old(defers) == [] ==>
          defers == [] && local == old(local) && remote == old(remote) && both == old(both)
        invariant env.undoParentOK && env.undoReached ==>
          && Unwound(Pair(local, remote), defers, job) == Unwound(old(Pair(local, remote)), old(defers), job)
          && ((both || BothDuring(Pair(local, remote), defers, job)) <==>
                old(both) || BothDuring(old(Pair(local, remote)), old(defers), job))
        decreases |defers|
      {
        var u := defers[|defers| - 1];
        defers := defers[..|defers| - 1];
        UndoOne(u, job, env);
      }
    }

    method UndoOne(u: Undo, job: Job, env: MigrateEnv)
      requires KeysAreIds(remote)
      modifies this`local, this`remote, this`both
      ensures KeysAreIds(remote)
      ensures env.undoParentOK && env.undoReached ==>
        && Pair(local, remote) == Compensated(old(Pair(local, remote)), u, job)
        && both == (old(both) || BothActive(local, remote, job.Id(), job.NewId()))
    {
      match u {
        case Reactivate =>
          local := Activated(local, job.source.name, job.source.revision, env.undoParentOK, true).db;
        case DeactivateRemote =>
          if env.undoReached {
            ActivateKeeps(remote, job.source.name, REVISION_NONE);
            remote := Activated(remote, job.source.name, REVISION_NONE, true, true).db;
          }
        case DeleteRemote =>
          if env.undoReached {
            DiscardedKeys(remote, job.replacement);
            remote := Unlocked(remote, job.NewId());
            if MayDelete(remote, job.NewId()) {
              var deleted := DeleteEntry(remote, job.replacement, true, true, true);
              remote := deleted.db;
            }
          }
      }
      Observe(job);
    }

    /** The checks that come first; the destination makes the last one. */
    predicate Refuses(job: Job, options: Options, env: MigrateEnv)
      reads this`local, this`remote
    {
      || job.Id() !in local || !env.running || local[job.Id()].vm.wip != NoOperation
      || (local[job.Id()].vm.locked && !options.force)
      || !env.peerFound || !env.searched || env.created == NotDone
      || (HasName(remote, job.source.name) && !options.allowNewRevision)
    }

    /** The steps of MigrateVM up to its return. */
    method Steps(job: Job, options: Options, env: MigrateEnv) returns (ok: bool, ghost stage: Stage)
      requires JobOK(local, remote, job) && defers == [] && !both
      modifies this
      ensures ok <==> stage == Done
      ensures Stopped(old(local), old(remote), local, remote, defers, job, options.keepSourceActive, stage)
      ensures stage == Refused <==> old(Refuses(job, options, env))
      ensures stage != Refused ==>
        job.Id() in old(local) && stage == StageOf(old(local), old(remote), job, options.keepSourceActive, env)
      ensures ok ==> remote == Arrived(old(local), old(remote), job)
      ensures ok ==> local == Departed(old(local), job, options.keepSourceActive, env.deletion)
      ensures !options.keepSourceActive || stage == Refused ==> !both
    {
      if Refuses(job, options, env) {
        return false, Refused;
      }
      NewIsFree(local, remote, job);
      CreateRemote(job);
      if env.created == Unheard {
        return false, Forgotten;
      }
      defers := [DeleteRemote];
      ok, stage := Proceed(job, options.keepSourceActive, env, old(local), old(remote));
    }

    /** From the creation of the new VM on. */
    method Proceed(job: Job, keep: bool, env: MigrateEnv, ghost l0: Entries, ghost r0: Entries)
      returns (ok: bool, ghost stage: Stage)
      requires Inv(l0) && Valid(job.source) && local == l0 && remote == CreatedOn(r0, job) && job.Id() in l0
      requires defers == [DeleteRemote] && !both
      modifies this
      ensures (ok <==> stage == Done) && stage != Refused && stage != Forgotten
      ensures stage == StageFrom(l0, r0, job, keep, env)
      ensures Stopped(l0, r0, local, remote, defers, job, keep, stage)
      ensures ok ==> remote == Arrived(l0, r0, job) && local == Departed(l0, job, keep, env.deletion)
      ensures !keep ==> !both
    {
      ok, stage := Arrive(job, keep, env, l0, r0);
      if ok {
        SourceIsOff(l0, job, keep);
        SourceKeys(l0, job, keep);
        Depart(job, env.deletion);
      }
    }

    /** The data and the active flag go to the destination. */
    method Arrive(job: Job, keep: bool, env: MigrateEnv, ghost l0: Entries, ghost r0: Entries)
      returns (ok: bool, ghost stage: Stage)
      requires Inv(l0) && Valid(job.source) && local == l0 && remote == CreatedOn(r0, job) && job.Id() in l0
      requires defers == [DeleteRemote] && !both
      modifies this
      ensures (ok <==> stage == Done) && stage != Refused && stage != Forgotten
      ensures stage == StageFrom(l0, r0, job, keep, env)
      ensures Stopped(l0, r0, local, remote, defers, job, keep, stage)
      ensures ok ==> remote == Arrived(l0, r0, job) && local == SourceOff(l0, job, keep)
      ensures !keep ==> !both
    {
      var sourceActive := local[job.Id()].active;
      ok := Leave(job, keep, env);
      if !ok {
        return false, Deactivating;
      }
      SourceIsOff(l0, job, keep);
      if !env.transferred || !env.restored {
        return false, Working;
      }
      if sourceActive {
        ok, stage := ActivateRemote(job, env);
        if !ok {
          return;
        }
      }
      return true, Done;
    }

    method CreateRemote(job: Job)
      requires job.NewId() !in remote
      modifies this`remote, this`both
      ensures remote == CreatedOn(old(remote), job) && both == old(both)
    {
      remote := CreatedOn(remote, job);
      Observe(job);
    }

    /** Deactivates the source, unless it is kept active. */
    method Leave(job: Job, keep: bool, env: MigrateEnv) returns (ok: bool)
      requires job.Id() in local && defers == [DeleteRemote]
      requires job.NewId() in remote && !remote[job.NewId()].active
      modifies this`local, this`defers, this`both
      ensures local == SourceOff(old(local), job, keep) && both == old(both)
      ensures ok <==> (old(SourceActive(job)) && !keep ==> env.savedOff)
      ensures defers == if ok then Registered(old(local), job, keep) else [DeleteRemote]
    {
      if !local[job.Id()].active || keep {
        return true;
      }
      local := Activate(local, job.source.name, REVISION_NONE);
      Observe(job);
      if !env.savedOff {
        return false;
      }
      defers := defers + [Reactivate];
      return true;
    }

    /** The destination refuses if its active VM of the name is locked. */
    method ActivateRemote(job: Job, env: MigrateEnv) returns (ok: bool, ghost stage: Stage)
      modifies this`remote, this`defers, this`both
      ensures stage == ActivationStage(old(remote), job, env) && (ok <==> stage == Done)
      ensures remote == if ok || stage == Activating
        then Activate(old(remote), job.source.name, job.replacement.revision) else old(remote)
      ensures defers == if ok then old(defers) + [DeactivateRemote] else old(defers)
      ensures stage == Activating ==> CanActivate(old(remote), job.source.name, job.replacement.revision, true)
      ensures !SourceActive(job) ==> both == old(both)
    {
      stage := Working;
      if env.activated == NotDone || ActiveLocked(remote, job.source.name) {
        return false, Working;
      }
      if !CanActivate(remote, job.source.name, job.replacement.revision, env.remoteParentOK) {
        return false, Working;
      }
      remote := Activate(remote, job.source.name, job.replacement.revision);
      Observe(job);
      if !env.remoteSaved || env.activated == Unheard {
        return false, Activating;
      }
      defers := defers + [DeactivateRemote];
      return true, Done;
    }

    /** Unlocks the source and deletes it. */
    method Depart(job: Job, env: DeleteEnv)
      requires KeysAreIds(Unlocked(local, job.Id()))
      modifies this`local, this`both
      ensures local == AfterDeletion(Unlocked(old(local), job.Id()), job, env)
      ensures !old(SourceActive(job)) ==> both == old(both)
    {
      local := Unlocked(local, job.Id());
      if env.Undefines() && MayDelete(local, job.Id()) {
        var deleted := DeleteEntry(local, job.source, env.parentOK, env.saved1, env.saved2);
        local := deleted.db;
      }
      Observe(job);
    }
  }

  lemma SourceName(l0: Entries, job: Job)
    requires KeysAreIds(l0) && Valid(job.source) && job.Id() in l0
    ensures l0[job.Id()].name == job.source
  {
    assert EntryOK(l0[job.Id()]);
    IdInjective(l0[job.Id()].name, job.source);
  }

  lemma SourceIsOff(l0: Entries, job: Job, keep: bool)
    requires Inv(l0) && Valid(job.source) && job.Id() in l0
    ensures !keep ==> job.Id() in SourceOff(l0, job, keep) && !SourceOff(l0, job, keep)[job.Id()].active
  {
    SourceName(l0, job);
    assert EntryOK(l0[job.Id()]);
  }

  lemma RemoteKeys(l0: Entries, r0: Entries, l: Entries, r: Entries, defers: seq<Undo>, job: Job, keep: bool,
                   stage: Stage)
    requires JobOK(l0, r0, job) && stage != Done && Stopped(l0, r0, l, r, defers, job, keep, stage)
    ensures KeysAreIds(r)
  {
    assert KeysAreIds(CreatedOn(r0, job));
    ActivateKeeps(CreatedOn(r0, job), job.source.name, job.replacement.revision);
  }

  lemma DiscardedKeys(db: Entries, name: VMName)
    requires KeysAreIds(db)
    ensures KeysAreIds(Unlocked(db, name.ID())) && KeysAreIds(Discarded(db, name))
  {
    var unlocked := Unlocked(db, name.ID());
    if name.ID() in db {
      var e := db[name.ID()];
      ActivateKeeps(unlocked, e.name.name, Highest(unlocked, e.name.name, e.name.revision));
    }
  }

  lemma NewIsFree(l0: Entries, r0: Entries, job: Job)
    requires JobOK(l0, r0, job)
    ensures job.NewId() !in r0
  {
    NextRevisionIsFree(r0, job.source.name);
  }

  lemma SourceKeys(l0: Entries, job: Job, keep: bool)
    requires Inv(l0)
    ensures KeysAreIds(Unlocked(SourceOff(l0, job, keep), job.Id()))
  {
    DeactivateKeepsInv(l0, job.source.name);
    UnlockedKeepsInv(SourceOff(l0, job, keep), job.Id());
  }

  // -- what the results mean ------------------------------------------------

  lemma OnlySourceOff(l0: Entries, job: Job, x: string)
    requires Inv(l0) && Valid(job.source) && job.Id() in l0 && x in l0 && x != job.Id()
    ensures SourceOff(l0, job, false)[x] == l0[x]
  {
    SourceName(l0, job);
    if l0[x].name.name == job.source.name && l0[job.Id()].active {
      assert EntryOK(l0[x]) && !l0[x].active;
    }
  }

  lemma OffElsewhere(l0: Entries, job: Job)
    requires Inv(l0) && Valid(job.source) && job.Id() in l0
    ensures forall x | x in Remove(l0, job.Id()) :: SourceOff(l0, job, false)[x] == l0[x]
  {
    forall x | x in Remove(l0, job.Id()) ensures SourceOff(l0, job, false)[x] == l0[x] {
      OnlySourceOff(l0, job, x);
    }
  }

  lemma DeletedOff(off: Entries, rest: Entries, job: Job, env: DeleteEnv)
    requires job.Id() in off && !off[job.Id()].active && rest.Keys == off.Keys - {job.Id()} && env.Undefines()
    requires forall x | x in rest :: off[x] == rest[x]
    ensures AfterDeletion(Unlocked(off, job.Id()), job, env) == rest
  {
  }

  /** Once the source is inactive, its deletion takes its entry away and touches nothing else. */
  lemma DepartedCleanly(l0: Entries, job: Job, keep: bool, env: DeleteEnv)
    requires Inv(l0) && Valid(job.source) && job.Id() in l0 && (keep ==> !l0[job.Id()].active) && env.Undefines()
    ensures Departed(l0, job, keep, env) == Remove(l0, job.Id())
  {
    assert SourceOff(l0, job, keep) == SourceOff(l0, job, false);
    SourceIsOff(l0, job, false);
    OffElsewhere(l0, job);
    DeletedOff(SourceOff(l0, job, false), Remove(l0, job.Id()), job, env);
  }

  /** The flag of a source that was kept active goes to its highest other revision, if there is one that
      may have it, and that change is saved. */
  ghost predicate PassesOn(l0: Entries, name: VMName, parentOK: bool, saved: bool) {
    HasRevision(l0, name.name, name.revision) ==>
      MayHaveFlag(l0, name, parentOK) && saved
  }

  /** The highest other revision has no conflict. */
  ghost predicate MayHaveFlag(l0: Entries, name: VMName, parentOK: bool) {
    var heir := VMName(name.name, Highest(l0, name.name, name.revision)).ID();
    heir in l0 && !Conflict(l0, l0[heir].vm.config, name.name) && parentOK
  }

  lemma MayHaveFlagIff(l0: Entries, name: VMName, parentOK: bool)
    requires Inv(l0) && Valid(name) && name.ID() in l0 && l0[name.ID()].name == name
    requires HasRevision(l0, name.name, name.revision)
    ensures var unlocked := Unlocked(l0, name.ID());
      var heir := Highest(unlocked, name.name, name.revision);
      CanActivate(unlocked, name.name, heir, parentOK) <==> MayHaveFlag(l0, name, parentOK)
  {
    var unlocked := Unlocked(l0, name.ID());
    HighestIsRevision(l0, name.name, name.revision);
    SameHighest(l0, unlocked, name.name, name.revision);
    var heir := VMName(name.name, Highest(l0, name.name, name.revision)).ID();
    if heir in l0 {
      SameConflicts(l0, unlocked, l0[heir].vm.config, name.name);
    }
  }

  predicate SameFlags(a: Entries, b: Entries) {
    a.Keys == b.Keys && forall x | x in a ::
      a[x].name == b[x].name && a[x].active == b[x].active && a[x].vm.config == b[x].vm.config
  }

  lemma SameConflicts(a: Entries, b: Entries, config: Config, name: string)
    requires SameFlags(a, b)
    ensures Conflict(a, config, name) <==> Conflict(b, config, name)
  {
    assert forall x | x in a :: Rival(a, x, name) <==> Rival(b, x, name);
  }

  lemma SameHighest(a: Entries, b: Entries, name: string, except: int)
    requires SameFlags(a, b)
    ensures HasRevision(a, name, except) <==> HasRevision(b, name, except)
    ensures Highest(a, name, except) == Highest(b, name, except)
  {
    if HasRevision(a, name, except) {
      assert IsHighest(b, name, except, Highest(a, name, except));
    }
  }

  /** The entry of the source is gone exactly when its disk and domain were deleted and, if the source was
      kept active, its flag was passed on. Then at most the flag of the name has moved, to its highest
      revision; otherwise the source stays, unlocked, and has lost the flag only if that could not be
      saved. */
  lemma DepartedIff(l0: Entries, job: Job, keep: bool, env: DeleteEnv)
    requires Inv(l0) && Valid(job.source) && job.Id() in l0
    ensures var kept := keep && l0[job.Id()].active;
      var after := Departed(l0, job, keep, env);
      && (job.Id() !in after <==> env.Undefines() && (kept ==> PassesOn(l0, job.source, env.parentOK, env.saved1)))
      && (job.Id() !in after && !kept ==> after == Remove(l0, job.Id()))
      && (job.Id() !in after && kept ==> Promoted(Unlocked(l0, job.Id()), after, job.source))
      && (job.Id() in after ==> after == StillThere(l0, job, keep, env))
  {
    SourceName(l0, job);
    if keep && l0[job.Id()].active {
      if env.Undefines() {
        DepartedActive(l0, job, env);
      }
    } else if env.Undefines() {
      DepartedCleanly(l0, job, keep, env);
    }
  }

  /** A source that could not be deleted. */
  ghost function StillThere(l0: Entries, job: Job, keep: bool, env: DeleteEnv): Entries {
    var unlocked := Unlocked(SourceOff(l0, job, keep), job.Id());
    if env.Undefines() && MayHaveFlag(l0, job.source, env.parentOK)
    then Activate(unlocked, job.source.name, Highest(l0, job.source.name, job.source.revision))
    else unlocked
  }

  lemma DepartedActive(l0: Entries, job: Job, env: DeleteEnv)
    requires Inv(l0) && Valid(job.source) && job.Id() in l0 && l0[job.Id()].active && env.Undefines()
    ensures var after := Departed(l0, job, true, env);
      if PassesOn(l0, job.source, env.parentOK, env.saved1)
      then job.Id() !in after && Promoted(Unlocked(l0, job.Id()), after, job.source)
      else job.Id() in after && after == StillThere(l0, job, true, env)
  {
    SourceName(l0, job);
    PassesOnIff(l0, job.source, env.parentOK, env.saved1);
    if PassesOn(l0, job.source, env.parentOK, env.saved1) {
      UnlockedKeepsInv(l0, job.Id());
      PromotedWithout(Unlocked(l0, job.Id()), job.source, env);
    }
  }

  lemma PromotedWithout(on: Entries, name: VMName, env: DeleteEnv)
    requires Inv(on) && name.ID() in on && on[name.ID()].active && on[name.ID()].name.name == name.name
    requires Deleted(on, name, env.parentOK, env.saved1, true).ok
    ensures var after := Deleted(on, name, env.parentOK, env.saved1, env.saved2).db;
      name.ID() !in after && Promoted(on, after, name)
  {
    PromotedOnDelete(on, name);
  }

  /** The deletion gets as far as the removal exactly if the flag is passed on. */
  lemma PassesOnIff(l0: Entries, name: VMName, parentOK: bool, saved: bool)
    requires Inv(l0) && Valid(name) && name.ID() in l0 && l0[name.ID()].name == name && l0[name.ID()].active
    ensures var unlocked := Unlocked(l0, name.ID());
      var done := Deleted(unlocked, name, parentOK, saved, true);
      && (done.ok <==> PassesOn(l0, name, parentOK, saved))
      && (!done.ok ==> name.ID() in done.db && done.db == if MayHaveFlag(l0, name, parentOK)
            then Activate(unlocked, name.name, Highest(l0, name.name, name.revision)) else unlocked)
      && forall again :: done.ok || Deleted(unlocked, name, parentOK, saved, again).db == done.db
  {
    var unlocked := Unlocked(l0, name.ID());
    HighestIsRevision(unlocked, name.name, name.revision);
    SameHighest(l0, unlocked, name.name, name.revision);
    if HasRevision(l0, name.name, name.revision) {
      MayHaveFlagIff(l0, name, parentOK);
    }
  }

  /** The destination holds the VM with the source's former active and lock status. */
  lemma ArrivedMeaning(l0: Entries, r0: Entries, job: Job)
    requires JobOK(l0, r0, job) && job.Id() in l0
    ensures var r, e := Arrived(l0, r0, job), l0[job.Id()];
      && job.NewId() in r && r[job.NewId()].active == e.active && r[job.NewId()].vm.locked == e.vm.locked
      && r.Keys == r0.Keys + {job.NewId()} && job.NewId() !in r0
      && forall x | x in r0 && r[x] != r0[x] ::
           e.active && r0[x].name.name == job.source.name && r[x] == r0[x].(active := false)
  {
    NewIsFree(l0, r0, job);
    var on := Activate(CreatedOn(r0, job), job.source.name, job.replacement.revision);
    forall x | x in r0 && r0[x].name.name == job.source.name ensures !on[x].active {
      assert EntryOK(r0[x]);
      assert HasRevision(r0, job.source.name, REVISION_NONE);
    }
  }

  /** A failed migration leaves both databases as found, exactly in these cases. */
  lemma AsFoundIff(l0: Entries, r0: Entries, l: Entries, r: Entries, defers: seq<Undo>, job: Job, keep: bool,
                   stage: Stage)
    requires JobOK(l0, r0, job) && stage != Done && Stopped(l0, r0, l, r, defers, job, keep, stage)
    ensures LocalLeft(l0, job, stage) == l0 && RemoteLeft(r0, job, stage) == r0 <==>
      stage == Refused || stage == Working || (stage == Activating && FlagWithTop(r0, job.source.name))
  {
    NewIsFree(l0, r0, job);
    match stage
    case Deactivating =>
      SourceOffDiffers(l0, job);
    case Activating =>
      HandedDownOn(r0, job);
      ActivatingIff(r0, job);
    case _ =>
  }

  /** What a failed migration leaves on both servers: all as found, unless the flags of the source could not
      be saved, the destination could not be told to delete the VM, or it had activated it, in which case
      its flag may have moved (`AsFoundIff`). */
  lemma LeftMeaning(l0: Entries, r0: Entries, job: Job, stage: Stage)
    requires JobOK(l0, r0, job) && job.Id() in l0
    ensures var l, r := LocalLeft(l0, job, stage), RemoteLeft(r0, job, stage);
      && (stage == Deactivating ==> l.Keys == l0.Keys && forall x | x in l0 ::
            l[x] == if l0[x].name.name == job.source.name then l0[x].(active := false) else l0[x])
      && (stage != Deactivating ==> l == l0)
      && (stage == Forgotten ==>
            r.Keys == r0.Keys + {job.NewId()} && job.NewId() !in r0 && r[job.NewId()].name == job.replacement
            && r[job.NewId()].vm == job.vm && !r[job.NewId()].active && forall x | x in r0 :: r[x] == r0[x])
      && (stage != Forgotten && stage != Activating ==> r == r0)
  {
    NewIsFree(l0, r0, job);
    if stage == Deactivating {
      FlagsOff(l0, job.source.name);
    }
  }

  lemma FlagsOff(db: Entries, name: string)
    requires KeysAreIds(db)
    ensures forall x | x in db ::
      Activate(db, name, REVISION_NONE)[x] == if db[x].name.name == name then db[x].(active := false) else db[x]
  {
    assert forall x | x in db :: EntryOK(db[x]);
  }

  /** A highest revision that was active takes its flag back. */
  lemma TopTakesBack(before: Entries, on: Entries, name: VMName)
    requires Inv(before) && SwitchedOn(before, on, name) && FlagWithTop(before, name.name)
    ensures Deleted(on, name, true, true, true).ok
  {
    if HasRevision(on, name.name, name.revision) {
      var h := HeirWasActive(before, on, name);
      HeirTakesBack(before, on, name, h);
    }
  }

  lemma HeirTakesBack(before: Entries, on: Entries, name: VMName, h: string)
    requires Inv(before) && SwitchedOn(before, on, name)
    requires h in before && before[h].active && before[h].name.name == name.name
    requires h == VMName(name.name, Highest(on, name.name, name.revision)).ID()
    ensures Deleted(on, name, true, true, true).ok
  {
    ActiveHasNoConflict(before, on, h);
  }

  lemma HeirWasActive(before: Entries, on: Entries, name: VMName) returns (h: string)
    requires KeysAreIds(before) && SwitchedOn(before, on, name) && HasRevision(on, name.name, name.revision)
    requires FlagWithTop(before, name.name)
    ensures h in before && before[h].active && before[h].name.name == name.name
    ensures h == VMName(name.name, Highest(on, name.name, name.revision)).ID()
  {
    var heir := Highest(on, name.name, name.revision);
    h :| h in on && on[h].name.name == name.name && on[h].name.revision == heir && heir != name.revision;
    assert before[h].name == VMName(name.name, heir);
    OtherRevisions(before, on, name);
    assert IsTop(before, name.name, h);
  }

  lemma OtherRevisions(before: Entries, on: Entries, name: VMName)
    requires KeysAreIds(before) && SwitchedOn(before, on, name) && HasRevision(on, name.name, name.revision)
    ensures forall y | y in before && before[y].name.name == name.name ::
      on[y].name.revision <= Highest(on, name.name, name.revision)
  {
    forall y | y in before && before[y].name.name == name.name
      ensures on[y].name.revision <= Highest(on, name.name, name.revision)
    {
      assert before[y].name != name;
    }
  }

  lemma SourceOffDiffers(l0: Entries, job: Job)
    requires Inv(l0) && Valid(job.source) && job.Id() in l0 && l0[job.Id()].active
    ensures Activate(l0, job.source.name, REVISION_NONE) != l0
  {
    SourceName(l0, job);
    assert ActiveOf(l0, job.source.name, job.Id());
    ActivateNothing(l0, job.source.name);
  }

  ghost predicate CanDiscard(r0: Entries, job: Job) {
    Deleted(Unlocked(Activate(CreatedOn(r0, job), job.source.name, job.replacement.revision), job.NewId()),
      job.replacement,
      true, true, true).ok
  }

  lemma HandedDownOn(r0: Entries, job: Job)
    requires Inv(r0) && job.NewId() !in r0 && EntryOK(Entry(job.replacement, job.vm, true))
    requires job.replacement.name == job.source.name
    requires CanActivate(CreatedOn(r0, job), job.source.name, job.replacement.revision, true)
    ensures CanDiscard(r0, job) ==> HandedDown(r0, RemoteLeft(r0, job, Activating), job.source.name)
  {
    if CanDiscard(r0, job) {
      DiscardedActive(r0, CreatedOn(r0, job), job.replacement, job.vm);
    }
  }

  lemma TopLetsDiscard(r0: Entries, job: Job)
    requires Inv(r0) && Valid(job.replacement) && job.replacement.name == job.source.name && job.NewId() !in r0
    requires FlagWithTop(r0, job.source.name)
    ensures CanDiscard(r0, job)
  {
    CreatedThenOn(r0, CreatedOn(r0, job), job.replacement, job.vm);
    TopTakesBack(r0, Unlocked(Activate(CreatedOn(r0, job), job.source.name, job.replacement.revision), job.NewId()),
      job.replacement);
  }

  lemma ActivatingIff(r0: Entries, job: Job)
    requires Inv(r0) && Valid(job.replacement) && job.replacement.name == job.source.name && job.NewId() !in r0
    requires CanDiscard(r0, job) ==> HandedDown(r0, RemoteLeft(r0, job, Activating), job.source.name)
    ensures RemoteLeft(r0, job, Activating) == r0 <==> FlagWithTop(r0, job.source.name)
  {
    if CanDiscard(r0, job) {
      HandedDownIff(r0, RemoteLeft(r0, job, Activating), job.source.name);
    } else {
      NewStays(r0, job);
      if FlagWithTop(r0, job.source.name) {
        TopLetsDiscard(r0, job);
      }
    }
  }

  lemma NewStays(r0: Entries, job: Job)
    requires !CanDiscard(r0, job) && job.NewId() !in r0
    ensures RemoteLeft(r0, job, Activating) != r0
  {
    NotDiscarded(Activate(CreatedOn(r0, job), job.source.name, job.replacement.revision), job.replacement);
  }

  lemma NotDiscarded(db: Entries, name: VMName)
    requires name.ID() in db && !Deleted(Unlocked(db, name.ID()), name, true, true, true).ok
    ensures name.ID() in Discarded(db, name)
  {
  }
}
