/** What the compensations of a rebuild or of a migration do to the VM database. */
module Rollbacks {
  import opened VMNames
  import opened VMRegistry

  /** Compensations, in the order they are registered. */
  datatype Undo = DeleteNew | Reactivate | DropBackup

  /** The VM that is replaced, and the one that replaces it: two revisions of one name. */
  datatype Job = Job(source: VMName, replacement: VMName) {
    function Id(): string {
      source.ID()
    }

    function NewId(): string {
      replacement.ID()
    }
  }

  /** A compensation that finds the disk and the proxy-chain parent ready. */
  ghost function Compensated(db: Entries, u: Undo, job: Job): Entries {
    match u
    case DeleteNew =>
      if job.NewId() in db && db[job.NewId()].vm.locked then db else Deleted(db, job.replacement, true, true, true).db
    case Reactivate => Activated(db, job.source.name, job.source.revision, true, true).db
    case DropBackup => db
  }

  /** Last in, first out. */
  ghost function Unwound(db: Entries, defers: seq<Undo>, job: Job): Entries
    decreases |defers|
  {
    if defers == [] then db
    else Unwound(Compensated(db, defers[|defers| - 1], job), defers[..|defers| - 1], job)
  }

  /** The new revision is in the database, not active yet. */
  ghost predicate Started(before: Entries, db: Entries, job: Job, vm: VM) {
    && Valid(job.source) && Valid(job.replacement)
    && job.Id() in before && before[job.Id()].name == job.source
    && job.replacement.name == job.source.name && job.replacement.revision != job.source.revision
    && job.NewId() !in before && EntryOK(Entry(job.replacement, vm, false)) && !vm.locked
    && db == before[job.NewId() := Entry(job.replacement, vm, false)]
  }

  function Unlock(db: Entries, id: string, unlocked: bool): Entries
    requires id in db
  {
    if unlocked then db[id := db[id].(vm := db[id].vm.(locked := false))] else db
  }

  lemma IdsApart(job: Job)
    requires Valid(job.source) && Valid(job.replacement) && job.source != job.replacement
    ensures job.Id() != job.NewId()
  {
    if job.Id() == job.NewId() {
      IdInjective(job.source, job.replacement);
    }
  }

  lemma DeletedInactive(db: Entries, name: VMName, parentOK: bool, saved1: bool, saved2: bool)
    requires name.ID() in db && !db[name.ID()].active
    ensures Deleted(db, name, parentOK, saved1, saved2) == Outcome(Remove(db, name.ID()), saved2)
  {
  }

  /** The same entries but for active flags of this name. */
  ghost predicate SameButFlags(a: Entries, b: Entries, name: string) {
    a.Keys == b.Keys && forall x | x in a ::
      b[x] == a[x].(active := b[x].active) && (a[x].name.name != name ==> b[x] == a[x])
  }

  /** Whatever flags of the name were changed, re-activating the source puts them all back. */
  lemma ReactivateRestores(before: Entries, started: Entries, db: Entries, job: Job, vm: VM, unlocked: bool)
    requires Inv(before)
    requires Started(before, started, job, vm) && before[job.Id()].active
    requires SameButFlags(Unlock(started, job.Id(), unlocked), db, job.source.name)
    ensures Compensated(db, Reactivate, job) == Unlock(started, job.Id(), unlocked)
  {
    var target := Unlock(started, job.Id(), unlocked);
    IdsApart(job);
    OthersAsBefore(before, started, db, job, vm, unlocked);
    ActiveHasNoConflict(before, db, job.Id());
    assert db[job.Id()].vm.config == before[job.Id()].vm.config;
    var after := Activate(db, job.source.name, job.source.revision);
    forall x | x in db ensures after[x] == target[x] {
      FlagRestored(before, started, db, job, vm, unlocked, x);
    }
  }

  lemma OthersAsBefore(before: Entries, started: Entries, db: Entries, job: Job, vm: VM, unlocked: bool)
    requires Started(before, started, job, vm)
    requires SameButFlags(Unlock(started, job.Id(), unlocked), db, job.source.name)
    ensures forall x | x in db && db[x].name.name != job.source.name :: x in before && db[x] == before[x]
  {
  }

  lemma FlagRestored(before: Entries, started: Entries, db: Entries, job: Job, vm: VM, unlocked: bool, x: string)
    requires KeysAreIds(before) && OneActive(before)
    requires Started(before, started, job, vm) && before[job.Id()].active && x in db
    requires SameButFlags(Unlock(started, job.Id(), unlocked), db, job.source.name)
    ensures Activate(db, job.source.name, job.source.revision)[x] == Unlock(started, job.Id(), unlocked)[x]
  {
    var target := Unlock(started, job.Id(), unlocked);
    assert x in target;
    if target[x].name.name == job.source.name && x != job.NewId() {
      assert EntryOK(before[x]) && target[x].name == before[x].name && target[x].active == before[x].active;
      SameRevisionSameKey(before, x);
      SameRevisionSameKey(before, job.Id());
    }
  }

  lemma DeleteNewRestores(before: Entries, started: Entries, job: Job, vm: VM, unlocked: bool)
    requires Started(before, started, job, vm)
    ensures Compensated(Unlock(started, job.Id(), unlocked), DeleteNew, job) == Unlock(before, job.Id(), unlocked)
  {
  }

  /** The compensations of an active source: the new VM is deleted last. */
  lemma UnwindActive(before: Entries, started: Entries, db: Entries, job: Job, vm: VM, unlocked: bool)
    requires Inv(before)
    requires Started(before, started, job, vm) && before[job.Id()].active
    requires SameButFlags(Unlock(started, job.Id(), unlocked), db, job.source.name)
    ensures Unwound(db, [DeleteNew, Reactivate], job) == Unlock(before, job.Id(), unlocked)
  {
    ReactivateRestores(before, started, db, job, vm, unlocked);
    DeleteNewRestores(before, started, job, vm, unlocked);
    var mid := Unlock(started, job.Id(), unlocked);
    assert [DeleteNew, Reactivate][..1] == [DeleteNew] && [DeleteNew][..0] == [];
    assert Unwound(mid, [DeleteNew], job) == Unwound(Compensated(mid, DeleteNew, job), [], job);
  }

  /** If the source was not locked, all is as it was. */
  lemma UnwindRestores(before: Entries, started: Entries, db: Entries, job: Job, vm: VM)
    requires Inv(before)
    requires Started(before, started, job, vm) && before[job.Id()].active && !before[job.Id()].vm.locked
    requires SameButFlags(Unlock(started, job.Id(), true), db, job.source.name)
    ensures Unwound(db, [DeleteNew, Reactivate], job) == before
  {
    UnwindActive(before, started, db, job, vm, true);
    assert Unlock(before, job.Id(), true) == before;
  }

  lemma UnwindInactive(before: Entries, started: Entries, job: Job, vm: VM, unlocked: bool)
    requires Started(before, started, job, vm)
    ensures Unwound(Unlock(started, job.Id(), unlocked), [DeleteNew], job) == Unlock(before, job.Id(), unlocked)
  {
    DeleteNewRestores(before, started, job, vm, unlocked);
    assert [DeleteNew][..0] == [];
  }

  /** When deactivating the source fails at the save, its re-activation is not registered yet. */
  lemma UnwindDeactivated(before: Entries, started: Entries, job: Job, vm: VM)
    requires Started(before, started, job, vm) && before[job.Id()].active
    ensures var name := job.source.name;
      Unwound(Activate(started, name, REVISION_NONE), [DeleteNew], job) == Activate(before, name, REVISION_NONE)
  {
  }

  lemma UnwindBackup(db: Entries, defers: seq<Undo>, job: Job)
    ensures Unwound(db, defers + [DropBackup], job) == Unwound(db, defers, job)
  {
  }

  /** The other order would not do: deleting the new revision while it is active first hands its
      flag to the highest other revision, and if that one may not be active, the new one stays. */
  lemma WrongOrder(db: Entries, job: Job)
    requires KeysAreIds(db) && job.NewId() in db && db[job.NewId()].active && db[job.NewId()].name == job.replacement
    requires !db[job.NewId()].vm.locked
    requires HasRevision(db, job.replacement.name, job.replacement.revision)
    requires !CanActivate(db, job.replacement.name, Highest(db, job.replacement.name, job.replacement.revision), true)
    ensures job.NewId() in Compensated(Compensated(db, DeleteNew, job), Reactivate, job)
  {
  }

  // -- success --------------------------------------------------------------

  /** The source is replaced by one fresh revision; all other entries are untouched. */
  function Replaced(before: Entries, job: Job, vm: VM): Entries
    requires job.Id() in before
  {
    Remove(before, job.Id())[job.NewId() := Entry(job.replacement, vm, before[job.Id()].active)]
  }

  lemma ReplacedActive(before: Entries, started: Entries, job: Job, vm: VM, parentOK: bool, saved1: bool, saved2: bool)
    requires KeysAreIds(before) && OneActive(before)
    requires Started(before, started, job, vm) && before[job.Id()].active
    ensures var db := Unlock(Activate(started, job.replacement.name, job.replacement.revision), job.Id(), true);
      Deleted(db, job.source, parentOK, saved1, saved2) == Outcome(Replaced(before, job, vm), saved2)
  {
    var db := Unlock(Activate(started, job.replacement.name, job.replacement.revision), job.Id(), true);
    SourceOff(before, started, job, vm);
    DeletedInactive(db, job.source, parentOK, saved1, saved2);
    RemoveMoved(before, started, job, vm);
  }

  lemma SourceOff(before: Entries, started: Entries, job: Job, vm: VM)
    requires Started(before, started, job, vm)
    ensures !Activate(started, job.replacement.name, job.replacement.revision)[job.Id()].active
  {
  }

  lemma RemoveMoved(before: Entries, started: Entries, job: Job, vm: VM)
    requires KeysAreIds(before) && OneActive(before)
    requires Started(before, started, job, vm) && before[job.Id()].active
    ensures Remove(Unlock(Activate(started, job.replacement.name, job.replacement.revision), job.Id(), true), job.Id())
      == Replaced(before, job, vm)
  {
    IdsApart(job);
    var db, after := Activate(started, job.replacement.name, job.replacement.revision), Replaced(before, job, vm);
    SameKeysMoved(before, started, job, vm);
    forall x | x in after ensures db[x] == after[x] {
      FlagMoved(before, started, job, vm, x);
    }
    RemoveUnlocked(db, after, job.Id());
  }

  lemma SameKeysMoved(before: Entries, started: Entries, job: Job, vm: VM)
    requires Started(before, started, job, vm) && job.Id() != job.NewId()
    ensures job.Id() in started && Replaced(before, job, vm).Keys == started.Keys - {job.Id()}
  {
  }

  lemma RemoveUnlocked(db: Entries, after: Entries, id: string)
    requires id in db && after.Keys == db.Keys - {id} && forall x | x in after :: db[x] == after[x]
    ensures Remove(Unlock(db, id, true), id) == after
  {
  }

  lemma FlagMoved(before: Entries, started: Entries, job: Job, vm: VM, x: string)
    requires KeysAreIds(before) && OneActive(before)
    requires Started(before, started, job, vm) && before[job.Id()].active && x in started && x != job.Id()
    ensures Activate(started, job.replacement.name, job.replacement.revision)[x] == Replaced(before, job, vm)[x]
  {
  }

  lemma ReplacedInactive(before: Entries, started: Entries, job: Job, vm: VM, parentOK: bool, saved1: bool,
                         saved2: bool)
    requires Started(before, started, job, vm) && !before[job.Id()].active
    ensures Deleted(Unlock(started, job.Id(), true), job.source, parentOK, saved1, saved2)
      == Outcome(Replaced(before, job, vm), saved2)
  {
    IdsApart(job);
    DeletedInactive(Unlock(started, job.Id(), true), job.source, parentOK, saved1, saved2);
    RemoveOld(before, job.Id(), job.NewId(), Entry(job.replacement, vm, false));
  }

  lemma RemoveOld(before: Entries, id: string, newId: string, e: Entry)
    requires id in before && newId !in before
    ensures Remove(Unlock(before[newId := e], id, true), id) == Remove(before, id)[newId := e]
  {
  }
}
