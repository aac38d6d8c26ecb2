/** Backups, deletions and locks of the VMs of one mulchd. */
module Daemons {
  import opened Results
  import opened VMNames
  import opened VMRegistry
  import NewVMs

  /** Whether each step of a backup succeeds; `undone` tells of its compensation. */
  datatype BackupEnv = BackupEnv(running: bool, keyOK: bool, created: bool, filled: bool, resized: bool,
                                 attachOK: bool, preOK: bool, postOK: bool,
                                 scriptsOK: bool, detachOK: bool, compressOK: bool, undone: bool)
  {
    /** The compensation gets registered. */
    predicate Registered() {
      filled && resized && attachOK && preOK && postOK
    }
  }

  /** A backup of a VM gets as far as creating its volume. */
  predicate CreatesVolume(vm: VM, backups: set<string>, volumes: set<string>, volume: string, env: BackupEnv) {
    && vm.wip == NoOperation && env.running && vm.config.hasBackup
    && volume !in backups && env.keyOK && env.created && volume !in volumes
  }

  predicate TakesBackup(vm: VM, backups: set<string>, volumes: set<string>, volume: string, env: BackupEnv) {
    && CreatesVolume(vm, backups, volumes, volume, env)
    && env.Registered() && env.scriptsOK && env.detachOK && env.compressOK
  }

  /** It stops between the creation of the volume, which is then filled, resized and attached, and the
      registration of its compensation. */
  predicate LeaksVolume(vm: VM, backups: set<string>, volumes: set<string>, volume: string, env: BackupEnv) {
    CreatesVolume(vm, backups, volumes, volume, env) && !env.Registered()
  }

  /** A backup that fails leaves no volume behind. */
  predicate VolumeSafe(vm: VM, backups: set<string>, volumes: set<string>, volume: string, env: BackupEnv) {
    env.undone && !LeaksVolume(vm, backups, volumes, volume, env)
  }

  /** Whether each step of a deletion succeeds, in order: finding the domain and stopping it, deleting its
      disk, undefining the domain; then the check with the proxy-chain parent and the two saves of the
      database, and the rebuild of the DHCP hosts. */
  datatype DeleteEnv = DeleteEnv(stopped: bool, diskDeleted: bool, undefined: bool, parentOK: bool, saved1: bool,
                                 saved2: bool, rebuilt: bool)
  {
    /** The disk goes. */
    predicate Empties() {
      stopped && diskDeleted
    }

    /** The domain goes as well, and the database is reached. */
    predicate Undefines() {
      Empties() && undefined
    }

    /** Nothing fails for a VM that is not active. */
    predicate Removes() {
      Undefines() && saved2 && rebuilt
    }

    predicate Fine() {
      Removes() && parentOK && saved1
    }
  }

  /** A deletion gets past its first checks. */
  predicate MayDelete(db: Entries, id: string) {
    id in db && !db[id].vm.locked
  }

  class Daemon {
    const server: NewVMs.Server
    var backups: set<string>
    var volumes: set<string>

    constructor (server: NewVMs.Server)
      ensures this.server == server && backups == {} && volumes == {}
    {
      this.server, backups, volumes := server, {}, {};
    }

    // -- backups ------------------------------------------------------------

    method SetOperation(id: string, op: Operation)
      requires id in server.db
      modifies server`db
      ensures server.db == old(server.db)[id := old(server.db)[id].(vm := old(server.db)[id].vm.(wip := op))]
    {
      var e := server.db[id];
      server.db := server.db[id := e.(vm := e.vm.(wip := op))];
    }

    /** VMBackup: the operation in progress is always reset; a failure leaves the volume behind exactly
        when the compensation was not registered yet. */
    method VMBackup(id: string, volume: string, env: BackupEnv) returns (r: Option<string>)
      modifies this, server`db
      ensures server.db == old(server.db)
      ensures var creates := id in server.db && server.db[id].vm.wip == NoOperation && env.running
          && server.db[id].vm.config.hasBackup && volume !in old(backups) && env.keyOK && env.created
          && volume !in old(volumes);
        var registered := env.filled && env.resized && env.attachOK && env.preOK && env.postOK;
        var completes := creates && registered && env.scriptsOK && env.detachOK && env.compressOK;
        && r == (if completes then Some(volume) else None)
        && backups == (if completes then old(backups) + {volume} else old(backups))
        && volumes == (if completes || (creates && !(registered && env.undone)) then old(volumes) + {volume}
                       else old(volumes))
    {
      if id !in server.db || server.db[id].vm.wip != NoOperation {
        return None;
      }
      ghost var before := server.db;
      SetOperation(id, BackupInProgress);
      r := BackupSteps(id, volume, env);
      SetOperation(id, NoOperation);
      assert server.db[id] == before[id];
      assert server.db == before;
    }

    method BackupSteps(id: string, volume: string, env: BackupEnv) returns (r: Option<string>)
      requires id in server.db
      modifies this
      ensures var creates := env.running && server.db[id].vm.config.hasBackup && volume !in old(backups)
          && env.keyOK && env.created && volume !in old(volumes);
        var completes := env.Registered() && env.scriptsOK && env.detachOK && env.compressOK;
        && r == (if creates && completes then Some(volume) else None)
        && backups == (if r.Some? then old(backups) + {volume} else old(backups))
        && (r.Some? ==> volumes == old(volumes) + {volume})
        && (r.None? && creates && !(env.Registered() && env.undone) ==> volumes == old(volumes) + {volume})
        && (r.None? && !(creates && !(env.Registered() && env.undone)) ==> volumes == old(volumes))
    {
      if !env.running || !server.db[id].vm.config.hasBackup || volume in backups || !env.keyOK {
        return None;
      }
      if !env.created || volume in volumes {
        return None;
      }
      volumes := volumes + {volume};
      if !env.filled || !env.resized {
        return None;
      }
      if !env.attachOK || !env.preOK || !env.postOK {
        return None;
      }
      var commit := env.scriptsOK && env.detachOK && env.compressOK;
      if commit {
        backups := backups + {volume};
      } else if env.undone {
        volumes := volumes - {volume};
      }
      return if commit then Some(volume) else None;
    }

    /** Deletes a transient backup from the database and, if that succeeded, from storage. */
    method DropBackup(volume: string, saved: bool, deleted: bool)
      modifies this
      ensures backups == old(backups) - {volume}
      ensures volumes == if volume in old(backups) && saved && deleted then old(volumes) - {volume} else old(volumes)
    {
      var found := volume in backups;
      backups := backups - {volume};
      if found && saved && deleted {
        volumes := volumes - {volume};
      }
    }

    /** VMRestoreNoChecks, on a VM that exists: only the operation in progress changes meanwhile. */
    method VMRestore(id: string, scriptsOK: bool) returns (ok: bool)
      requires id in server.db
      modifies server`db
      ensures server.db == old(server.db)[id := old(server.db)[id].(vm := old(server.db)[id].vm.(wip := NoOperation))]
      ensures ok <==> scriptsOK && old(server.db)[id].vm.config.hasRestore
    {
      SetOperation(id, RestoreInProgress);
      ok := server.db[id].vm.config.hasRestore && scriptsOK;
      SetOperation(id, NoOperation);
    }

    // -- locks and deletions ------------------------------------------------

    /** VMLockUnlock; whether the save succeeds goes unnoticed. */
    method VMLockUnlock(id: string, locked: bool) returns (ok: bool)
      modifies server`db
      ensures ok <==> id in old(server.db)
      ensures !ok ==> server.db == old(server.db)
      ensures ok ==> var e := old(server.db)[id]; server.db == old(server.db)[id := e.(vm := e.vm.(locked := locked))]
    {
      if id !in server.db {
        return false;
      }
      var e := server.db[id];
      server.db := server.db[id := e.(vm := e.vm.(locked := locked))];
      return true;
    }

    /** VMDelete, which takes nothing back when it fails: the disk goes first, then the domain, and then the
        entry, if the flag of an active one can be handed over. */
    method VMDelete(name: VMName, env: DeleteEnv) returns (ok: bool)
      requires KeysAreIds(server.db)
      modifies server`db, server`disks, server`domains
      ensures var id := name.ID();
        var empties := id in old(server.db) && !old(server.db)[id].vm.locked && env.stopped && env.diskDeleted;
        var undefines := empties && env.undefined;
        var deleted := Deleted(old(server.db), name, env.parentOK, env.saved1, env.saved2);
        && (ok <==> undefines && deleted.ok && env.rebuilt)
        && server.db == (if undefines then deleted.db else old(server.db))
        && server.disks == (if empties then old(server.disks) - {id + ".qcow2"} else old(server.disks))
        && server.domains == (if undefines then old(server.domains) - {server.libvirt.prefix + id}
                              else old(server.domains))
    {
      var id := name.ID();
      if id !in server.db || server.db[id].vm.locked || !env.stopped || !env.diskDeleted {
        return false;
      }
      server.disks := server.disks - {id + ".qcow2"};
      if !env.undefined {
        return false;
      }
      server.domains := server.domains - {server.libvirt.prefix + id};
      var deleted := DeleteEntry(server.db, name, env.parentOK, env.saved1, env.saved2);
      server.db := deleted.db;
      return deleted.ok && env.rebuilt;
    }
  }

  /** Delete, on the entries of the database. */
  method DeleteEntry(db: Entries, name: VMName, parentOK: bool, saved1: bool, saved2: bool) returns (o: Outcome)
    requires KeysAreIds(db)
    ensures o == Deleted(db, name, parentOK, saved1, saved2)
  {
    var id := name.ID();
    if id !in db {
      return Outcome(db, false);
    }
    var e := db[id];
    var rest := db;
    if e.active {
      var heir := FindHighest(db, e.name.name, e.name.revision);
      if heir >= 0 {
        var handed := Activated(db, e.name.name, heir, parentOK, saved1);
        if !handed.ok {
          return handed;
        }
        rest := handed.db;
      }
    }
    return Outcome(Remove(rest, id), saved2);
  }
}
