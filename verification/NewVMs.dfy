/** The construction of a VM: a transaction over libvirt disks and domains, DHCP leases, the
    greenhouse and the VM database, undone by deferred compensations. */
module NewVMs {
  import opened Results
  import opened VMNames
  import opened VMRegistry
  import opened PortJoin
  import opened DhcpHosts
  import opened DhcpRuns
  import opened DhcpFailures
  import LeaseLives

  /** The answers of everything outside: each field tells whether a step succeeds. */
  datatype BuildEnv = BuildEnv(
    ready: bool,        // UUID, connection, no such domain in libvirt
    mac: string,
    ip: Option<string>, // the choice of an IP
    seeded: bool,       // the seed exists and is ready
    parentOK: bool,     // proxy-chain parent, at the first check
    checked: bool,      // secrets, backup to restore, SSH key
    leased: Rebuilding,
    diskCreated: bool, diskFilled: bool, resizeOK: bool, templateOK: bool, defineOK: bool,
    booted: bool, prepareOK: bool, actionsOK: bool, installOK: bool,
    forceDelete: bool,
    parentStillOK: bool, saved: bool,
    undoDomainOK: bool, undoDiskOK: bool,
    unleased: Rebuilding)

  /** Compensations, in the order they are registered. */
  datatype Undo = DropGreenhouse | DropLease | DropDisk | DropDomain

  const ALL: seq<Undo> := [DropGreenhouse, DropLease, DropDisk, DropDomain]

  /** What the construction changes, apart from the VM database. */
  datatype World = World(greenhouse: Entries, leases: Leases, disks: set<string>, domains: set<string>)

  /** What is being built. */
  datatype Plan = Plan(name: VMName, vm: VM, pointer: nat, prefix: string) {
    function Id(): string {
      name.ID()
    }

    function Disk(): string {
      name.ID() + ".qcow2"
    }

    function Domain(): string {
      prefix + name.ID()
    }

    function Lease(): Host {
      LeaseFor(name.ID(), Machine(vm.mac, vm.ip), prefix)
    }
  }

  /** The step after which a compensation is registered. */
  function Do(w: World, u: Undo, p: Plan): World {
    match u
    case DropGreenhouse =>
      if p.Id() in w.greenhouse then w else w.(greenhouse := w.greenhouse[p.Id() := Entry(p.name, p.vm, false)])
    case DropLease => w.(leases := w.leases[p.pointer := p.Lease()])
    case DropDisk => w.(disks := w.disks + {p.Disk()})
    case DropDomain => w.(domains := w.domains + {p.Domain()})
  }

  /** What is there once a number of steps are done: the VM in the greenhouse, if its name is free there;
      its lease; its disk; its domain. */
  lemma {:induction false} DoneMeaning(w: World, defers: seq<Undo>, p: Plan)
    requires defers <= ALL
    ensures var v, n := DoAll(w, defers, p), |defers|;
      && v.greenhouse == (if n < 1 || p.name.ID() in w.greenhouse then w.greenhouse
                          else w.greenhouse[p.name.ID() := Entry(p.name, p.vm, false)])
      && v.leases == (if n < 2 then w.leases
                      else w.leases[p.pointer := Host(p.prefix + p.name.ID(), p.vm.mac, p.vm.ip)])
      && v.disks == (if n < 3 then w.disks else w.disks + {p.name.ID() + ".qcow2"})
      && v.domains == (if n < 4 then w.domains else w.domains + {p.prefix + p.name.ID()})
  {
    if defers != [] {
      var n := |defers| - 1;
      assert defers[n] == ALL[n] && defers[..n] <= ALL;
      DoneMeaning(w, defers[..n], p);
    }
  }

  function Without(leases: Leases, pointer: nat): Leases {
    map x | x in leases && x != pointer :: leases[x]
  }

  /** A compensation; once committed, the disk and the domain are kept. */
  function Compensate(w: World, u: Undo, p: Plan, commit: bool): World {
    match u
    case DropGreenhouse => w.(greenhouse := VMRegistry.Remove(w.greenhouse, p.Id()))
    case DropLease => w.(leases := Without(w.leases, p.pointer))
    case DropDisk => if commit then w else w.(disks := w.disks - {p.Disk()})
    case DropDomain => if commit then w else w.(domains := w.domains - {p.Domain()})
  }

  function DoAll(w: World, defers: seq<Undo>, p: Plan): World {
    if defers == [] then w else Do(DoAll(w, defers[..|defers| - 1], p), defers[|defers| - 1], p)
  }

  /** Last in, first out. */
  function Unwound(w: World, defers: seq<Undo>, p: Plan, commit: bool): World
    decreases |defers|
  {
    if defers == [] then w
    else Unwound(Compensate(w, defers[|defers| - 1], p, commit), defers[..|defers| - 1], p, commit)
  }

  /** What the first `n` steps create was not there. */
  predicate Unused(w: World, p: Plan, n: nat) {
    (n > 1 ==> p.pointer !in w.leases) && (n > 2 ==> p.Disk() !in w.disks) && (n > 3 ==> p.Domain() !in w.domains)
  }

  lemma {:induction false} DoneUntouched(w: World, defers: seq<Undo>, p: Plan)
    requires defers <= ALL
    ensures var v := DoAll(w, defers, p);
      && (|defers| <= 1 ==> v.leases == w.leases) && (|defers| <= 2 ==> v.disks == w.disks)
      && (|defers| <= 3 ==> v.domains == w.domains) && (|defers| == 0 ==> v.greenhouse == w.greenhouse)
  {
    if defers != [] {
      DoneUntouched(w, defers[..|defers| - 1], p);
    }
  }

  /** What must be unused for a compensation to take back its step. */
  predicate Absent(w: World, u: Undo, p: Plan) {
    match u
    case DropGreenhouse => p.Id() !in w.greenhouse
    case DropLease => p.pointer !in w.leases
    case DropDisk => p.Disk() !in w.disks
    case DropDomain => p.Domain() !in w.domains
  }

  lemma CompensateStep(w: World, u: Undo, p: Plan)
    requires Absent(w, u, p)
    ensures Compensate(Do(w, u, p), u, p, false) == w
  {
  }

  lemma StillAbsent(w: World, defers: seq<Undo>, p: Plan)
    requires defers <= ALL && |defers| > 1 && Unused(w, p, |defers|)
    ensures Absent(DoAll(w, defers[..|defers| - 1], p), defers[|defers| - 1], p)
  {
    var n := |defers| - 1;
    assert defers[n] == ALL[n];
    DoneUntouched(w, defers[..n], p);
  }

  /** The compensations of the steps that were registered leave all as found, except that they take
      the name out of the greenhouse: another VM of that name under construction loses its entry. */
  lemma {:induction false} RollbackRestores(w: World, defers: seq<Undo>, p: Plan)
    requires defers <= ALL && Unused(w, p, |defers|)
    ensures Unwound(DoAll(w, defers, p), defers, p, false)
      == w.(greenhouse := if defers == [] then w.greenhouse else VMRegistry.Remove(w.greenhouse, p.Id()))
  {
    if |defers| > 1 {
      StillAbsent(w, defers, p);
      CompensateStep(DoAll(w, defers[..|defers| - 1], p), defers[|defers| - 1], p);
      RollbackRestores(w, defers[..|defers| - 1], p);
    } else if |defers| == 1 {
      assert defers[0] == ALL[0] && defers[..0] == [];
      assert DoAll(w, [], p) == w;
      assert VMRegistry.Remove(Do(w, DropGreenhouse, p).greenhouse, p.Id()) == VMRegistry.Remove(w.greenhouse, p.Id());
    }
  }

  /** What has been done when the construction stops: a disk that was created but not filled is not
      registered for compensation. */
  function Done(w: World, defers: seq<Undo>, p: Plan, leaked: bool): World {
    var v := DoAll(w, defers, p);
    if leaked then v.(disks := v.disks + {p.Disk()}) else v
  }

  /** Where that may happen. */
  predicate MayLeak(w: World, defers: seq<Undo>, p: Plan) {
    defers == ALL[..2] && p.Disk() !in w.disks
  }

  lemma LeakStays(w: World, p: Plan, disks: set<string>)
    ensures Unwound(w.(disks := disks), ALL[..2], p, false) == Unwound(w, ALL[..2], p, false).(disks := disks)
  {
    UnwindTwo(w, p);
    UnwindTwo(w.(disks := disks), p);
  }

  lemma UnwindTwo(w: World, p: Plan)
    ensures Unwound(w, ALL[..2], p, false)
      == Compensate(Compensate(w, DropLease, p, false), DropGreenhouse, p, false)
  {
    var v := Compensate(w, DropLease, p, false);
    assert ALL[..2][..1] == ALL[..1] && ALL[..1][..0] == [];
    assert Unwound(v, ALL[..1], p, false) == Unwound(Compensate(v, DropGreenhouse, p, false), [], p, false);
  }

  /** What has been done is what has been registered, and possibly that disk. */
  ghost predicate StoppedAt(before: World, after: World, defers: seq<Undo>, p: Plan, leaked: bool) {
    && defers <= ALL && Unused(before, p, |defers|) && (leaked ==> MayLeak(before, defers, p))
    && after == Done(before, defers, p, leaked)
  }

  /** What a failed construction leaves. */
  function Left(w: World, started: bool, p: Plan, leaked: bool): World {
    w.(greenhouse := if started then VMRegistry.Remove(w.greenhouse, p.Id()) else w.greenhouse,
       disks := if leaked then w.disks + {p.Disk()} else w.disks)
  }

  lemma RollbackLeaves(w: World, defers: seq<Undo>, p: Plan, leaked: bool)
    requires defers <= ALL && Unused(w, p, |defers|) && (leaked ==> MayLeak(w, defers, p))
    ensures Unwound(Done(w, defers, p, leaked), defers, p, false) == Left(w, defers != [], p, leaked)
  {
    RollbackRestores(w, defers, p);
    if leaked {
      var v := DoAll(w, defers, p);
      DoneUntouched(w, defers, p);
      LeakStays(v, p, v.disks + {p.Disk()});
    }
  }

  /** All is as found if and only if no disk was left half-filled, and nothing was done yet or no VM of
      that name was under construction. */
  lemma RollbackIff(w: World, defers: seq<Undo>, p: Plan, leaked: bool)
    requires defers <= ALL && Unused(w, p, |defers|) && (leaked ==> MayLeak(w, defers, p))
    ensures Unwound(Done(w, defers, p, leaked), defers, p, false) == w <==>
      !leaked && (defers == [] || p.Id() !in w.greenhouse)
  {
    RollbackLeaves(w, defers, p, leaked);
    if p.Id() !in w.greenhouse {
      assert VMRegistry.Remove(w.greenhouse, p.Id()) == w.greenhouse;
    }
  }

  lemma {:induction false} LeasesDone(w: World, defers: seq<Undo>, p: Plan)
    requires defers <= ALL
    ensures DoAll(w, defers, p).leases == if |defers| > 1 then w.leases[p.pointer := p.Lease()] else w.leases
  {
    if |defers| > 2 {
      LeasesDone(w, defers[..|defers| - 1], p);
    } else if defers != [] {
      DoneUntouched(w, defers[..|defers| - 1], p);
      assert defers[|defers| - 1] == ALL[|defers| - 1];
    }
  }

  /** After a success, the disk and the domain are there, and nothing transient is. */
  lemma CommitKeeps(w: World, p: Plan)
    requires Unused(w, p, 4)
    ensures Unwound(DoAll(w, ALL, p), ALL, p, true)
      == World(VMRegistry.Remove(w.greenhouse, p.Id()), w.leases, w.disks + {p.Disk()}, w.domains + {p.Domain()})
  {
    var w1 := Do(w, DropGreenhouse, p);
    var w2 := Do(w1, DropLease, p);
    var w3 := Do(w2, DropDisk, p);
    var w4 := Do(w3, DropDomain, p);
    assert ALL[..3][..2] == ALL[..2] && ALL[..2][..1] == ALL[..1] && ALL[..1][..0] == [];
    assert DoAll(w, ALL[..1], p) == w1;
    assert DoAll(w, ALL[..2], p) == w2;
    assert DoAll(w, ALL[..3], p) == w3;
    var v1 := Compensate(w4, DropLease, p, true);
    var v2 := Compensate(v1, DropGreenhouse, p, true);
    assert Unwound(v1, ALL[..1], p, true) == v2;
    assert Unwound(w4, ALL[..2], p, true) == v2;
    assert Unwound(w4, ALL[..3], p, true) == v2;
    assert v1.leases == w.leases;
    assert v2.greenhouse == VMRegistry.Remove(w.greenhouse, p.Id());
  }

  function MachinesOf(db: Entries): Machines {
    map id | id in db :: Machine(db[id].vm.mac, db[id].vm.ip)
  }

  function NewMachine(config: Config, env: BuildEnv): VM {
    VM(config, false, NoOperation, env.mac, if env.ip.Some? then env.ip.value else "", "")
  }

  // -- what a construction leaves -------------------------------------------

  /** The database: with the new entry on success, and otherwise as found, except that an active VM
      whose last save fails takes the flag from the active revision of its name. */
  ghost predicate DatabaseAfter(before: Entries, after: Entries, p: Plan, active: bool, ok: bool, failedSave: bool) {
    && (ok ==> !failedSave && Outcome(after, true) == Added(before, p.vm, p.name, active, true, true))
    && (!ok && !failedSave ==> after == before)
    && (failedSave ==> Added(before, p.vm, p.name, active, true, true).ok)
    && (failedSave ==> Outcome(after, false) == Added(before, p.vm, p.name, active, true, false))
  }

  /** Greenhouse, leases, disks and domains. */
  ghost predicate WorldAfter(before: World, after: World, p: Plan, ok: bool, started: bool, leaked: bool) {
    if ok then
      && Unused(before, p, 4)
      && after == World(VMRegistry.Remove(before.greenhouse, p.Id()), before.leases,
                        before.disks + {p.Disk()}, before.domains + {p.Domain()})
    else after == Left(before, started, p, leaked)
  }

  /** The DHCP hosts, with any answers of libvirt to the two rebuilds; `leased` tells that the lease was
      registered. On success they are exact if and only if the first rebuild saw its result, or exactly
      one of the two added the host; otherwise they are as found if and only if the first one did
      nothing, or saw its result and the second one removed the host. While another VM of that name is
      under construction they stay as found, and suit the new VM only if that one has its MAC and IP. */
  ghost predicate NetworkAfter(before: Net, after: Net, p: Plan, ok: bool, leased: bool, env: BuildEnv) {
    DhcpRuns.Inv(before, p.prefix) ==>
      if !FreeName(before, p.Id(), p.prefix) then
        && after.live == before.live
        && (ok ==> (DhcpRuns.Inv(after, p.prefix) <==> Want(p.Lease(), before.machines, before.leases, p.prefix)))
      else if ok then
        && (Exact(after.live, after.machines, after.leases, p.prefix) <==>
              LeaseLives.Sees(env.leased) || LeaseLives.Makes(env.leased) != LeaseLives.Makes(env.unleased))
        && (LeaseLives.Sees(env.leased) && FreeIP(before, p.vm.ip) ==> DhcpRuns.Inv(after, p.prefix))
      else after.live == before.live <==>
        !leased || !LeaseLives.Makes(env.leased) || (LeaseLives.Sees(env.leased) && LeaseLives.Makes(env.unleased))
  }

  /** A failed construction leaves the database as found, unless it failed to save an active VM while
      another revision was active. */
  lemma DatabaseAsFoundIff(before: Entries, after: Entries, p: Plan, active: bool, failedSave: bool)
    requires VMRegistry.Inv(before) && DatabaseAfter(before, after, p, active, false, failedSave)
    ensures after == before <==> !failedSave || !active || !HasActive(before, p.name.name)
  {
    if failedSave {
      FailedAdd(before, p.vm, p.name, active, true);
    }
  }

  /** A successful one adds exactly one entry; at most the active flag of its name moves. */
  lemma OneMoreEntry(before: Entries, after: Entries, p: Plan, active: bool)
    requires VMRegistry.Inv(before) && DatabaseAfter(before, after, p, active, true, false)
    ensures p.Id() !in before && after.Keys == before.Keys + {p.Id()} && after[p.Id()] == Entry(p.name, p.vm, active)
    ensures forall x | x in before && after[x] != before[x] ::
      active && before[x].name.name == p.name.name && after[x] == before[x].(active := false)
  {
    assert forall x | x in before :: EntryOK(before[x]);
  }

  lemma SettleWorld(before: World, mid: World, after: World, defers: seq<Undo>, p: Plan, ok: bool, leaked: bool)
    requires StoppedAt(before, mid, defers, p, leaked) && (ok ==> defers == ALL)
    requires after == Unwound(mid, defers, p, ok)
    ensures WorldAfter(before, after, p, ok, defers != [], leaked)
  {
    if ok {
      CommitKeeps(before, p);
    } else {
      RollbackLeaves(before, defers, p, leaked);
    }
  }

  lemma StoppedLeases(before: World, after: World, defers: seq<Undo>, p: Plan, leaked: bool)
    requires StoppedAt(before, after, defers, p, leaked)
    ensures after.leases == if |defers| > 1 then before.leases[p.pointer := p.Lease()] else before.leases
    ensures |defers| > 1 ==> p.pointer !in before.leases
    ensures p.pointer !in before.leases && |defers| > 1 ==> Without(after.leases, p.pointer) == before.leases
  {
    LeasesDone(before, defers, p);
  }

  lemma NewMachines(before: Entries, after: Entries, p: Plan, active: bool, ok: bool, failedSave: bool)
    requires DatabaseAfter(before, after, p, active, ok, failedSave)
    ensures ok ==> p.Id() !in MachinesOf(before)
    ensures MachinesOf(after)
      == if ok then MachinesOf(before)[p.Id() := Machine(p.vm.mac, p.vm.ip)] else MachinesOf(before)
  {
  }

  /** The rebuild for a new lease, or for one taken back, happens exactly once that lease is registered. */
  ghost predicate Reconciled(before: Net, after: Net, p: Plan, leased: bool, answers: Rebuilding) {
    if leased then exists wanted, ok :: Tried(before, after, wanted, ok, answers, p.prefix)
    else after.live == before.live && after.cached == before.cached
  }

  lemma SettleNetwork(before: Net, mid: Net, after: Net, p: Plan, ok: bool, leased: bool, env: BuildEnv)
    requires Reconciled(before, mid.(machines := before.machines), p, leased, env.leased)
    requires Reconciled(mid, after, p, leased, env.unleased)
    requires p.pointer !in before.leases && (ok ==> leased && p.Id() !in before.machines)
    requires leased ==> mid.leases == before.leases[p.pointer := p.Lease()]
    requires mid.machines == if ok then before.machines[p.Id() := Machine(p.vm.mac, p.vm.ip)] else before.machines
    requires after.machines == mid.machines && after.leases == before.leases
    ensures NetworkAfter(before, after, p, ok, leased, env)
  {
    if leased && DhcpRuns.Inv(before, p.prefix) {
      var t := mid.(machines := before.machines);
      var w1, ok1 :| Tried(before, t, w1, ok1, env.leased, p.prefix);
      var w2, ok2 :| Tried(mid, after, w2, ok2, env.unleased, p.prefix);
      if ok {
        SettleKept(before, mid, after, p, w1, ok1, w2, ok2, env);
      } else {
        assert t == mid;
        LeaseLives.TakenBackIff(before, mid, after, p.pointer, p.Id(), Machine(p.vm.mac, p.vm.ip), w1, ok1, env.leased,
          w2, ok2, env.unleased, p.prefix);
      }
    }
  }

  lemma SettleKept(before: Net, mid: Net, after: Net, p: Plan, w1: seq<Host>, ok1: bool, w2: seq<Host>, ok2: bool,
                   env: BuildEnv)
    requires DhcpRuns.Inv(before, p.prefix) && p.Id() !in before.machines && p.pointer !in before.leases
    requires mid.leases == before.leases[p.pointer := p.Lease()]
    requires mid.machines == before.machines[p.Id() := Machine(p.vm.mac, p.vm.ip)]
    requires after.machines == mid.machines && after.leases == before.leases
    requires Tried(before, mid.(machines := before.machines), w1, ok1, env.leased, p.prefix)
    requires Tried(mid, after, w2, ok2, env.unleased, p.prefix)
    ensures NetworkAfter(before, after, p, true, true, env)
  {
    var t, m := mid.(machines := before.machines), Machine(p.vm.mac, p.vm.ip);
    LeaseLives.StaysIff(before, t, mid, after, p.pointer, p.Id(), m, w1, ok1, env.leased, w2, ok2, env.unleased,
      p.prefix);
    if FreeName(before, p.Id(), p.prefix) && LeaseLives.Sees(env.leased) && FreeIP(before, p.vm.ip) {
      LeaseLives.Begins(before, t, p.pointer, p.Id(), m, w1, ok1, env.leased, p.prefix);
      LeaseLives.StaysSeen(before, t, mid, after, p.pointer, p.Id(), m, p.prefix);
    }
  }

  /** Scripts may fail if the caller allows it and the VM is not to be deleted then. */
  predicate ScriptsOK(allowScriptFailure: bool, env: BuildEnv) {
    env.actionsOK && ((env.prepareOK && env.installOK) || (allowScriptFailure && !env.forceDelete))
  }

  predicate Starts(w: World, p: Plan, env: BuildEnv) {
    env.ready && p.Domain() !in w.domains && env.ip.Some?
  }

  predicate Reservable(db: Entries, p: Plan, active: bool, env: BuildEnv) {
    env.seeded && (active ==> !Conflict(db, p.vm.config, p.name.name) && env.parentOK) && env.checked
  }

  /** The lease gets registered. */
  predicate GetsLease(db: Entries, w: World, p: Plan, active: bool, env: BuildEnv) {
    Starts(w, p, env) && Reservable(db, p, active, env)
  }

  predicate Definable(disks: set<string>, p: Plan, env: BuildEnv) {
    env.diskCreated && p.Disk() !in disks && env.diskFilled && env.resizeOK && env.templateOK && env.defineOK
  }

  /** The disk is created, but the copy of the seed fails. */
  predicate HalfFilled(disks: set<string>, p: Plan, env: BuildEnv) {
    env.diskCreated && p.Disk() !in disks && !env.diskFilled
  }

  predicate LeaksDisk(db: Entries, w: World, p: Plan, active: bool, env: BuildEnv) {
    GetsLease(db, w, p, active, env) && HalfFilled(w.disks, p, env)
  }

  predicate Constructible(db: Entries, disks: set<string>, p: Plan, active: bool, allowScriptFailure: bool,
                          env: BuildEnv)
  {
    && Definable(disks, p, env) && env.booted && ScriptsOK(allowScriptFailure, env)
    && Added(db, p.vm, p.name, active, env.parentStillOK, true).ok
  }

  /** When a construction gets as far as the last save. */
  predicate Buildable(db: Entries, w: World, p: Plan, active: bool, allowScriptFailure: bool, env: BuildEnv) {
    GetsLease(db, w, p, active, env) && Constructible(db, w.disks, p, active, allowScriptFailure, env)
  }

  /** When a construction gets as far as the last save, and when it leaves a disk that it could not fill. */
  lemma BuildableMeaning(db: Entries, w: World, p: Plan, active: bool, allowScriptFailure: bool, env: BuildEnv)
    requires p.Id() !in db
    ensures var id := p.name.ID();
      var started := env.ready && p.prefix + id !in w.domains && env.ip.Some?;
      var leased := started && env.seeded && env.checked
        && (active ==> !Conflict(db, p.vm.config, p.name.name) && env.parentOK);
      var created := leased && env.diskCreated && id + ".qcow2" !in w.disks;
      var defined := created && env.diskFilled && env.resizeOK && env.templateOK && env.defineOK;
      var scripted := defined && env.booted && env.actionsOK
        && ((env.prepareOK && env.installOK) || (allowScriptFailure && !env.forceDelete));
      && (Buildable(db, w, p, active, allowScriptFailure, env) <==> scripted && (active ==> env.parentStillOK))
      && (LeaksDisk(db, w, p, active, env) <==> created && !env.diskFilled)
      && (GetsLease(db, w, p, active, env) <==> leased) && (Starts(w, p, env) <==> started)
  {
  }

  class Server {
    const libvirt: Libvirt
    var db: Entries
    var greenhouse: Entries
    var disks: set<string>
    var domains: set<string>
    /** Compensations registered so far; the last one will run first. */
    var defers: seq<Undo>

    constructor (libvirt: Libvirt)
      ensures this.libvirt == libvirt && db == map[] && greenhouse == map[] && disks == {} && domains == {}
      ensures defers == []
    {
      this.libvirt := libvirt;
      db, greenhouse, disks, domains, defers := map[], map[], {}, {}, [];
    }

    ghost function Network(): Net
      reads this`db, libvirt
    {
      Net(MachinesOf(db), libvirt.leases, libvirt.cached, libvirt.live)
    }

    ghost function Snapshot(): World
      reads this`greenhouse, this`disks, this`domains, libvirt
    {
      World(greenhouse, libvirt.leases, disks, domains)
    }

    /** NewVM. The revision is the next one of the name, and the lease is a new object; `failedSave`
        tells that only the very last step failed, to save the database. */
    method NewVM(config: Config, revision: nat, active: bool, allowScriptFailure: bool, pointer: nat, env: BuildEnv)
      returns (r: Option<VMName>, ghost p: Plan, ghost failedSave: bool)
      requires VMRegistry.Inv(db) && ConfigOK(config) && revision == Highest(db, config.name, REVISION_NONE) + 1
      requires defers == [] && pointer !in libvirt.leases
      modifies this, libvirt
      ensures defers == [] && p == Plan(VMName(config.name, revision), NewMachine(config, env), pointer, libvirt.prefix)
      ensures r == (if r.Some? then Some(p.name) else None) && libvirt.leases == old(libvirt.leases)
      ensures DatabaseAfter(old(db), db, p, active, r.Some?, failedSave)
      ensures var id := VMName(config.name, revision).ID();
        var started := env.ready && libvirt.prefix + id !in old(domains) && env.ip.Some?;
        var leased := started && env.seeded && env.checked
          && (active ==> !Conflict(old(db), config, config.name) && env.parentOK);
        var created := leased && env.diskCreated && id + ".qcow2" !in old(disks);
        var defined := created && env.diskFilled && env.resizeOK && env.templateOK && env.defineOK;
        var scripted := defined && env.booted && env.actionsOK
          && ((env.prepareOK && env.installOK) || (allowScriptFailure && !env.forceDelete));
        && (r.Some? || failedSave <==> scripted && (active ==> env.parentStillOK))
        && (r.Some? ==> env.saved) && (failedSave ==> !env.saved)
        && (env.undoDomainOK && env.undoDiskOK ==>
              WorldAfter(old(Snapshot()), Snapshot(), p, r.Some?, started, created && !env.diskFilled))
        && NetworkAfter(old(Network()), Network(), p, r.Some?, leased, env)
        && (r.Some? ==>
              id in db && db[id] == Entry(p.name, VM(config, false, NoOperation, env.mac, env.ip.value, ""), active))
    {
      p := Plan(VMName(config.name, revision), NewMachine(config, env), pointer, libvirt.prefix);
      var plan := Plan(VMName(config.name, revision), NewMachine(config, env), pointer, libvirt.prefix);
      NextRevisionIsFree(db, config.name);
      BuildableMeaning(db, Snapshot(), plan, active, allowScriptFailure, env);
      var ok;
      ok, failedSave := Transaction(plan, active, allowScriptFailure, env);
      r := if ok then Some(plan.name) else None;
    }

    /** The steps, then the deferred calls. */
    method Transaction(p: Plan, active: bool, allowScriptFailure: bool, env: BuildEnv)
      returns (ok: bool, ghost failedSave: bool)
      requires defers == [] && p.pointer !in libvirt.leases && p.prefix == libvirt.prefix
      modifies this, libvirt
      ensures defers == [] && libvirt.leases == old(libvirt.leases)
      ensures DatabaseAfter(old(db), db, p, active, ok, failedSave)
      ensures env.undoDomainOK && env.undoDiskOK ==>
        WorldAfter(old(Snapshot()), Snapshot(), p, ok, Starts(old(Snapshot()), p, env),
          LeaksDisk(old(db), old(Snapshot()), p, active, env))
      ensures NetworkAfter(old(Network()), Network(), p, ok, GetsLease(old(db), old(Snapshot()), p, active, env), env)
      ensures ok || failedSave <==> Buildable(old(db), old(Snapshot()), p, active, allowScriptFailure, env)
      ensures (ok ==> env.saved) && (failedSave ==> !env.saved)
    {
      ghost var db0, w0, n0 := db, Snapshot(), Network();
      ghost var reached;
      ok, reached := Build(p, active, allowScriptFailure, env, db0, w0, n0);
      failedSave := reached && !ok;
      ghost var w1, registered, n1 := Snapshot(), defers, Network();
      ghost var leaked := LeaksDisk(db0, w0, p, active, env);
      StoppedLeases(w0, w1, registered, p, leaked);
      NewMachines(db0, db, p, active, ok, failedSave);
      Unwind(p, ok, env);
      if env.undoDomainOK && env.undoDiskOK {
        SettleWorld(w0, w1, Snapshot(), registered, p, ok, leaked);
      }
      SettleNetwork(n0, n1, Network(), p, ok, |registered| > 1, env);
    }

    /** The steps of NewVM up to its return. */
    method Build(p: Plan, active: bool, allowScriptFailure: bool, env: BuildEnv, ghost db0: Entries, ghost w0: World,
                 ghost n0: Net)
      returns (ok: bool, ghost reached: bool)
      requires defers == [] && p.pointer !in libvirt.leases && p.prefix == libvirt.prefix
      requires db == db0 && Snapshot() == w0 && Network() == n0
      modifies this, libvirt
      ensures StoppedAt(w0, Snapshot(), defers, p, LeaksDisk(db0, w0, p, active, env))
      ensures defers != [] <==> Starts(w0, p, env)
      ensures |defers| > 1 <==> GetsLease(db0, w0, p, active, env)
      ensures reached <==> Buildable(db0, w0, p, active, allowScriptFailure, env)
      ensures (ok <==> reached && env.saved) && (ok ==> defers == ALL)
      ensures DatabaseAfter(db0, db, p, active, ok, reached && !ok)
      ensures Reconciled(n0, Network().(machines := MachinesOf(db0)), p, |defers| > 1, env.leased)
    {
      reached, ok := false, false;
      if !env.ready || p.Domain() in domains || env.ip.None? {
        return;
      }
      ok, reached := Grow(p, active, allowScriptFailure, env, w0, n0);
    }

    /** From the greenhouse on. */
    method Grow(p: Plan, active: bool, allowScriptFailure: bool, env: BuildEnv, ghost w0: World, ghost n0: Net)
      returns (ok: bool, ghost reached: bool)
      requires defers == [] && p.pointer !in w0.leases && p.prefix == libvirt.prefix && p.Domain() !in w0.domains
      requires Snapshot() == w0 && Network() == n0
      modifies this, libvirt
      ensures StoppedAt(w0, Snapshot(), defers, p, Reservable(old(db), p, active, env) && HalfFilled(w0.disks, p, env))
      ensures defers != [] && (|defers| > 1 <==> Reservable(old(db), p, active, env))
      ensures reached <==>
        Reservable(old(db), p, active, env) && Constructible(old(db), w0.disks, p, active, allowScriptFailure, env)
      ensures (ok <==> reached && env.saved) && (ok ==> defers == ALL)
      ensures DatabaseAfter(old(db), db, p, active, ok, reached && !ok)
      ensures Reconciled(n0, Network().(machines := MachinesOf(old(db))), p, |defers| > 1, env.leased)
    {
      reached := false;
      ok := Reserve(p, active, env, w0);
      if ok {
        ok, reached := Construct(p, active, allowScriptFailure, env, w0);
      }
    }

    /** The disk, the domain, the scripts and the entry. */
    method Construct(p: Plan, active: bool, allowScriptFailure: bool, env: BuildEnv, ghost w0: World)
      returns (ok: bool, ghost reached: bool)
      requires defers == ALL[..2] && Snapshot() == DoAll(w0, defers, p)
      requires p.pointer !in w0.leases && w0.disks == disks && p.Domain() !in w0.domains
      modifies this`db, this`disks, this`domains, this`defers
      ensures StoppedAt(w0, Snapshot(), defers, p, HalfFilled(w0.disks, p, env)) && |defers| > 1
      ensures reached <==> Constructible(old(db), w0.disks, p, active, allowScriptFailure, env)
      ensures (ok <==> reached && env.saved) && (ok ==> defers == ALL)
      ensures DatabaseAfter(old(db), db, p, active, ok, reached && !ok)
    {
      reached := false;
      ok := Define(p, env, w0);
      if !ok {
        return;
      }
      ok := RunScripts(allowScriptFailure, env);
      if !ok {
        return;
      }
      ok, reached := Record(p, active, env);
    }

    /** Adds the VM to the database. */
    method Record(p: Plan, active: bool, env: BuildEnv) returns (ok: bool, ghost reached: bool)
      modifies this`db
      ensures reached <==> Added(old(db), p.vm, p.name, active, env.parentStillOK, true).ok
      ensures ok <==> reached && env.saved
      ensures DatabaseAfter(old(db), db, p, active, ok, reached && !ok)
    {
      var added := Added(db, p.vm, p.name, active, env.parentStillOK, env.saved);
      reached := Added(db, p.vm, p.name, active, env.parentStillOK, true).ok;
      db, ok := added.db, added.ok;
    }

    /** First boot, then the prepare scripts, then those of the restoration or installation. */
    method RunScripts(allowScriptFailure: bool, env: BuildEnv) returns (ok: bool)
      ensures ok <==> env.booted && ScriptsOK(allowScriptFailure, env)
    {
      if !env.booted {
        return false;
      }
      if !env.prepareOK && (!allowScriptFailure || env.forceDelete) {
        return false;
      }
      if !env.actionsOK {
        return false;
      }
      if !env.installOK && (!allowScriptFailure || env.forceDelete) {
        return false;
      }
      return true;
    }

    /** The greenhouse, the checks and the lease. */
    method Reserve(p: Plan, active: bool, env: BuildEnv, ghost w0: World) returns (ok: bool)
      requires defers == [] && p.prefix == libvirt.prefix && Snapshot() == w0
      modifies this`greenhouse, this`defers, libvirt
      ensures defers == if ok then ALL[..2] else ALL[..1]
      ensures Snapshot() == DoAll(w0, defers, p)
      ensures Reconciled(old(Network()), Network(), p, |defers| > 1, env.leased)
      ensures ok <==> Reservable(db, p, active, env)
    {
      EnterGreenhouse(p, w0);
      if !env.seeded || (active && (Conflict(db, p.vm.config, p.name.name) || !env.parentOK)) || !env.checked {
        return false;
      }
      Lease(p, env.leased, w0);
      return true;
    }

    method EnterGreenhouse(p: Plan, ghost w0: World)
      requires defers == [] && Snapshot() == w0
      modifies this`greenhouse, this`defers
      ensures defers == ALL[..1] && Snapshot() == DoAll(w0, defers, p)
    {
      if p.Id() !in greenhouse {
        greenhouse := greenhouse[p.Id() := Entry(p.name, p.vm, false)];
      }
      Defer(DropGreenhouse, w0, p);
    }

    /** The disk and the domain. */
    method Define(p: Plan, env: BuildEnv, ghost w0: World) returns (ok: bool)
      requires defers == ALL[..2] && Snapshot() == DoAll(w0, defers, p)
      modifies this`disks, this`domains, this`defers
      ensures defers <= ALL && |defers| >= 2
      ensures var leaked := HalfFilled(old(disks), p, env);
        Snapshot() == Done(w0, defers, p, leaked) && (leaked ==> defers == ALL[..2])
      ensures |defers| > 2 ==> p.Disk() !in old(disks)
      ensures ok ==> defers == ALL
      ensures ok <==> Definable(old(disks), p, env)
    {
      if !env.diskCreated || p.Disk() in disks {
        return false;
      }
      disks := disks + {p.Disk()};
      if !env.diskFilled {
        return false;
      }
      Defer(DropDisk, w0, p);
      if !env.resizeOK || !env.templateOK || !env.defineOK {
        return false;
      }
      domains := domains + {p.Domain()};
      Defer(DropDomain, w0, p);
      return true;
    }

    /** The deferred calls, last in, first out. */
    method Unwind(p: Plan, commit: bool, env: BuildEnv)
      requires defers <= ALL && p.prefix == libvirt.prefix
      modifies this`greenhouse, this`disks, this`domains, this`defers, libvirt
      ensures defers == []
      ensures env.undoDomainOK && env.undoDiskOK ==> Snapshot() == Unwound(old(Snapshot()), old(defers), p, commit)
      ensures libvirt.leases == if |old(defers)| > 1 then Without(old(libvirt.leases), p.pointer)
        else old(libvirt.leases)
      ensures Reconciled(old(Network()), Network(), p, |old(defers)| > 1, env.unleased)
    {
      while defers != []
        invariant defers <= ALL && |defers| <= |old(defers)|
        invariant env.undoDomainOK && env.undoDiskOK ==>
          Unwound(Snapshot(), defers, p, commit) == Unwound(old(Snapshot()), old(defers), p, commit)
        invariant |defers| > 1 || defers == old(defers) ==> Network() == old(Network())
        invariant libvirt.leases ==
          if |defers| <= 1 < |old(defers)| then Without(old(libvirt.leases), p.pointer) else old(libvirt.leases)
        invariant |defers| <= 1 ==> Reconciled(old(Network()), Network(), p, |old(defers)| > 1, env.unleased)
        decreases |defers|
      {
        var u := defers[|defers| - 1];
        assert u == ALL[|defers| - 1];
        defers := defers[..|defers| - 1];
        match u {
          case DropDomain =>
            if !commit && env.undoDomainOK {
              domains := domains - {p.Domain()};
            }
          case DropDisk =>
            if !commit && env.undoDiskOK {
              disks := disks - {p.Disk()};
            }
          case DropLease =>
            Unlease(p, env.unleased);
          case DropGreenhouse =>
            greenhouse := VMRegistry.Remove(greenhouse, p.Id());
        }
      }
    }

    method Unlease(p: Plan, answers: Rebuilding)
      requires p.prefix == libvirt.prefix
      modifies libvirt
      ensures Snapshot() == Compensate(old(Snapshot()), DropLease, p, false)
      ensures Reconciled(old(Network()), Network(), p, true, answers)
    {
      ghost var before, leases := Network(), libvirt.leases;
      ghost var wanted;
      var ok;
      ok, wanted := libvirt.RemoveTransientDHCPHost(p.pointer, MachinesOf(db), answers);
      assert libvirt.leases == Without(leases, p.pointer);
      assert Tried(before, Network(), wanted, ok, answers, p.prefix);
    }

    method Defer(u: Undo, ghost w0: World, ghost p: Plan)
      requires Snapshot() == Do(DoAll(w0, defers, p), u, p)
      modifies this`defers
      ensures defers == old(defers) + [u] && Snapshot() == old(Snapshot()) == DoAll(w0, defers, p)
    {
      defers := defers + [u];
      assert defers[..|defers| - 1] == old(defers);
    }

    /** An error of the rebuild is ignored; the lease is registered in any case. */
    method Lease(p: Plan, answers: Rebuilding, ghost w0: World)
      requires p.prefix == libvirt.prefix && Snapshot() == DoAll(w0, defers, p)
      modifies this`defers, libvirt
      ensures defers == old(defers) + [DropLease] && Snapshot() == DoAll(w0, defers, p)
      ensures Reconciled(old(Network()), Network(), p, true, answers)
    {
      ghost var before := Network();
      ghost var wanted;
      var ok;
      ok, wanted := libvirt.AddTransientDHCPHost(p.pointer, p.Lease(), MachinesOf(db), answers);
      assert Tried(before, Network(), wanted, ok, answers, p.prefix);
      Defer(DropLease, w0, p);
    }
  }
}
