/** The transient lease of a VM under construction, from its first rebuild to its last. */
module LeaseLives {
  import opened DhcpHosts
  import opened DhcpRuns
  import opened DhcpViews
  import opened DhcpFailures

  lemma {:induction false} MissingOne(hosts: seq<Host>, wanted: seq<Host>, lease: Host)
    requires lease in wanted && !Named(hosts, lease.name) && CountNamed(wanted, lease.name) == 1
    requires forall w | w in wanted && w != lease :: Named(hosts, w.name)
    ensures Missing(hosts, wanted) == [lease]
  {
    if wanted[0] == lease {
      NamedIffCounted(wanted[1..], lease.name);
      forall w | w in wanted[1..] ensures Named(hosts, w.name) {
        var i :| 0 <= i < |wanted[1..]| && wanted[1..][i] == w;
      }
      MissNone(hosts, wanted[1..]);
    } else {
      NamedIffCounted(wanted[1..], lease.name);
      var i :| 0 <= i < |wanted| && wanted[i] == lease;
      assert wanted[1..][i - 1] == lease;
      MissingOne(hosts, wanted[1..], lease);
    }
  }

  /** One more lease. */
  predicate Adds(s: Net, t: Net, pointer: nat, lease: Host) {
    pointer !in s.leases && t.machines == s.machines && t.leases == s.leases[pointer := lease]
  }

  lemma StillWanted(s: Net, t: Net, pointer: nat, lease: Host, wanted: seq<Host>, prefix: string)
    requires Adds(s, t, pointer, lease) && IsWanted(wanted, t.machines, t.leases, prefix)
    ensures forall h | Want(h, s.machines, s.leases, prefix) :: h in wanted
    ensures lease in wanted
  {
    WantedIffWant(wanted, t.machines, t.leases, prefix);
    assert t.leases[pointer] == lease;
    forall h | Want(h, s.machines, s.leases, prefix) ensures h in wanted {
      if q :| q in s.leases && s.leases[q] == h {
        assert t.leases[q] == h;
      }
    }
  }

  lemma OnlyLeaseMissing(s: Net, t: Net, pointer: nat, id: string, m: Machine, wanted: seq<Host>, prefix: string)
    requires Inv(s, prefix) && FreeName(s, id, prefix) && Adds(s, t, pointer, LeaseFor(id, m, prefix))
    requires IsWanted(wanted, t.machines, t.leases, prefix)
    ensures Missing(s.cached, wanted) == [LeaseFor(id, m, prefix)]
  {
    var lease := LeaseFor(id, m, prefix);
    NameNotUsed(s, id, prefix);
    NewLeaseOnce(wanted, s, pointer, id, m, prefix);
    StillWanted(s, t, pointer, lease, wanted, prefix);
    forall w | w in wanted && w != lease ensures Named(s.cached, w.name) {
      WantedIffWant(wanted, t.machines, t.leases, prefix);
      OthersThere(s, pointer, lease, w, prefix);
    }
    MissingOne(s.cached, wanted, lease);
  }

  lemma WantedThere(s: Net, wanted: seq<Host>, lease: Host, prefix: string)
    requires Inv(s, prefix) && IsWanted(wanted, s.machines, s.leases, prefix)
    ensures Missing(s.cached + [lease], wanted) == []
  {
    WantedIffWant(wanted, s.machines, s.leases, prefix);
    forall w | w in wanted ensures Named(s.cached + [lease], w.name) {
      NamedByMember(s.cached + [lease], w);
    }
    MissNone(s.cached + [lease], wanted);
  }

  lemma LeaseObsolete(s: Net, wanted: seq<Host>, id: string, m: Machine, prefix: string)
    requires IsWanted(wanted, s.machines, s.leases, prefix) && FreeName(s, id, prefix)
    ensures Obsolete(LeaseFor(id, m, prefix), wanted, prefix)
  {
    NamedIffInUse(wanted, s.machines, s.leases, prefix);
    assert (prefix + id)[|prefix|..] == id;
  }

  lemma Begun(s: Net, t: Net, pointer: nat, id: string, m: Machine, prefix: string)
    requires Inv(s, prefix) && FreeName(s, id, prefix) && FreeIP(s, m.ip)
    requires Adds(s, t, pointer, LeaseFor(id, m, prefix))
    requires RebuildOK(s, t, prefix)
    ensures Inv(t, prefix)
  {
    StepKeepsInv(s, Begin(pointer, id, m), t, prefix);
  }

  // -- with any answers -----------------------------------------------------

  /** A rebuild that has one update to make makes it. */
  predicate Makes(answers: Rebuilding) {
    answers.connected && answers.failAt != 0
  }

  /** And sees the result. */
  predicate Sees(answers: Rebuilding) {
    Makes(answers) && answers.described
  }

  lemma OneUpdate(live0: seq<Host>, cached0: seq<Host>, live: seq<Host>, cached: seq<Host>, u: Update, ok: bool,
                  answers: Rebuilding)
    requires RebuildStep(live0, cached0, live, cached, [u], ok, answers) && (u.Remove? ==> u.host in live0)
    ensures live == (if Makes(answers) then ApplyOne(live0, u) else live0)
    ensures cached == (if Sees(answers) then live else cached0)
  {
    assert [u][1..] == [] && [u][..0] == [] && [u][..1] == [u];
    assert Accepted(live0, [u], answers.failAt) == if answers.failAt == 0 then 0 else 1;
    assert Apply(live0, [u]) == Apply(ApplyOne(live0, u), [u][1..]);
  }

  lemma NoUpdate(live0: seq<Host>, cached0: seq<Host>, live: seq<Host>, cached: seq<Host>, ok: bool,
                 answers: Rebuilding)
    requires RebuildStep(live0, cached0, live, cached, [], ok, answers)
    ensures live == live0 && (cached == live || cached == cached0)
  {
  }

  lemma NothingToRemove(s: Net, wanted: seq<Host>, prefix: string)
    requires Inv(s, prefix) && forall h | Want(h, s.machines, s.leases, prefix) :: h in wanted
    ensures Obsoletes(s.cached, wanted, prefix) == []
  {
    forall h | h in s.cached ensures !Obsolete(h, wanted, prefix) {
      if prefix <= h.name {
        NamedByMember(wanted, h);
      }
    }
    KeepAll(s.cached, wanted, prefix);
  }

  lemma LeaseUpdates(s: Net, t: Net, pointer: nat, id: string, m: Machine, wanted: seq<Host>, prefix: string)
    requires Inv(s, prefix) && FreeName(s, id, prefix) && Adds(s, t, pointer, LeaseFor(id, m, prefix))
    requires IsWanted(wanted, t.machines, t.leases, prefix)
    ensures Updates(s.cached, wanted, prefix) == [Append(LeaseFor(id, m, prefix))]
  {
    OnlyLeaseMissing(s, t, pointer, id, m, wanted, prefix);
    StillWanted(s, t, pointer, LeaseFor(id, m, prefix), wanted, prefix);
    NothingToRemove(s, wanted, prefix);
  }

  /** The first rebuild has one update to make: the host of the lease. */
  lemma LeaseTried(s: Net, t: Net, pointer: nat, id: string, m: Machine, wanted: seq<Host>, ok: bool,
                   answers: Rebuilding, prefix: string)
    requires Inv(s, prefix) && FreeName(s, id, prefix) && Adds(s, t, pointer, LeaseFor(id, m, prefix))
    requires Tried(s, t, wanted, ok, answers, prefix)
    ensures t.live == if Makes(answers) then s.cached + [LeaseFor(id, m, prefix)] else s.cached
    ensures t.cached == if Sees(answers) then t.live else s.cached
  {
    var lease := LeaseFor(id, m, prefix);
    LeaseUpdates(s, t, pointer, id, m, wanted, prefix);
    OneUpdate(s.live, s.cached, t.live, t.cached, Append(lease), ok, answers);
  }

  /** The hosts without the lease, and those with it. */
  lemma RemoveLast(hosts: seq<Host>, h: Host)
    requires h !in hosts
    ensures RemoveFirst(hosts + [h], h) == hosts
  {
    if hosts != [] {
      RemoveLast(hosts[1..], h);
      assert (hosts + [h])[1..] == hosts[1..] + [h];
    }
  }

  lemma TakeBackUpdates(s: Net, wanted: seq<Host>, id: string, m: Machine, prefix: string)
    requires Inv(s, prefix) && FreeName(s, id, prefix) && IsWanted(wanted, s.machines, s.leases, prefix)
    ensures Updates(s.cached, wanted, prefix) == []
    ensures Updates(s.cached + [LeaseFor(id, m, prefix)], wanted, prefix) == [Remove(LeaseFor(id, m, prefix))]
  {
    var lease := LeaseFor(id, m, prefix);
    WantedIffWant(wanted, s.machines, s.leases, prefix);
    NothingToRemove(s, wanted, prefix);
    WantedThere(s, wanted, lease, prefix);
    forall w | w in wanted ensures Named(s.cached, w.name) {
      NamedByMember(s.cached, w);
    }
    MissNone(s.cached, wanted);
    LeaseObsolete(s, wanted, id, m, prefix);
    ObsoletesConcat(s.cached, [lease], wanted, prefix);
    assert Obsoletes([lease], wanted, prefix) == [lease];
  }

  /** Taking the lease back leaves the network as found if and only if its name was in use already, or the
      first rebuild did nothing, or its result was seen and the second one removed the host. */
  lemma TakenBackIff(s: Net, t: Net, u: Net, pointer: nat, id: string, m: Machine, wanted1: seq<Host>, ok1: bool,
                     a1: Rebuilding, wanted2: seq<Host>, ok2: bool, a2: Rebuilding, prefix: string)
    requires Inv(s, prefix) && Adds(s, t, pointer, LeaseFor(id, m, prefix))
    requires Tried(s, t, wanted1, ok1, a1, prefix)
    requires u.machines == s.machines && u.leases == s.leases && Tried(t, u, wanted2, ok2, a2, prefix)
    ensures u.live == s.live <==> !FreeName(s, id, prefix) || !Makes(a1) || (Sees(a1) && Makes(a2))
  {
    var lease := LeaseFor(id, m, prefix);
    if !FreeName(s, id, prefix) {
      TakenLeaseTried(s, t, pointer, id, m, wanted1, ok1, a1, prefix);
      ExactNeedsNothing(s.cached, s.machines, s.leases, wanted2, prefix);
    } else {
      LeaseTried(s, t, pointer, id, m, wanted1, ok1, a1, prefix);
      TakeBackUpdates(s, wanted2, id, m, prefix);
      if Sees(a1) {
        LeaseIsNew(s, id, m, prefix);
        RemoveLast(s.cached, lease);
        OneUpdate(t.live, t.cached, u.live, u.cached, Remove(lease), ok2, a2);
      } else {
        NoUpdate(t.live, t.cached, u.live, u.cached, ok2, a2);
      }
    }
  }

  // -- a name that is in use already ----------------------------------------

  /** The host of a VM or lease that has that name. */
  lemma Namesake(s: Net, id: string, prefix: string) returns (h: Host)
    requires Inv(s, prefix) && !FreeName(s, id, prefix)
    ensures h.name == prefix + id && Want(h, s.machines, s.leases, prefix) && h in s.cached
  {
    if id in s.machines {
      h := HostOf(s.machines, id, prefix);
    } else {
      var q :| q in s.leases && s.leases[q].name == prefix + id;
      h := s.leases[q];
    }
    assert Want(h, s.machines, s.leases, prefix);
  }

  /** One more host of a name that is in use changes no name. */
  lemma NamesakeNeedsNothing(s: Net, wanted: seq<Host>, id: string, m: Machine, prefix: string)
    requires Inv(s, prefix) && !FreeName(s, id, prefix)
    requires forall h :: h in wanted <==> Want(h, s.machines, s.leases, prefix) || h == LeaseFor(id, m, prefix)
    ensures Updates(s.cached, wanted, prefix) == []
  {
    var namesake := Namesake(s, id, prefix);
    forall h | h in s.cached ensures !Obsolete(h, wanted, prefix) {
      if prefix <= h.name {
        NamedByMember(wanted, h);
      }
    }
    forall w | w in wanted ensures Named(s.cached, w.name) {
      NamedByMember(s.cached, if w == LeaseFor(id, m, prefix) then namesake else w);
    }
    NothingToDo(s.cached, wanted, wanted, prefix);
  }

  lemma TakenLeaseTried(s: Net, t: Net, pointer: nat, id: string, m: Machine, wanted: seq<Host>, ok: bool,
                        answers: Rebuilding, prefix: string)
    requires Inv(s, prefix) && !FreeName(s, id, prefix) && Adds(s, t, pointer, LeaseFor(id, m, prefix))
    requires Tried(s, t, wanted, ok, answers, prefix)
    ensures t.live == t.cached == s.live
  {
    WantedIffWant(wanted, t.machines, t.leases, prefix);
    forall h ensures h in wanted <==> Want(h, s.machines, s.leases, prefix) || h == LeaseFor(id, m, prefix) {
      WantWithLease(s, pointer, LeaseFor(id, m, prefix), h, prefix);
    }
    NamesakeNeedsNothing(s, wanted, id, m, prefix);
    NoUpdate(s.live, s.cached, t.live, t.cached, ok, answers);
  }

  /** The hosts as found suit the new VM as well exactly if another lease has its very host. */
  lemma NamesakeExactIff(s: Net, id: string, m: Machine, prefix: string)
    requires Inv(s, prefix) && !FreeName(s, id, prefix) && id !in s.machines
    ensures Exact(s.live, s.machines[id := m], s.leases, prefix) <==>
      Want(LeaseFor(id, m, prefix), s.machines, s.leases, prefix)
  {
    var lease := LeaseFor(id, m, prefix);
    var namesake := Namesake(s, id, prefix);
    forall h
      ensures Want(h, s.machines[id := m], s.leases, prefix) <==> Want(h, s.machines, s.leases, prefix) || h == lease
    {
      WantWithMachine(s, id, m, h, prefix);
    }
    if Exact(s.live, s.machines[id := m], s.leases, prefix) {
      OneOfName(s.live, s.machines[id := m], s.leases, prefix, lease, namesake);
    }
  }

  /** Two VMs of one name under construction: the second one to come adds nothing to the network. */
  lemma NamesakeStays(s: Net, t: Net, t2: Net, u: Net, pointer: nat, id: string, m: Machine, wanted1: seq<Host>,
                      ok1: bool, a1: Rebuilding, wanted2: seq<Host>, ok2: bool, a2: Rebuilding, prefix: string)
    requires Inv(s, prefix) && !FreeName(s, id, prefix) && id !in s.machines
    requires Adds(s, t, pointer, LeaseFor(id, m, prefix))
    requires Tried(s, t, wanted1, ok1, a1, prefix) && t2 == t.(machines := s.machines[id := m])
    requires u.machines == t2.machines && u.leases == s.leases && Tried(t2, u, wanted2, ok2, a2, prefix)
    ensures u.live == u.cached == s.live
    ensures Exact(u.live, u.machines, u.leases, prefix) <==> Want(LeaseFor(id, m, prefix), s.machines, s.leases, prefix)
  {
    TakenLeaseTried(s, t, pointer, id, m, wanted1, ok1, a1, prefix);
    WantedIffWant(wanted2, u.machines, u.leases, prefix);
    forall h ensures h in wanted2 <==> Want(h, s.machines, s.leases, prefix) || h == LeaseFor(id, m, prefix) {
      WantWithMachine(s, id, m, h, prefix);
    }
    NamesakeNeedsNothing(s, wanted2, id, m, prefix);
    NoUpdate(t2.live, t2.cached, u.live, u.cached, ok2, a2);
    NamesakeExactIff(s, id, m, prefix);
  }

  lemma LeaseIsNew(s: Net, id: string, m: Machine, prefix: string)
    requires Inv(s, prefix) && FreeName(s, id, prefix)
    ensures LeaseFor(id, m, prefix) !in s.cached
  {
    NameNotUsed(s, id, prefix);
  }

  /** A VM of the database whose name no lease has is listed once. */
  lemma NewMachineOnce(wanted: seq<Host>, s: Net, id: string, m: Machine, prefix: string)
    requires FreeName(s, id, prefix) && IsWanted(wanted, s.machines[id := m], s.leases, prefix)
    ensures CountNamed(wanted, prefix + id) == 1 && LeaseFor(id, m, prefix) in wanted
  {
    var machines := s.machines[id := m];
    var ids, order :| IsListing(wanted, ids, order, machines, s.leases, prefix);
    assert id in machines.Keys && id in ids;
    var k :| 0 <= k < |ids| && ids[k] == id;
    assert wanted[k] == LeaseFor(id, m, prefix);
    forall j | 0 <= j < |ids| && j != k ensures wanted[j].name != prefix + id {
      assert ids[j] != ids[k];
      assert (prefix + ids[j])[|prefix|..] == ids[j] && (prefix + id)[|prefix|..] == id;
    }
    forall j | |ids| <= j < |wanted| ensures wanted[j].name != prefix + id {
      assert order[j - |ids|] in s.leases;
    }
    CountSingle(wanted, prefix + id, k);
  }

  lemma WantWithMachine(s: Net, id: string, m: Machine, h: Host, prefix: string)
    requires id !in s.machines
    ensures Want(h, s.machines[id := m], s.leases, prefix) <==>
      Want(h, s.machines, s.leases, prefix) || h == LeaseFor(id, m, prefix)
  {
    var machines := s.machines[id := m];
    if x :| x in s.machines && HostOf(s.machines, x, prefix) == h {
      assert HostOf(machines, x, prefix) == h;
    }
    assert HostOf(machines, id, prefix) == LeaseFor(id, m, prefix);
  }

  lemma MachineWanted(s: Net, id: string, m: Machine, wanted: seq<Host>, prefix: string)
    requires FreeName(s, id, prefix) && IsWanted(wanted, s.machines[id := m], s.leases, prefix)
    ensures forall h :: h in wanted <==> Want(h, s.machines, s.leases, prefix) || h == LeaseFor(id, m, prefix)
  {
    WantedIffWant(wanted, s.machines[id := m], s.leases, prefix);
    forall h ensures h in wanted <==> Want(h, s.machines, s.leases, prefix) || h == LeaseFor(id, m, prefix) {
      WantWithMachine(s, id, m, h, prefix);
    }
  }

  lemma CommittedUpdates(s: Net, wanted: seq<Host>, id: string, m: Machine, prefix: string)
    requires Inv(s, prefix) && FreeName(s, id, prefix) && IsWanted(wanted, s.machines[id := m], s.leases, prefix)
    ensures Updates(s.cached, wanted, prefix) == [Append(LeaseFor(id, m, prefix))]
    ensures Updates(s.cached + [LeaseFor(id, m, prefix)], wanted, prefix) == []
  {
    var lease := LeaseFor(id, m, prefix);
    var with := s.cached + [lease];
    MachineWanted(s, id, m, wanted, prefix);
    NewMachineOnce(wanted, s, id, m, prefix);
    NameNotUsed(s, id, prefix);
    NothingToRemove(s, wanted, prefix);
    forall w | w in wanted ensures Named(with, w.name) && (w != lease ==> Named(s.cached, w.name)) {
      NamedByMember(with, w);
      if w != lease {
        NamedByMember(s.cached, w);
      }
    }
    MissingOne(s.cached, wanted, lease);
    MissNone(with, wanted);
    NamedByMember(wanted, lease);
    ObsoletesConcat(s.cached, [lease], wanted, prefix);
    assert Obsoletes([lease], wanted, prefix) == [];
  }

  function Copies(hosts: seq<Host>, h: Host, n: nat): seq<Host> {
    if n == 0 then hosts else if n == 1 then hosts + [h] else hosts + [h] + [h]
  }

  /** The hosts as found and those of the new VM are exact if and only if there is one of the latter. */
  lemma CopiesExactIff(s: Net, id: string, m: Machine, n: nat, prefix: string)
    requires Inv(s, prefix) && FreeName(s, id, prefix)
    ensures Exact(Copies(s.cached, LeaseFor(id, m, prefix), n), s.machines[id := m], s.leases, prefix) <==> n == 1
  {
    var lease := LeaseFor(id, m, prefix);
    NameNotUsed(s, id, prefix);
    NamedIffCounted(s.cached, lease.name);
    CountConcat(s.cached, [lease], lease.name);
    CountConcat(s.cached + [lease], [lease], lease.name);
    WantWithMachine(s, id, m, lease, prefix);
    if n == 1 {
      ExactWithOne(s, id, m, s.cached + [lease], prefix);
    }
  }

  lemma ExactWithOne(s: Net, id: string, m: Machine, hosts: seq<Host>, prefix: string)
    requires Inv(s, prefix) && FreeName(s, id, prefix) && hosts == s.cached + [LeaseFor(id, m, prefix)]
    requires CountNamed(hosts, prefix + id) == 1
    ensures Exact(hosts, s.machines[id := m], s.leases, prefix)
  {
    var lease := LeaseFor(id, m, prefix);
    forall h
      ensures Want(h, s.machines[id := m], s.leases, prefix) <==> Want(h, s.machines, s.leases, prefix) || h == lease
    {
      WantWithMachine(s, id, m, h, prefix);
    }
    forall h | Want(h, s.machines, s.leases, prefix) ensures h in hosts && CountNamed(hosts, h.name) == 1 {
      NotWanted(s, id, Host(prefix + id, h.mac, h.ip), prefix);
      assert h.name != lease.name;
      CountConcat(s.cached, [lease], h.name);
    }
  }

  /** Once the VM is in the database, the network is exact if and only if the first rebuild saw its
      result, or exactly one of the two rebuilds added the host; when another VM of that name is under
      construction, if and only if that one has the same MAC and IP. */
  lemma StaysIff(s: Net, t: Net, t2: Net, u: Net, pointer: nat, id: string, m: Machine, wanted1: seq<Host>, ok1: bool,
                 a1: Rebuilding, wanted2: seq<Host>, ok2: bool, a2: Rebuilding, prefix: string)
    requires Inv(s, prefix) && id !in s.machines && Adds(s, t, pointer, LeaseFor(id, m, prefix))
    requires Tried(s, t, wanted1, ok1, a1, prefix) && t2 == t.(machines := s.machines[id := m])
    requires u.machines == t2.machines && u.leases == s.leases && Tried(t2, u, wanted2, ok2, a2, prefix)
    ensures Exact(u.live, u.machines, u.leases, prefix) <==>
      if FreeName(s, id, prefix) then Sees(a1) || Makes(a1) != Makes(a2)
      else Want(LeaseFor(id, m, prefix), s.machines, s.leases, prefix)
    ensures Sees(a1) || !FreeName(s, id, prefix) ==> u.cached == u.live == t.live == t.cached
    ensures !FreeName(s, id, prefix) ==> u.live == s.live
  {
    if FreeName(s, id, prefix) {
      NewNameStays(s, t, t2, u, pointer, id, m, wanted1, ok1, a1, wanted2, ok2, a2, prefix);
    } else {
      TakenLeaseTried(s, t, pointer, id, m, wanted1, ok1, a1, prefix);
      NamesakeStays(s, t, t2, u, pointer, id, m, wanted1, ok1, a1, wanted2, ok2, a2, prefix);
    }
  }

  lemma NewNameStays(s: Net, t: Net, t2: Net, u: Net, pointer: nat, id: string, m: Machine, wanted1: seq<Host>,
                     ok1: bool, a1: Rebuilding, wanted2: seq<Host>, ok2: bool, a2: Rebuilding, prefix: string)
    requires Inv(s, prefix) && FreeName(s, id, prefix) && Adds(s, t, pointer, LeaseFor(id, m, prefix))
    requires Tried(s, t, wanted1, ok1, a1, prefix) && t2 == t.(machines := s.machines[id := m])
    requires u.machines == t2.machines && u.leases == s.leases && Tried(t2, u, wanted2, ok2, a2, prefix)
    ensures Exact(u.live, u.machines, u.leases, prefix) <==> Sees(a1) || Makes(a1) != Makes(a2)
    ensures Sees(a1) ==> u.cached == u.live == t.live == t.cached
  {
    var lease := LeaseFor(id, m, prefix);
    LeaseTried(s, t, pointer, id, m, wanted1, ok1, a1, prefix);
    CommittedUpdates(s, wanted2, id, m, prefix);
    var n1 := if Makes(a1) then 1 else 0;
    var n2 := if !Sees(a1) && Makes(a2) then 1 else 0;
    CommittedTry(s.cached, t.live, t.cached, u.live, u.cached, lease, n1, wanted2, ok2, a2, prefix);
    assert u.live == Copies(s.cached, lease, n1 + n2);
    CopiesExactIff(s, id, m, n1 + n2, prefix);
  }

  lemma CommittedTry(hosts: seq<Host>, live0: seq<Host>, cached0: seq<Host>, live: seq<Host>, cached: seq<Host>,
                     lease: Host,
                     n: nat, wanted: seq<Host>, ok: bool, answers: Rebuilding, prefix: string)
    requires Updates(hosts, wanted, prefix) == [Append(lease)] && Updates(hosts + [lease], wanted, prefix) == []
    requires n <= 1 && live0 == Copies(hosts, lease, n)
    requires cached0 == hosts || cached0 == live0 == hosts + [lease]
    requires RebuildStep(live0, cached0, live, cached, Updates(cached0, wanted, prefix), ok, answers)
    ensures cached0 != hosts ==> cached == live == live0
    ensures cached0 == hosts ==> live == Copies(hosts, lease, n + if Makes(answers) then 1 else 0)
  {
    if cached0 == hosts {
      OneUpdate(live0, cached0, live, cached, Append(lease), ok, answers);
    } else {
      NoUpdate(live0, cached0, live, cached, ok, answers);
    }
  }

  /** A first rebuild that sees its result succeeds. */
  lemma Begins(s: Net, t: Net, pointer: nat, id: string, m: Machine, wanted: seq<Host>, ok: bool, answers: Rebuilding,
               prefix: string)
    requires Inv(s, prefix) && FreeName(s, id, prefix) && FreeIP(s, m.ip)
    requires Adds(s, t, pointer, LeaseFor(id, m, prefix))
    requires Tried(s, t, wanted, ok, answers, prefix) && Sees(answers)
    ensures Inv(t, prefix)
  {
    var lease := LeaseFor(id, m, prefix);
    LeaseTried(s, t, pointer, id, m, wanted, ok, answers, prefix);
    LeaseUpdates(s, t, pointer, id, m, wanted, prefix);
    ChangedByUpdates(s.live, [], [lease]);
    assert Updates(s.cached, wanted, prefix) == Removals([]) + Additions([lease]);
    assert Apply(s.live, Removals([])) == s.live;
    assert RebuildOK(s, t, prefix);
    Begun(s, t, pointer, id, m, prefix);
  }

  /** And the second one changes nothing. */
  lemma StaysSeen(s: Net, t: Net, t2: Net, u: Net, pointer: nat, id: string, m: Machine, prefix: string)
    requires Inv(t, prefix) && Adds(s, t, pointer, LeaseFor(id, m, prefix))
    requires Prefixed(s.leases, prefix)
    requires t2 == t.(machines := s.machines[id := m]) && u.machines == t2.machines && u.leases == s.leases
    requires u.cached == u.live == t.live && Exact(u.live, u.machines, u.leases, prefix)
    ensures Inv(u, prefix)
  {
  }
}
