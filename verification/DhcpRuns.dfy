/** Runs of lease additions and removals, VM additions and deletions. */
module DhcpRuns {
  import opened DhcpHosts

  datatype Net = Net(machines: Machines, leases: Leases, cached: seq<Host>, live: seq<Host>)

  datatype Step =
    | Begin(pointer: nat, id: string, machine: Machine)
    | Commit(pointer: nat, id: string)
    | End(pointer: nat)
    | Delete(id: string)
    | Refresh

  function LeaseFor(id: string, m: Machine, prefix: string): Host {
    Host(prefix + id, m.mac, m.ip)
  }

  /** What the choice of an IP looks at: no VM and no host that libvirt was seen to have uses it. Others
      may take it before the lease is added. */
  predicate FreeIP(s: Net, ip: string) {
    (forall id | id in s.machines :: s.machines[id].ip != ip) && (forall h | h in s.cached :: h.ip != ip)
  }

  /** The revision of a new VM is that of no other one in the database; two VMs under construction may
      share it. */
  predicate FreeName(s: Net, id: string, prefix: string) {
    id !in s.machines && forall p | p in s.leases :: s.leases[p].name != prefix + id
  }

  predicate Allowed(s: Net, step: Step, prefix: string) {
    match step
    case Begin(p, _, _) => p !in s.leases
    case Commit(p, id) => p in s.leases && s.leases[p].name == prefix + id && id !in s.machines
    case End(p) => p in s.leases
    case Delete(id) => id in s.machines
    case Refresh => true
  }

  function MachinesAfter(s: Net, step: Step, prefix: string): Machines
    requires Allowed(s, step, prefix)
  {
    match step
    case Commit(p, id) => s.machines[id := Machine(s.leases[p].mac, s.leases[p].ip)]
    case Delete(id) => map x | x in s.machines && x != id :: s.machines[x]
    case _ => s.machines
  }

  function LeasesAfter(s: Net, step: Step, prefix: string): Leases {
    match step
    case Begin(p, id, m) => s.leases[p := LeaseFor(id, m, prefix)]
    case End(p) => map x | x in s.leases && x != p :: s.leases[x]
    case _ => s.leases
  }

  /** What each step does to VMs and leases. */
  lemma StepMeaning(s: Net, step: Step, prefix: string)
    requires Allowed(s, step, prefix)
    ensures var machines, leases := MachinesAfter(s, step, prefix), LeasesAfter(s, step, prefix);
      match step
      case Begin(p, id, m) => machines == s.machines && leases == s.leases[p := Host(prefix + id, m.mac, m.ip)]
      case Commit(p, id) => machines == s.machines[id := Machine(s.leases[p].mac, s.leases[p].ip)] && leases == s.leases
      case End(p) =>
        && machines == s.machines && leases.Keys == s.leases.Keys - {p}
        && forall q | q in leases :: leases[q] == s.leases[q]
      case Delete(id) =>
        && leases == s.leases && machines.Keys == s.machines.Keys - {id}
        && forall x | x in machines :: machines[x] == s.machines[x]
      case Refresh => machines == s.machines && leases == s.leases
  {
  }

  /** A step whose rebuild succeeds; adding a VM to the database rebuilds nothing. */
  ghost predicate Next(s: Net, step: Step, t: Net, prefix: string) {
    && Allowed(s, step, prefix)
    && t.machines == MachinesAfter(s, step, prefix) && t.leases == LeasesAfter(s, step, prefix)
    && if step.Commit? then t.cached == s.cached && t.live == s.live else RebuildOK(s, t, prefix)
  }

  ghost predicate RebuildOK(s: Net, t: Net, prefix: string) {
    t.cached == t.live && exists wanted ::
      IsWanted(wanted, t.machines, t.leases, prefix) && t.live == Apply(s.live, Updates(s.cached, wanted, prefix))
  }

  // -- the invariant --------------------------------------------------------

  predicate Want(h: Host, machines: Machines, leases: Leases, prefix: string) {
    (exists id | id in machines :: HostOf(machines, id, prefix) == h) || (exists p | p in leases :: leases[p] == h)
  }

  /** Exactly one host for each VM and each lease, with its MAC and IP, and no other host of ours. */
  ghost predicate Exact(hosts: seq<Host>, machines: Machines, leases: Leases, prefix: string) {
    && (forall h | Want(h, machines, leases, prefix) :: h in hosts && CountNamed(hosts, h.name) == 1)
    && (forall h | h in hosts && prefix <= h.name :: Want(h, machines, leases, prefix))
  }

  /** Exact hosts are those of the VMs, under their prefixed IDs with their MAC and IP, and of the leases. */
  lemma ExactMeaning(hosts: seq<Host>, machines: Machines, leases: Leases, prefix: string)
    requires Exact(hosts, machines, leases, prefix)
    ensures forall id | id in machines :: Host(prefix + id, machines[id].mac, machines[id].ip) in hosts
    ensures forall p | p in leases :: leases[p] in hosts
    ensures forall h | h in hosts && prefix <= h.name ::
      (exists id :: id in machines && h == Host(prefix + id, machines[id].mac, machines[id].ip))
        || (exists p :: p in leases && leases[p] == h)
  {
    forall id | id in machines ensures Host(prefix + id, machines[id].mac, machines[id].ip) in hosts {
      assert Want(HostOf(machines, id, prefix), machines, leases, prefix);
    }
    forall h | h in hosts && prefix <= h.name
      ensures (exists id :: id in machines && h == Host(prefix + id, machines[id].mac, machines[id].ip))
        || (exists p :: p in leases && leases[p] == h)
    {
      assert Want(h, machines, leases, prefix);
    }
  }

  /** No IP of ours is used twice, not even by a foreign host. */
  predicate IPsApart(hosts: seq<Host>, prefix: string) {
    forall g, h | g in hosts && h in hosts && prefix <= g.name && g.ip == h.ip :: g == h
  }

  predicate Prefixed(leases: Leases, prefix: string) {
    forall p | p in leases :: prefix <= leases[p].name
  }

  ghost predicate Inv(s: Net, prefix: string) {
    && s.cached == s.live && Prefixed(s.leases, prefix)
    && Exact(s.cached, s.machines, s.leases, prefix) && IPsApart(s.cached, prefix)
  }

  lemma WantedIffWant(wanted: seq<Host>, machines: Machines, leases: Leases, prefix: string)
    requires IsWanted(wanted, machines, leases, prefix)
    ensures forall h :: h in wanted <==> Want(h, machines, leases, prefix)
    ensures Prefixed(leases, prefix) ==> AllPrefixed(wanted, prefix)
  {
    var ids, order :| IsListing(wanted, ids, order, machines, leases, prefix);
    forall h ensures h in wanted <==> Want(h, machines, leases, prefix) {
      ListedIffWant(wanted, ids, order, machines, leases, prefix, h);
    }
  }

  lemma ListedIffWant(wanted: seq<Host>, ids: seq<string>, order: seq<nat>, machines: Machines, leases: Leases,
                      prefix: string, h: Host)
    requires IsListing(wanted, ids, order, machines, leases, prefix)
    ensures h in wanted <==> Want(h, machines, leases, prefix)
  {
    if id :| id in machines && HostOf(machines, id, prefix) == h {
      var i :| 0 <= i < |ids| && ids[i] == id;
      assert wanted[i] == h;
    }
    if p :| p in leases && leases[p] == h {
      var i :| 0 <= i < |order| && order[i] == p;
      assert wanted[|ids| + i] == h;
    }
  }

  lemma WantedPrefixed(wanted: seq<Host>, machines: Machines, leases: Leases, prefix: string)
    requires IsWanted(wanted, machines, leases, prefix) && Prefixed(leases, prefix)
    ensures AllPrefixed(wanted, prefix)
  {
  }

  lemma RightIffExact(hosts: seq<Host>, wanted: seq<Host>, machines: Machines, leases: Leases, prefix: string)
    requires IsWanted(wanted, machines, leases, prefix)
    ensures Right(hosts, wanted, prefix) <==> Exact(hosts, machines, leases, prefix)
  {
    WantedIffWant(wanted, machines, leases, prefix);
  }

  lemma {:induction false} CountSingle(s: seq<Host>, name: string, i: nat)
    requires i < |s| && s[i].name == name && forall j | 0 <= j < |s| && s[j].name == name :: j == i
    ensures CountNamed(s, name) == 1
  {
    if i == 0 {
      forall j | 0 <= j < |s[1..]| ensures s[1..][j].name != name {
        assert s[1..][j] == s[j + 1];
      }
      NamedIffCounted(s[1..], name);
    } else {
      assert forall j | 0 <= j < |s[1..]| && s[1..][j].name == name :: s[j + 1].name == name;
      CountSingle(s[1..], name, i - 1);
    }
  }

  /** A lease whose name no VM and no other lease has is listed once. */
  lemma NewLeaseOnce(wanted: seq<Host>, s: Net, p: nat, id: string, m: Machine, prefix: string)
    requires FreeName(s, id, prefix) && p !in s.leases
    requires IsWanted(wanted, s.machines, s.leases[p := LeaseFor(id, m, prefix)], prefix)
    ensures CountNamed(wanted, prefix + id) == 1
  {
    var leases := s.leases[p := LeaseFor(id, m, prefix)];
    var ids, order :| IsListing(wanted, ids, order, s.machines, leases, prefix);
    assert p in leases.Keys && p in order;
    var k :| 0 <= k < |order| && order[k] == p;
    assert wanted[|ids| + k].name == prefix + id;
    forall j | 0 <= j < |ids| ensures wanted[j].name != prefix + id {
      assert ids[j] in s.machines && (prefix + ids[j])[|prefix|..] == ids[j] && (prefix + id)[|prefix|..] == id;
    }
    forall j | |ids| <= j < |wanted| && j != |ids| + k ensures wanted[j].name != prefix + id {
      assert order[j - |ids|] in s.leases;
    }
    CountSingle(wanted, prefix + id, |ids| + k);
  }

  /** When every wanted host is there already, a rebuild only removes. */
  lemma RebuildShrinks(s: Net, t: Net, wanted: seq<Host>, prefix: string)
    requires Inv(s, prefix) && Prefixed(t.leases, prefix)
    requires IsWanted(wanted, t.machines, t.leases, prefix)
    requires forall h | Want(h, t.machines, t.leases, prefix) :: Want(h, s.machines, s.leases, prefix)
    ensures Exact(Rebuilt(s.cached, wanted, prefix), t.machines, t.leases, prefix)
    ensures IPsApart(Rebuilt(s.cached, wanted, prefix), prefix)
  {
    WantedIffWant(wanted, t.machines, t.leases, prefix);
    forall w | w in wanted ensures Named(s.cached, w.name) {
      NamedByMember(s.cached, w);
    }
    RightIffSane(s.cached, wanted, prefix);
    RightIffExact(Rebuilt(s.cached, wanted, prefix), wanted, t.machines, t.leases, prefix);
    KeptMeaning(s.cached, wanted, prefix);
    MissingMeaning(s.cached, wanted);
  }

  /** Every host wanted beside a new lease is there already. */
  lemma OthersThere(s: Net, p: nat, lease: Host, w: Host, prefix: string)
    requires Inv(s, prefix) && p !in s.leases && Want(w, s.machines, s.leases[p := lease], prefix) && w != lease
    ensures Named(s.cached, w.name) && w in s.cached && CountNamed(s.cached, w.name) == 1
  {
  }

  lemma RebuildAddsLease(s: Net, t: Net, wanted: seq<Host>, p: nat, id: string, m: Machine, prefix: string)
    requires Inv(s, prefix) && p !in s.leases && FreeName(s, id, prefix)
    requires t.machines == s.machines && t.leases == s.leases[p := LeaseFor(id, m, prefix)]
    requires IsWanted(wanted, t.machines, t.leases, prefix)
    ensures Exact(Rebuilt(s.cached, wanted, prefix), t.machines, t.leases, prefix)
  {
    var lease := LeaseFor(id, m, prefix);
    WantedPrefixed(wanted, t.machines, t.leases, prefix);
    assert Sane(s.cached, wanted) by {
      WantedIffWant(wanted, t.machines, t.leases, prefix);
      NewLeaseOnce(wanted, s, p, id, m, prefix);
      NameNotUsed(s, id, prefix);
      forall w | w in wanted && w != lease
        ensures Named(s.cached, w.name) && w in s.cached && CountNamed(s.cached, w.name) == 1
      {
        OthersThere(s, p, lease, w, prefix);
      }
    }
    RightIffSane(s.cached, wanted, prefix);
    RightIffExact(Rebuilt(s.cached, wanted, prefix), wanted, t.machines, t.leases, prefix);
  }

  lemma LeaseIPsApart(s: Net, t: Net, wanted: seq<Host>, p: nat, id: string, m: Machine, prefix: string)
    requires Inv(s, prefix) && p !in s.leases && FreeIP(s, m.ip)
    requires t.machines == s.machines && t.leases == s.leases[p := LeaseFor(id, m, prefix)]
    requires IsWanted(wanted, t.machines, t.leases, prefix)
    ensures IPsApart(Rebuilt(s.cached, wanted, prefix), prefix)
  {
    var lease := LeaseFor(id, m, prefix);
    WantedIffWant(wanted, t.machines, t.leases, prefix);
    KeptMeaning(s.cached, wanted, prefix);
    MissingMeaning(s.cached, wanted);
    forall h | h in Rebuilt(s.cached, wanted, prefix) ensures h in s.cached || h == lease {
      if h in Missing(s.cached, wanted) && h != lease {
        OthersThere(s, p, lease, h, prefix);
      }
    }
  }

  lemma NameNotUsed(s: Net, id: string, prefix: string)
    requires Inv(s, prefix) && FreeName(s, id, prefix)
    ensures !Named(s.cached, prefix + id)
  {
    forall i | 0 <= i < |s.cached| ensures s.cached[i].name != prefix + id {
      var h := s.cached[i];
      assert h in s.cached;
      if prefix <= h.name {
        assert Want(h, s.machines, s.leases, prefix);
        forall x | x in s.machines && HostOf(s.machines, x, prefix) == h ensures h.name != prefix + id {
          assert (prefix + x)[|prefix|..] == x && (prefix + id)[|prefix|..] == id;
        }
      }
    }
  }

  /** A VM in place of its lease wants the same host. */
  lemma CommitWantsSame(s: Net, p: nat, id: string, h: Host, prefix: string)
    requires p in s.leases && s.leases[p].name == prefix + id && id !in s.machines
    ensures Want(h, s.machines[id := Machine(s.leases[p].mac, s.leases[p].ip)], s.leases, prefix) <==>
      Want(h, s.machines, s.leases, prefix)
  {
    var machines := s.machines[id := Machine(s.leases[p].mac, s.leases[p].ip)];
    assert HostOf(machines, id, prefix) == s.leases[p];
    if x :| x in s.machines && HostOf(s.machines, x, prefix) == h {
      assert HostOf(machines, x, prefix) == h;
    }
  }

  lemma CommitKeepsInv(s: Net, p: nat, id: string, t: Net, prefix: string)
    requires Inv(s, prefix) && Next(s, Commit(p, id), t, prefix)
    ensures Inv(t, prefix)
  {
    forall h ensures Want(h, t.machines, t.leases, prefix) <==> Want(h, s.machines, s.leases, prefix) {
      CommitWantsSame(s, p, id, h, prefix);
    }
  }

  lemma RebuildGives(s: Net, t: Net, prefix: string) returns (wanted: seq<Host>)
    requires s.cached == s.live && RebuildOK(s, t, prefix)
    ensures IsWanted(wanted, t.machines, t.leases, prefix)
    ensures t.cached == t.live == Rebuilt(s.cached, wanted, prefix)
  {
    wanted :| IsWanted(wanted, t.machines, t.leases, prefix)
      && t.live == Apply(s.live, Updates(s.cached, wanted, prefix));
    DhcpHosts.ApplyUpdates(s.cached, wanted, prefix);
  }

  lemma BeginKeepsInv(s: Net, p: nat, id: string, m: Machine, t: Net, prefix: string)
    requires Inv(s, prefix) && Next(s, Begin(p, id, m), t, prefix) && FreeName(s, id, prefix) && FreeIP(s, m.ip)
    ensures Inv(t, prefix) && Foreign(t.live, prefix) == Foreign(s.live, prefix)
  {
    var wanted := RebuildGives(s, t, prefix);
    RebuildAddsLease(s, t, wanted, p, id, m, prefix);
    LeaseIPsApart(s, t, wanted, p, id, m, prefix);
    WantedPrefixed(wanted, t.machines, t.leases, prefix);
    ForeignUntouched(s.cached, wanted, prefix);
  }

  /** Fewer VMs and fewer leases want fewer hosts. */
  lemma WantsFewer(machines: Machines, leases: Leases, m: Machines, l: Leases, prefix: string)
    requires forall x | x in m :: x in machines && m[x] == machines[x]
    requires forall p | p in l :: p in leases && l[p] == leases[p]
    ensures forall h | Want(h, m, l, prefix) :: Want(h, machines, leases, prefix)
  {
    forall h | Want(h, m, l, prefix) ensures Want(h, machines, leases, prefix) {
      if x :| x in m && HostOf(m, x, prefix) == h {
        assert HostOf(machines, x, prefix) == h;
      }
    }
  }

  lemma ShrinkKeepsInv(s: Net, t: Net, prefix: string)
    requires Inv(s, prefix) && RebuildOK(s, t, prefix)
    requires forall x | x in t.machines :: x in s.machines && t.machines[x] == s.machines[x]
    requires forall p | p in t.leases :: p in s.leases && t.leases[p] == s.leases[p]
    ensures Inv(t, prefix) && Foreign(t.live, prefix) == Foreign(s.live, prefix)
  {
    WantsFewer(s.machines, s.leases, t.machines, t.leases, prefix);
    ShrinkToInv(s, t, prefix);
  }

  lemma ShrinkToInv(s: Net, t: Net, prefix: string)
    requires Inv(s, prefix) && RebuildOK(s, t, prefix) && Prefixed(t.leases, prefix)
    requires forall h | Want(h, t.machines, t.leases, prefix) :: Want(h, s.machines, s.leases, prefix)
    ensures Inv(t, prefix) && Foreign(t.live, prefix) == Foreign(s.live, prefix)
  {
    var wanted := RebuildGives(s, t, prefix);
    RebuildShrinks(s, t, wanted, prefix);
    WantedPrefixed(wanted, t.machines, t.leases, prefix);
    ForeignUntouched(s.cached, wanted, prefix);
  }

  /** A new lease has a name and an IP of its own, or is exactly the host that a VM or lease has. */
  predicate Unambiguous(s: Net, step: Step, prefix: string) {
    step.Begin? ==>
      || (FreeName(s, step.id, prefix) && FreeIP(s, step.machine.ip))
      || Want(LeaseFor(step.id, step.machine, prefix), s.machines, s.leases, prefix)
  }

  lemma WantWithLease(s: Net, p: nat, lease: Host, h: Host, prefix: string)
    requires p !in s.leases
    ensures Want(h, s.machines, s.leases[p := lease], prefix) <==> Want(h, s.machines, s.leases, prefix) || h == lease
  {
    if q :| q in s.leases && s.leases[q] == h {
      assert s.leases[p := lease][q] == h;
    }
    if h == lease {
      assert s.leases[p := lease][p] == h;
    }
  }

  lemma SameLeaseKeepsInv(s: Net, p: nat, id: string, m: Machine, t: Net, prefix: string)
    requires Inv(s, prefix) && Next(s, Begin(p, id, m), t, prefix)
    requires Want(LeaseFor(id, m, prefix), s.machines, s.leases, prefix)
    ensures Inv(t, prefix) && Foreign(t.live, prefix) == Foreign(s.live, prefix)
  {
    forall h ensures Want(h, t.machines, t.leases, prefix) ==> Want(h, s.machines, s.leases, prefix) {
      WantWithLease(s, p, LeaseFor(id, m, prefix), h, prefix);
    }
    ShrinkToInv(s, t, prefix);
  }

  lemma StepKeepsInv(s: Net, step: Step, t: Net, prefix: string)
    requires Inv(s, prefix) && Next(s, step, t, prefix) && Unambiguous(s, step, prefix)
    ensures Inv(t, prefix) && Foreign(t.live, prefix) == Foreign(s.live, prefix)
  {
    match step
    case Begin(p, id, m) =>
      if Want(LeaseFor(id, m, prefix), s.machines, s.leases, prefix) {
        SameLeaseKeepsInv(s, p, id, m, t, prefix);
      } else {
        BeginKeepsInv(s, p, id, m, t, prefix);
      }
    case Commit(p, id) => CommitKeepsInv(s, p, id, t, prefix);
    case _ => ShrinkKeepsInv(s, t, prefix);
  }

  /** A host that is wanted beside one of its name, in exact hosts, is that one. */
  lemma OneOfName(hosts: seq<Host>, machines: Machines, leases: Leases, prefix: string, g: Host, h: Host)
    requires Exact(hosts, machines, leases, prefix) && g.name == h.name
    requires Want(g, machines, leases, prefix) && Want(h, machines, leases, prefix)
    ensures g == h
  {
    OnlyOne(hosts, g, h);
  }

  /** If hosts stay right, the new lease was unambiguous. */
  lemma InvNeedsUnambiguous(s: Net, step: Step, t: Net, prefix: string)
    requires Inv(s, prefix) && Inv(t, prefix) && Allowed(s, step, prefix) && step.Begin?
    requires t.machines == s.machines && t.leases == LeasesAfter(s, step, prefix)
    requires Foreign(t.live, prefix) == Foreign(s.live, prefix)
    ensures Unambiguous(s, step, prefix)
  {
    var lease := LeaseFor(step.id, step.machine, prefix);
    forall h ensures Want(h, t.machines, t.leases, prefix) <==> Want(h, s.machines, s.leases, prefix) || h == lease {
      WantWithLease(s, step.pointer, lease, h, prefix);
    }
    if !Want(lease, s.machines, s.leases, prefix) {
      NameWasFree(s, t, step.id, lease, prefix);
      IPWasFree(s, t, lease, prefix);
    }
  }

  lemma NameWasFree(s: Net, t: Net, id: string, lease: Host, prefix: string)
    requires Inv(t, prefix) && lease.name == prefix + id && !Want(lease, s.machines, s.leases, prefix)
    requires forall h :: Want(h, t.machines, t.leases, prefix) <==> Want(h, s.machines, s.leases, prefix) || h == lease
    ensures FreeName(s, id, prefix)
  {
    if id in s.machines {
      assert Want(HostOf(s.machines, id, prefix), s.machines, s.leases, prefix);
      OneOfName(t.cached, t.machines, t.leases, prefix, HostOf(s.machines, id, prefix), lease);
    }
    forall q | q in s.leases ensures s.leases[q].name != prefix + id {
      assert Want(s.leases[q], s.machines, s.leases, prefix);
      if s.leases[q].name == prefix + id {
        OneOfName(t.cached, t.machines, t.leases, prefix, s.leases[q], lease);
      }
    }
  }

  lemma IPWasFree(s: Net, t: Net, lease: Host, prefix: string)
    requires Inv(s, prefix) && Inv(t, prefix) && prefix <= lease.name && !Want(lease, s.machines, s.leases, prefix)
    requires forall h :: Want(h, t.machines, t.leases, prefix) <==> Want(h, s.machines, s.leases, prefix) || h == lease
    requires Foreign(t.live, prefix) == Foreign(s.live, prefix)
    ensures FreeIP(s, lease.ip)
  {
    assert lease in t.cached;
    ForeignMeaning(s.cached, prefix);
    ForeignMeaning(t.cached, prefix);
    forall h | h in s.cached ensures h in t.cached && h != lease {
      if prefix <= h.name {
        assert Want(h, s.machines, s.leases, prefix);
      } else {
        assert h in Foreign(s.cached, prefix);
      }
    }
    forall x | x in s.machines ensures s.machines[x].ip != lease.ip {
      assert Want(HostOf(s.machines, x, prefix), s.machines, s.leases, prefix);
    }
  }

  lemma {:induction false} ForeignMeaning(hosts: seq<Host>, prefix: string)
    ensures forall h :: h in Foreign(hosts, prefix) <==> h in hosts && !(prefix <= h.name)
  {
    if hosts != [] {
      ForeignMeaning(hosts[1..], prefix);
      assert hosts == [hosts[0]] + hosts[1..];
    }
  }

  /** A free name is that of no wanted host. */
  lemma NotWanted(s: Net, id: string, h: Host, prefix: string)
    requires FreeName(s, id, prefix) && h.name == prefix + id
    ensures !Want(h, s.machines, s.leases, prefix)
  {
    forall x | x in s.machines ensures HostOf(s.machines, x, prefix) != h {
      assert (prefix + x)[|prefix|..] == x && (prefix + id)[|prefix|..] == id;
    }
  }
}
