/** Static DHCP hosts of the libvirt network: a rebuild makes them follow the VM database and
    the transient leases of VMs under construction. */
module DhcpHosts {
  datatype Host = Host(name: string, mac: string, ip: string)

  predicate Named(hosts: seq<Host>, name: string) {
    exists i | 0 <= i < |hosts| :: hosts[i].name == name
  }

  lemma NamedByMember(hosts: seq<Host>, h: Host)
    requires h in hosts
    ensures Named(hosts, h.name)
  {
  }

  function CountNamed(hosts: seq<Host>, name: string): nat {
    if hosts == [] then 0 else (if hosts[0].name == name then 1 else 0) + CountNamed(hosts[1..], name)
  }

  // `wanted` lists the hosts of the database and of the leases; their names have the prefix.

  predicate Obsolete(h: Host, wanted: seq<Host>, prefix: string) {
    prefix <= h.name && !Named(wanted, h.name)
  }

  function Obsoletes(hosts: seq<Host>, wanted: seq<Host>, prefix: string): seq<Host> {
    if hosts == [] then []
    else if Obsolete(hosts[0], wanted, prefix) then [hosts[0]] + Obsoletes(hosts[1..], wanted, prefix)
    else Obsoletes(hosts[1..], wanted, prefix)
  }

  function Kept(hosts: seq<Host>, wanted: seq<Host>, prefix: string): seq<Host> {
    if hosts == [] then []
    else if Obsolete(hosts[0], wanted, prefix) then Kept(hosts[1..], wanted, prefix)
    else [hosts[0]] + Kept(hosts[1..], wanted, prefix)
  }

  /** The wanted hosts whose name is not taken yet. */
  function Missing(hosts: seq<Host>, wanted: seq<Host>): seq<Host> {
    if wanted == [] then []
    else if Named(hosts, wanted[0].name) then Missing(hosts, wanted[1..])
    else [wanted[0]] + Missing(hosts, wanted[1..])
  }

  /** The hosts after a rebuild that starts from a faithful view of the network. */
  function Rebuilt(hosts: seq<Host>, wanted: seq<Host>, prefix: string): seq<Host> {
    Kept(hosts, wanted, prefix) + Missing(hosts, wanted)
  }

  // -- updates of the network -----------------------------------------------

  datatype Update = Remove(host: Host) | Append(host: Host)

  function RemoveFirst(hosts: seq<Host>, h: Host): seq<Host> {
    if hosts == [] then [] else if hosts[0] == h then hosts[1..] else [hosts[0]] + RemoveFirst(hosts[1..], h)
  }

  function ApplyOne(hosts: seq<Host>, update: Update): seq<Host> {
    match update
    case Remove(h) => RemoveFirst(hosts, h)
    case Append(h) => hosts + [h]
  }

  function Apply(hosts: seq<Host>, updates: seq<Update>): seq<Host>
    decreases |updates|
  {
    if updates == [] then hosts else Apply(ApplyOne(hosts, updates[0]), updates[1..])
  }

  function Removals(hosts: seq<Host>): seq<Update> {
    seq(|hosts|, i requires 0 <= i < |hosts| => Remove(hosts[i]))
  }

  function Additions(hosts: seq<Host>): seq<Update> {
    seq(|hosts|, i requires 0 <= i < |hosts| => Append(hosts[i]))
  }

  function Updates(hosts: seq<Host>, wanted: seq<Host>, prefix: string): seq<Update> {
    Removals(Obsoletes(hosts, wanted, prefix)) + Additions(Missing(hosts, wanted))
  }

  lemma {:induction false} ApplyConcat(hosts: seq<Host>, a: seq<Update>, b: seq<Update>)
    ensures Apply(hosts, a + b) == Apply(Apply(hosts, a), b)
    decreases |a|
  {
    if a == [] {
      assert a + b == b;
    } else {
      assert (a + b)[1..] == a[1..] + b;
      ApplyConcat(ApplyOne(hosts, a[0]), a[1..], b);
    }
  }

  lemma {:induction false} ApplyAdditions(hosts: seq<Host>, added: seq<Host>)
    ensures Apply(hosts, Additions(added)) == hosts + added
    decreases |added|
  {
    if added == [] {
      assert hosts + added == hosts;
    } else {
      assert Additions(added)[1..] == Additions(added[1..]);
      ApplyAdditions(hosts + [added[0]], added[1..]);
      assert hosts + [added[0]] + added[1..] == hosts + added;
    }
  }

  /** Removing hosts that are not the first one leaves it in place. */
  lemma {:induction false} ApplyBehind(first: Host, hosts: seq<Host>, removed: seq<Host>)
    requires first !in removed
    ensures Apply([first] + hosts, Removals(removed)) == [first] + Apply(hosts, Removals(removed))
    decreases |removed|
  {
    if removed != [] {
      assert Removals(removed)[1..] == Removals(removed[1..]);
      assert ([first] + hosts)[1..] == hosts;
      assert RemoveFirst([first] + hosts, removed[0]) == [first] + RemoveFirst(hosts, removed[0]);
      ApplyBehind(first, RemoveFirst(hosts, removed[0]), removed[1..]);
    }
  }

  lemma {:induction false} ObsoletesAreObsolete(hosts: seq<Host>, wanted: seq<Host>, prefix: string)
    ensures forall h | h in Obsoletes(hosts, wanted, prefix) :: Obsolete(h, wanted, prefix)
  {
    if hosts != [] {
      ObsoletesAreObsolete(hosts[1..], wanted, prefix);
    }
  }

  lemma {:induction false} ApplyRemovals(hosts: seq<Host>, wanted: seq<Host>, prefix: string)
    ensures Apply(hosts, Removals(Obsoletes(hosts, wanted, prefix))) == Kept(hosts, wanted, prefix)
  {
    if hosts == [] {
      assert Removals([]) == [];
    } else {
      var rest := Obsoletes(hosts[1..], wanted, prefix);
      ApplyRemovals(hosts[1..], wanted, prefix);
      if Obsolete(hosts[0], wanted, prefix) {
        assert Removals([hosts[0]] + rest)[1..] == Removals(rest);
        assert RemoveFirst(hosts, hosts[0]) == hosts[1..];
      } else {
        ObsoletesAreObsolete(hosts[1..], wanted, prefix);
        ApplyBehind(hosts[0], hosts[1..], rest);
        assert hosts == [hosts[0]] + hosts[1..];
      }
    }
  }

  /** All updates of a rebuild, applied to the network they were computed from. */
  lemma ApplyUpdates(hosts: seq<Host>, wanted: seq<Host>, prefix: string)
    ensures Apply(hosts, Updates(hosts, wanted, prefix)) == Rebuilt(hosts, wanted, prefix)
  {
    ApplyConcat(hosts, Removals(Obsoletes(hosts, wanted, prefix)), Additions(Missing(hosts, wanted)));
    ApplyRemovals(hosts, wanted, prefix);
    ApplyAdditions(Kept(hosts, wanted, prefix), Missing(hosts, wanted));
  }

  // -- refused updates ------------------------------------------------------

  /** Libvirt refuses the update number `failAt`, and to remove a host that is not there. */
  predicate Refused(hosts: seq<Host>, update: Update, failing: bool) {
    failing || (update.Remove? && update.host !in hosts)
  }

  /** The answers during one rebuild of the DHCP hosts: the connection, the number of the update that
      libvirt refuses, and the final reading. */
  datatype Rebuilding = Rebuilding(connected: bool, failAt: int, described: bool)

  /** How many updates are made before one is refused. */
  function Accepted(hosts: seq<Host>, updates: seq<Update>, failAt: int): (n: nat)
    ensures n <= |updates|
    decreases |updates|
  {
    if updates == [] || Refused(hosts, updates[0], failAt == 0) then 0
    else 1 + Accepted(ApplyOne(hosts, updates[0]), updates[1..], failAt - 1)
  }

  lemma {:induction false} AcceptedAdditions(hosts: seq<Host>, added: seq<Host>, failAt: int)
    ensures Accepted(hosts, Additions(added), failAt) == if 0 <= failAt < |added| then failAt else |added|
    decreases |added|
  {
    if added != [] && failAt != 0 {
      assert Additions(added)[1..] == Additions(added[1..]);
      AcceptedAdditions(hosts + [added[0]], added[1..], failAt - 1);
    }
  }

  lemma {:induction false} RemoveFirstCount(hosts: seq<Host>, h: Host)
    requires h in hosts
    ensures multiset(RemoveFirst(hosts, h)) == multiset(hosts) - multiset{h}
  {
    assert hosts == [hosts[0]] + hosts[1..];
    if hosts[0] != h {
      RemoveFirstCount(hosts[1..], h);
    }
  }

  lemma {:induction false} ObsoletesPresent(hosts: seq<Host>, wanted: seq<Host>, prefix: string)
    ensures multiset(Obsoletes(hosts, wanted, prefix)) <= multiset(hosts)
  {
    if hosts != [] {
      assert hosts == [hosts[0]] + hosts[1..];
      ObsoletesPresent(hosts[1..], wanted, prefix);
    }
  }

  lemma TailPresent(hosts: seq<Host>, removed: seq<Host>)
    requires removed != [] && multiset(removed) <= multiset(hosts)
    ensures removed[0] in hosts && multiset(removed[1..]) <= multiset(RemoveFirst(hosts, removed[0]))
  {
    assert removed == [removed[0]] + removed[1..];
    assert removed[0] in multiset(removed);
    RemoveFirstCount(hosts, removed[0]);
  }

  lemma TailRemovals(removed: seq<Host>, added: seq<Host>)
    requires removed != []
    ensures var updates := Removals(removed) + Additions(added);
      updates[0] == Remove(removed[0]) && updates[1..] == Removals(removed[1..]) + Additions(added)
  {
  }

  lemma {:induction false} AcceptedAll(hosts: seq<Host>, removed: seq<Host>, added: seq<Host>, failAt: int)
    requires multiset(removed) <= multiset(hosts)
    ensures var updates := Removals(removed) + Additions(added);
      Accepted(hosts, updates, failAt) == if 0 <= failAt < |updates| then failAt else |updates|
    decreases |removed|
  {
    var updates := Removals(removed) + Additions(added);
    if removed == [] {
      assert updates == Additions(added);
      AcceptedAdditions(hosts, added, failAt);
    } else if failAt != 0 {
      TailPresent(hosts, removed);
      TailRemovals(removed, added);
      AcceptedAll(RemoveFirst(hosts, removed[0]), removed[1..], added, failAt - 1);
    }
  }

  /** No update computed from a faithful view of the network is refused for lack of its host: only
      the answer of libvirt itself can stop a rebuild. */
  lemma FaithfulAccepted(hosts: seq<Host>, wanted: seq<Host>, prefix: string, failAt: int)
    ensures var updates := Updates(hosts, wanted, prefix);
      Accepted(hosts, updates, failAt) == if 0 <= failAt < |updates| then failAt else |updates|
  {
    ObsoletesPresent(hosts, wanted, prefix);
    AcceptedAll(hosts, Obsoletes(hosts, wanted, prefix), Missing(hosts, wanted), failAt);
  }

  /** A rebuild: the connection, any update and the final reading may fail; the cached hosts are
      only refreshed at the very end. */
  predicate RebuildStep(live0: seq<Host>, cached0: seq<Host>, live: seq<Host>, cached: seq<Host>, updates: seq<Update>,
                        ok: bool, answers: Rebuilding)
  {
    var n := if answers.connected then Accepted(live0, updates, answers.failAt) else 0;
    && live == Apply(live0, updates[..n])
    && (ok <==> answers.connected && n == |updates| && answers.described)
    && cached == (if ok then live else cached0)
  }

  lemma RebuildDone(live0: seq<Host>, cached0: seq<Host>, live: seq<Host>, cached: seq<Host>, updates: seq<Update>,
                    answers: Rebuilding)
    requires RebuildStep(live0, cached0, live, cached, updates, true, answers)
    ensures cached == live == Apply(live0, updates)
  {
    assert updates[..|updates|] == updates;
  }

  // -- what a rebuild achieves ----------------------------------------------

  lemma {:induction false} CountConcat(a: seq<Host>, b: seq<Host>, name: string)
    ensures CountNamed(a + b, name) == CountNamed(a, name) + CountNamed(b, name)
  {
    if a == [] {
      assert a + b == b;
    } else {
      assert (a + b)[1..] == a[1..] + b;
      CountConcat(a[1..], b, name);
    }
  }

  lemma {:induction false} NamedIffCounted(s: seq<Host>, name: string)
    ensures Named(s, name) <==> CountNamed(s, name) > 0
  {
    if s != [] {
      NamedIffCounted(s[1..], name);
      if Named(s, name) && s[0].name != name {
        var i :| 0 <= i < |s| && s[i].name == name;
        assert s[1..][i - 1].name == name;
      }
    }
  }

  lemma {:induction false} OnlyOne(s: seq<Host>, a: Host, b: Host)
    requires a in s && b in s && a.name == b.name && CountNamed(s, a.name) == 1
    ensures a == b
  {
    if s[0].name == a.name {
      forall h | h in s[1..] ensures h.name != a.name {
        NamedIffCounted(s[1..], a.name);
        var i :| 0 <= i < |s[1..]| && s[1..][i] == h;
      }
      assert s == [s[0]] + s[1..];
    } else {
      OnlyOne(s[1..], a, b);
    }
  }

  lemma {:induction false} KeptMeaning(hosts: seq<Host>, wanted: seq<Host>, prefix: string)
    ensures forall h :: h in Kept(hosts, wanted, prefix) <==> h in hosts && !Obsolete(h, wanted, prefix)
  {
    if hosts != [] {
      KeptMeaning(hosts[1..], wanted, prefix);
      assert hosts == [hosts[0]] + hosts[1..];
    }
  }

  lemma {:induction false} MissingMeaning(hosts: seq<Host>, wanted: seq<Host>)
    ensures forall h :: h in Missing(hosts, wanted) <==> h in wanted && !Named(hosts, h.name)
  {
    if wanted != [] {
      MissingMeaning(hosts, wanted[1..]);
      assert wanted == [wanted[0]] + wanted[1..];
    }
  }

  lemma {:induction false} KeptCount(hosts: seq<Host>, wanted: seq<Host>, prefix: string, name: string)
    requires prefix <= name
    ensures CountNamed(Kept(hosts, wanted, prefix), name) == if Named(wanted, name) then CountNamed(hosts, name) else 0
  {
    if hosts != [] {
      KeptCount(hosts[1..], wanted, prefix, name);
      CountConcat([hosts[0]], Kept(hosts[1..], wanted, prefix), name);
    }
  }

  lemma {:induction false} MissingCount(hosts: seq<Host>, wanted: seq<Host>, name: string)
    ensures CountNamed(Missing(hosts, wanted), name) == if Named(hosts, name) then 0 else CountNamed(wanted, name)
  {
    if wanted != [] {
      MissingCount(hosts, wanted[1..], name);
      CountConcat([wanted[0]], Missing(hosts, wanted[1..]), name);
    }
  }

  predicate AllPrefixed(wanted: seq<Host>, prefix: string) {
    forall w | w in wanted :: prefix <= w.name
  }

  /** Each wanted host is there, alone of its name, and nothing else has the prefix. */
  predicate Right(hosts: seq<Host>, wanted: seq<Host>, prefix: string) {
    && (forall w | w in wanted :: w in hosts && CountNamed(hosts, w.name) == 1)
    && (forall h | h in hosts && prefix <= h.name :: h in wanted)
  }

  /** For each VM or lease, either the network has one host of that name, the right one; or it has
      none, and no other VM or lease has that name. */
  predicate Sane(hosts: seq<Host>, wanted: seq<Host>) {
    forall w | w in wanted ::
      if Named(hosts, w.name) then w in hosts && CountNamed(hosts, w.name) == 1 else CountNamed(wanted, w.name) == 1
  }

  lemma WantedAfter(hosts: seq<Host>, wanted: seq<Host>, prefix: string, w: Host)
    requires AllPrefixed(wanted, prefix) && w in wanted
    ensures var after := Rebuilt(hosts, wanted, prefix);
      && CountNamed(after, w.name) ==
           (if Named(hosts, w.name) then CountNamed(hosts, w.name) else CountNamed(wanted, w.name))
      && (w in after <==> w in hosts || !Named(hosts, w.name))
  {
    var i :| 0 <= i < |wanted| && wanted[i] == w;
    assert Named(wanted, w.name);
    KeptCount(hosts, wanted, prefix, w.name);
    MissingCount(hosts, wanted, w.name);
    CountConcat(Kept(hosts, wanted, prefix), Missing(hosts, wanted), w.name);
    NamedIffCounted(hosts, w.name);
    KeptMeaning(hosts, wanted, prefix);
    MissingMeaning(hosts, wanted);
    if w in hosts {
      var j :| 0 <= j < |hosts| && hosts[j] == w;
    }
  }

  /** A successful rebuild leaves exactly one host for each VM or lease, with its MAC and IP, and
      no other host with the prefix, if and only if the network and the leases were sane. */
  lemma RightIffSane(hosts: seq<Host>, wanted: seq<Host>, prefix: string)
    requires AllPrefixed(wanted, prefix)
    ensures Right(Rebuilt(hosts, wanted, prefix), wanted, prefix) <==> Sane(hosts, wanted)
  {
    var after := Rebuilt(hosts, wanted, prefix);
    forall w | w in wanted
      ensures CountNamed(after, w.name)
        == (if Named(hosts, w.name) then CountNamed(hosts, w.name) else CountNamed(wanted, w.name))
      ensures w in after <==> w in hosts || !Named(hosts, w.name)
    {
      WantedAfter(hosts, wanted, prefix, w);
    }
    if Sane(hosts, wanted) {
      forall h | h in after && prefix <= h.name ensures h in wanted {
        KeptMeaning(hosts, wanted, prefix);
        MissingMeaning(hosts, wanted);
        if h in Kept(hosts, wanted, prefix) {
          var i :| 0 <= i < |wanted| && wanted[i].name == h.name;
          var j :| 0 <= j < |hosts| && hosts[j] == h;
          assert wanted[i] in wanted && Named(hosts, h.name);
          OnlyOne(hosts, wanted[i], h);
        }
      }
    }
  }

  lemma {:induction false} NothingToDo(hosts: seq<Host>, wanted: seq<Host>, all: seq<Host>, prefix: string)
    requires forall h | h in hosts :: !Obsolete(h, all, prefix)
    requires forall w | w in wanted :: Named(hosts, w.name)
    ensures Kept(hosts, all, prefix) == hosts && Obsoletes(hosts, all, prefix) == []
    ensures Missing(hosts, wanted) == []
  {
    KeepAll(hosts, all, prefix);
    MissNone(hosts, wanted);
  }

  lemma {:induction false} KeepAll(hosts: seq<Host>, all: seq<Host>, prefix: string)
    requires forall h | h in hosts :: !Obsolete(h, all, prefix)
    ensures Kept(hosts, all, prefix) == hosts && Obsoletes(hosts, all, prefix) == []
  {
    if hosts != [] {
      KeepAll(hosts[1..], all, prefix);
    }
  }

  lemma {:induction false} MissNone(hosts: seq<Host>, wanted: seq<Host>)
    requires forall w | w in wanted :: Named(hosts, w.name)
    ensures Missing(hosts, wanted) == []
  {
    if wanted != [] {
      MissNone(hosts, wanted[1..]);
    }
  }

  function Foreign(hosts: seq<Host>, prefix: string): seq<Host> {
    if hosts == [] then []
    else if prefix <= hosts[0].name then Foreign(hosts[1..], prefix)
    else [hosts[0]] + Foreign(hosts[1..], prefix)
  }

  lemma {:induction false} ForeignConcat(a: seq<Host>, b: seq<Host>, prefix: string)
    ensures Foreign(a + b, prefix) == Foreign(a, prefix) + Foreign(b, prefix)
  {
    if a == [] {
      assert a + b == b;
    } else {
      assert (a + b)[1..] == a[1..] + b;
      ForeignConcat(a[1..], b, prefix);
    }
  }

  lemma {:induction false} KeptForeign(hosts: seq<Host>, wanted: seq<Host>, prefix: string)
    ensures Foreign(Kept(hosts, wanted, prefix), prefix) == Foreign(hosts, prefix)
  {
    if hosts != [] {
      KeptForeign(hosts[1..], wanted, prefix);
      ForeignConcat([hosts[0]], Kept(hosts[1..], wanted, prefix), prefix);
    }
  }

  lemma {:induction false} NoneForeign(hosts: seq<Host>, prefix: string)
    requires forall h | h in hosts :: prefix <= h.name
    ensures Foreign(hosts, prefix) == []
  {
    if hosts != [] {
      NoneForeign(hosts[1..], prefix);
    }
  }

  /** Hosts without the prefix are left alone, in order. */
  lemma ForeignUntouched(hosts: seq<Host>, wanted: seq<Host>, prefix: string)
    requires AllPrefixed(wanted, prefix)
    ensures Foreign(Rebuilt(hosts, wanted, prefix), prefix) == Foreign(hosts, prefix)
  {
    MissingMeaning(hosts, wanted);
    NoneForeign(Missing(hosts, wanted), prefix);
    ForeignConcat(Kept(hosts, wanted, prefix), Missing(hosts, wanted), prefix);
    KeptForeign(hosts, wanted, prefix);
  }

  // -- the reconciler -------------------------------------------------------

  datatype Machine = Machine(mac: string, ip: string)

  /** The VM database, as far as leases are concerned. */
  type Machines = map<string, Machine>

  /** Transient leases, by the address of the host that stands for each. */
  type Leases = map<nat, Host>

  function HostOf(machines: Machines, id: string, prefix: string): Host
    requires id in machines
  {
    Host(prefix + id, machines[id].mac, machines[id].ip)
  }

  function HostsOf(machines: Machines, ids: seq<string>, prefix: string): seq<Host>
    requires forall i | 0 <= i < |ids| :: ids[i] in machines
  {
    seq(|ids|, i requires 0 <= i < |ids| => HostOf(machines, ids[i], prefix))
  }

  function LeasesOf(leases: Leases, order: seq<nat>): seq<Host>
    requires forall i | 0 <= i < |order| :: order[i] in leases
  {
    seq(|order|, i requires 0 <= i < |order| => leases[order[i]])
  }

  ghost predicate Lists<T(!new)>(s: seq<T>, all: set<T>) {
    (forall x :: x in s <==> x in all) && (forall i, j | 0 <= i < j < |s| :: s[i] != s[j])
  }

  ghost predicate IsListing(wanted: seq<Host>, ids: seq<string>, order: seq<nat>, machines: Machines, leases: Leases,
                            prefix: string)
  {
    && Lists(ids, machines.Keys) && (forall i | 0 <= i < |ids| :: ids[i] in machines)
    && Lists(order, leases.Keys) && (forall i | 0 <= i < |order| :: order[i] in leases)
    && wanted == HostsOf(machines, ids, prefix) + LeasesOf(leases, order)
  }

  /** Every VM and every lease once, in any order. */
  ghost predicate IsWanted(wanted: seq<Host>, machines: Machines, leases: Leases, prefix: string) {
    exists ids, order :: IsListing(wanted, ids, order, machines, leases, prefix)
  }

  predicate InUse(machines: Machines, leases: Leases, prefix: string, name: string)
    requires prefix <= name
  {
    name[|prefix|..] in machines || exists p | p in leases :: leases[p].name == name
  }

  class Libvirt {
    const prefix: string
    var leases: Leases
    /** NetworkXML: the hosts as they were read from the network last. */
    var cached: seq<Host>
    /** What the network really has. */
    var live: seq<Host>

    constructor (prefix: string, live: seq<Host>)
      ensures this.prefix == prefix && leases == map[] && cached == this.live == live
    {
      this.prefix, leases, cached, this.live := prefix, map[], live, live;
    }

    /** GetNames: the VMs of the database, in any order. */
    method Names(machines: Machines) returns (ids: seq<string>)
      ensures Lists(ids, machines.Keys) && forall i | 0 <= i < |ids| :: ids[i] in machines
    {
      ids := [];
      var todo := machines.Keys;
      while todo != {}
        invariant todo <= machines.Keys && forall x :: x in ids <==> x in machines && x !in todo
        invariant forall i, j | 0 <= i < j < |ids| :: ids[i] != ids[j]
      {
        var id :| id in todo;
        todo := todo - {id};
        ids := ids + [id];
      }
    }

    method Pointers() returns (order: seq<nat>)
      ensures Lists(order, leases.Keys) && forall i | 0 <= i < |order| :: order[i] in leases
    {
      order := [];
      var todo := leases.Keys;
      while exists p :: p in todo
        invariant todo <= leases.Keys && forall p: nat :: p in order <==> p in leases && p !in todo
        invariant forall i, j | 0 <= i < j < |order| :: order[i] != order[j]
        decreases todo
      {
        var p :| p in todo;
        todo := todo - {p};
        order := order + [p];
      }
    }

    /** Hosts with the prefix that belong to no VM and to no lease. */
    method HostsToDelete(machines: Machines, ghost wanted: seq<Host>) returns (r: seq<Host>)
      requires forall x | prefix <= x :: Named(wanted, x) <==> InUse(machines, leases, prefix, x)
      ensures r == Obsoletes(cached, wanted, prefix)
    {
      r := [];
      for i := 0 to |cached|
        invariant r == Obsoletes(cached[..i], wanted, prefix)
      {
        var h := cached[i];
        ObsoletesSnoc(cached, i, wanted, prefix);
        if prefix <= h.name && !InUse(machines, leases, prefix, h.name) {
          r := r + [h];
        }
      }
      assert cached[..|cached|] == cached;
    }

    /** Those of a list of hosts whose name the network does not have. */
    method NotFound(list: seq<Host>) returns (r: seq<Host>)
      ensures r == Missing(cached, list)
    {
      r := [];
      for i := 0 to |list|
        invariant r == Missing(cached, list[..i])
      {
        var found := false;
        for j := 0 to |cached|
          invariant found <==> exists k | 0 <= k < j :: cached[k].name == list[i].name
        {
          if cached[j].name == list[i].name {
            found := true;
          }
        }
        MissingSnoc(cached, list, i);
        if !found {
          r := r + [list[i]];
        }
      }
      assert list[..|list|] == list;
    }

    /** The updates, up to the first that is refused. */
    method ApplyUpdates(updates: seq<Update>, failAt: int) returns (ok: bool)
      modifies this`live
      ensures live == Apply(old(live), updates[..Accepted(old(live), updates, failAt)])
      ensures ok <==> Accepted(old(live), updates, failAt) == |updates|
    {
      for i := 0 to |updates|
        invariant live == Apply(old(live), updates[..i])
        invariant Accepted(old(live), updates, failAt) == i + Accepted(live, updates[i..], failAt - i)
      {
        assert updates[i..][0] == updates[i] && updates[i..][1..] == updates[i + 1..];
        if i == failAt || (updates[i].Remove? && updates[i].host !in live) {
          return false;
        }
        ApplySnoc(old(live), updates, i);
        live := ApplyOne(live, updates[i]);
      }
      return true;
    }

    /** rebuildDHCPStaticLeases. */
    method Rebuild(machines: Machines, answers: Rebuilding) returns (ok: bool, ghost wanted: seq<Host>)
      modifies this`cached, this`live
      ensures IsWanted(wanted, machines, leases, prefix)
      ensures RebuildStep(old(live), old(cached), live, cached, Updates(old(cached), wanted, prefix), ok, answers)
    {
      var fromDB, fromLeases := WantedHosts(machines);
      wanted := fromDB + fromLeases;
      ghost var all := Updates(cached, wanted, prefix);
      assert Apply(live, all[..0]) == live;
      if !answers.connected {
        return false, wanted;
      }
      var updates := Plan(machines, fromDB, fromLeases);
      ok := ApplyUpdates(updates, answers.failAt);
      if ok && !answers.described {
        return false, wanted;
      }
      if ok {
        cached := live;
      }
    }

    /** The lease stays registered even if the rebuild fails. */
    method AddTransientDHCPHost(pointer: nat, host: Host, machines: Machines, answers: Rebuilding)
      returns (ok: bool, ghost wanted: seq<Host>)
      modifies this
      ensures leases == old(leases)[pointer := host] && IsWanted(wanted, machines, leases, prefix)
      ensures RebuildStep(old(live), old(cached), live, cached, Updates(old(cached), wanted, prefix), ok, answers)
    {
      leases := leases[pointer := host];
      ok, wanted := Rebuild(machines, answers);
    }

    method RemoveTransientDHCPHost(pointer: nat, machines: Machines, answers: Rebuilding)
      returns (ok: bool, ghost wanted: seq<Host>)
      modifies this
      ensures leases == (map p | p in old(leases) && p != pointer :: old(leases)[p])
      ensures IsWanted(wanted, machines, leases, prefix)
      ensures RebuildStep(old(live), old(cached), live, cached, Updates(old(cached), wanted, prefix), ok, answers)
    {
      leases := map p | p in leases && p != pointer :: leases[p];
      ok, wanted := Rebuild(machines, answers);
    }

    method WantedHosts(machines: Machines) returns (fromDB: seq<Host>, fromLeases: seq<Host>)
      ensures IsWanted(fromDB + fromLeases, machines, leases, prefix)
    {
      var ids := Names(machines);
      var order := Pointers();
      fromDB, fromLeases := HostsOf(machines, ids, prefix), LeasesOf(leases, order);
      assert IsListing(fromDB + fromLeases, ids, order, machines, leases, prefix);
    }

    method Plan(machines: Machines, fromDB: seq<Host>, fromLeases: seq<Host>) returns (updates: seq<Update>)
      requires IsWanted(fromDB + fromLeases, machines, leases, prefix)
      ensures updates == Updates(cached, fromDB + fromLeases, prefix)
    {
      ghost var wanted := fromDB + fromLeases;
      NamedIffInUse(wanted, machines, leases, prefix);
      var hostsToDelete := HostsToDelete(machines, wanted);
      var missing := NotFound(fromDB);
      var missingLeases := NotFound(fromLeases);
      MissingConcat(cached, fromDB, fromLeases);
      updates := Removals(hostsToDelete) + Additions(missing + missingLeases);
    }
  }

  lemma NamedIffInUse(wanted: seq<Host>, machines: Machines, leases: Leases, prefix: string)
    requires IsWanted(wanted, machines, leases, prefix)
    ensures forall x | prefix <= x :: Named(wanted, x) <==> InUse(machines, leases, prefix, x)
  {
    var ids, order :| IsListing(wanted, ids, order, machines, leases, prefix);
    forall x | prefix <= x ensures Named(wanted, x) <==> InUse(machines, leases, prefix, x) {
      NamedInListing(wanted, ids, order, machines, leases, prefix, x);
    }
  }

  lemma NamedInListing(wanted: seq<Host>, ids: seq<string>, order: seq<nat>, machines: Machines, leases: Leases,
                       prefix: string, name: string)
    requires IsListing(wanted, ids, order, machines, leases, prefix) && prefix <= name
    ensures Named(wanted, name) <==> InUse(machines, leases, prefix, name)
  {
    var id := name[|prefix|..];
    assert name == prefix + id;
    if id in machines {
      var i :| 0 <= i < |ids| && ids[i] == id;
      assert wanted[i].name == name;
    }
    if p :| p in leases && leases[p].name == name {
      var i :| 0 <= i < |order| && order[i] == p;
      assert wanted[|ids| + i].name == name;
    }
    if i :| 0 <= i < |wanted| && wanted[i].name == name {
      if i < |ids| {
        assert (prefix + ids[i])[|prefix|..] == ids[i];
      } else {
        assert leases[order[i - |ids|]].name == name;
      }
    }
  }

  lemma {:induction false} ObsoletesConcat(a: seq<Host>, b: seq<Host>, wanted: seq<Host>, prefix: string)
    ensures Obsoletes(a + b, wanted, prefix) == Obsoletes(a, wanted, prefix) + Obsoletes(b, wanted, prefix)
  {
    if a == [] {
      assert a + b == b;
    } else {
      assert (a + b)[1..] == a[1..] + b;
      ObsoletesConcat(a[1..], b, wanted, prefix);
    }
  }

  lemma ObsoletesSnoc(hosts: seq<Host>, i: nat, wanted: seq<Host>, prefix: string)
    requires i < |hosts|
    ensures Obsoletes(hosts[..i + 1], wanted, prefix)
      == Obsoletes(hosts[..i], wanted, prefix) + if Obsolete(hosts[i], wanted, prefix) then [hosts[i]] else []
  {
    assert hosts[..i + 1] == hosts[..i] + [hosts[i]];
    ObsoletesConcat(hosts[..i], [hosts[i]], wanted, prefix);
  }

  lemma {:induction false} MissingConcat(hosts: seq<Host>, a: seq<Host>, b: seq<Host>)
    ensures Missing(hosts, a + b) == Missing(hosts, a) + Missing(hosts, b)
  {
    if a == [] {
      assert a + b == b;
    } else {
      assert (a + b)[1..] == a[1..] + b;
      MissingConcat(hosts, a[1..], b);
    }
  }

  lemma MissingSnoc(hosts: seq<Host>, list: seq<Host>, i: nat)
    requires i < |list|
    ensures Missing(hosts, list[..i + 1])
      == Missing(hosts, list[..i]) + if Named(hosts, list[i].name) then [] else [list[i]]
  {
    assert list[..i + 1] == list[..i] + [list[i]];
    MissingConcat(hosts, list[..i], [list[i]]);
  }

  lemma ApplySnoc(hosts: seq<Host>, updates: seq<Update>, i: nat)
    requires i < |updates|
    ensures Apply(hosts, updates[..i + 1]) == ApplyOne(Apply(hosts, updates[..i]), updates[i])
  {
    assert updates[..i + 1] == updates[..i] + [updates[i]];
    ApplyConcat(hosts, updates[..i], [updates[i]]);
  }
}
