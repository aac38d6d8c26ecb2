/** Rebuilds from a view of the network that need not be faithful: an earlier one may have stopped
    at any update, or at the final reading. */
module DhcpViews {
  import opened DhcpHosts

  // -- when all updates are made --------------------------------------------

  /** The network has each obsolete host of the view, as often. */
  predicate Removable(live: seq<Host>, cached: seq<Host>, wanted: seq<Host>, prefix: string) {
    multiset(Obsoletes(cached, wanted, prefix)) <= multiset(live)
  }

  lemma {:induction false} AcceptedOnlyIf(hosts: seq<Host>, removed: seq<Host>, added: seq<Host>, failAt: int)
    requires Accepted(hosts, Removals(removed) + Additions(added), failAt) >= |removed|
    ensures multiset(removed) <= multiset(hosts)
    decreases |removed|
  {
    if removed != [] {
      TailRemovals(removed, added);
      AcceptedOnlyIf(RemoveFirst(hosts, removed[0]), removed[1..], added, failAt - 1);
      RemoveFirstCount(hosts, removed[0]);
      assert removed == [removed[0]] + removed[1..];
    }
  }

  /** All updates of a rebuild are made exactly when the network has the hosts that the view calls
      obsolete, and libvirt does not refuse one by itself. */
  lemma AcceptedIff(live: seq<Host>, cached: seq<Host>, wanted: seq<Host>, prefix: string, failAt: int)
    ensures var updates := Updates(cached, wanted, prefix);
      Accepted(live, updates, failAt) == |updates| <==>
        Removable(live, cached, wanted, prefix) && !(0 <= failAt < |updates|)
  {
    var removed, added := Obsoletes(cached, wanted, prefix), Missing(cached, wanted);
    if multiset(removed) <= multiset(live) {
      AcceptedAll(live, removed, added, failAt);
    } else if Accepted(live, Updates(cached, wanted, prefix), failAt) == |removed| + |added| {
      AcceptedOnlyIf(live, removed, added, failAt);
    }
  }

  lemma {:induction false} AcceptedPrefix(hosts: seq<Host>, updates: seq<Update>, failAt: int, n: nat)
    requires n == Accepted(hosts, updates, failAt)
    ensures Accepted(hosts, updates[..n], -1) == n
    decreases |updates|
  {
    if n > 0 {
      AcceptedPrefix(ApplyOne(hosts, updates[0]), updates[1..], failAt - 1, n - 1);
      assert updates[..n][1..] == updates[1..][..n - 1];
      AcceptedFree(ApplyOne(hosts, updates[0]), updates[1..][..n - 1], -2, -1);
    }
  }

  lemma {:induction false} AcceptedFree(hosts: seq<Host>, updates: seq<Update>, a: int, b: int)
    requires a < 0 && b < 0
    ensures Accepted(hosts, updates, a) == Accepted(hosts, updates, b)
    decreases |updates|
  {
    if updates != [] {
      AcceptedFree(ApplyOne(hosts, updates[0]), updates[1..], a - 1, b - 1);
    }
  }

  // -- what is there after some of the updates ------------------------------

  lemma CountOfHead(s: seq<Host>, x: Host)
    requires s != []
    ensures multiset(s)[x] == multiset(s[1..])[x] + if s[0] == x then 1 else 0
  {
    assert s == [s[0]] + s[1..];
  }

  lemma {:induction false} RestCount(hosts: seq<Host>, removed: seq<Host>, x: Host)
    requires multiset(removed) <= multiset(hosts)
    ensures multiset(Apply(hosts, Removals(removed)))[x] == multiset(hosts)[x] - multiset(removed)[x]
    decreases |removed|
  {
    if removed != [] {
      TailPresent(hosts, removed);
      RemoveFirstCount(hosts, removed[0]);
      assert Removals(removed)[1..] == Removals(removed[1..]);
      RestCount(RemoveFirst(hosts, removed[0]), removed[1..], x);
      CountOfHead(removed, x);
    }
  }

  lemma {:induction false} RemoveFirstNamed(hosts: seq<Host>, h: Host, name: string)
    requires h.name != name
    ensures CountNamed(RemoveFirst(hosts, h), name) == CountNamed(hosts, name)
  {
    if hosts != [] && hosts[0] != h {
      RemoveFirstNamed(hosts[1..], h, name);
      assert ([hosts[0]] + RemoveFirst(hosts[1..], h))[1..] == RemoveFirst(hosts[1..], h);
    }
  }

  lemma {:induction false} RestNamed(hosts: seq<Host>, removed: seq<Host>, name: string)
    requires forall h | h in removed :: h.name != name
    ensures CountNamed(Apply(hosts, Removals(removed)), name) == CountNamed(hosts, name)
    decreases |removed|
  {
    if removed != [] {
      assert Removals(removed)[1..] == Removals(removed[1..]);
      RemoveFirstNamed(hosts, removed[0], name);
      RestNamed(RemoveFirst(hosts, removed[0]), removed[1..], name);
    }
  }

  lemma {:induction false} ObsoletesCount(hosts: seq<Host>, wanted: seq<Host>, prefix: string, h: Host)
    ensures multiset(Obsoletes(hosts, wanted, prefix))[h]
      == if Obsolete(h, wanted, prefix) then multiset(hosts)[h] else 0
  {
    if hosts != [] {
      assert hosts == [hosts[0]] + hosts[1..];
      ObsoletesCount(hosts[1..], wanted, prefix, h);
    }
  }

  /** What a list of removals and additions makes of the network. */
  function Changed(live: seq<Host>, removed: seq<Host>, added: seq<Host>): seq<Host> {
    Apply(live, Removals(removed)) + added
  }

  lemma ChangedByUpdates(live: seq<Host>, removed: seq<Host>, added: seq<Host>)
    ensures Apply(live, Removals(removed) + Additions(added)) == Changed(live, removed, added)
  {
    ApplyConcat(live, Removals(removed), Additions(added));
    ApplyAdditions(Apply(live, Removals(removed)), added);
  }

  lemma ChangedHas(live: seq<Host>, removed: seq<Host>, added: seq<Host>, h: Host)
    requires multiset(removed) <= multiset(live)
    ensures h in Changed(live, removed, added) <==> multiset(live)[h] > multiset(removed)[h] || h in added
  {
    RestCount(live, removed, h);
    assert h in Apply(live, Removals(removed)) <==> multiset(Apply(live, Removals(removed)))[h] > 0;
  }

  lemma ChangedNamed(live: seq<Host>, removed: seq<Host>, added: seq<Host>, name: string)
    requires forall h | h in removed :: h.name != name
    ensures CountNamed(Changed(live, removed, added), name) == CountNamed(live, name) + CountNamed(added, name)
  {
    RestNamed(live, removed, name);
    CountConcat(Apply(live, Removals(removed)), added, name);
  }

  /** Every wanted host is there or is added, alone of its name, and every obsolete one is removed
      as often as the network has it. */
  predicate Fits(live: seq<Host>, removed: seq<Host>, added: seq<Host>, wanted: seq<Host>, prefix: string) {
    && (forall w | w in wanted ::
          CountNamed(live, w.name) + CountNamed(added, w.name) == 1 && (w in live || w in added))
    && (forall h | h in live && Obsolete(h, wanted, prefix) :: multiset(live)[h] <= multiset(removed)[h])
  }

  /** Removals and additions of a rebuild, as far as it got. */
  predicate Partial(live: seq<Host>, removed: seq<Host>, added: seq<Host>, wanted: seq<Host>, prefix: string) {
    && multiset(removed) <= multiset(live)
    && (forall h | h in removed :: Obsolete(h, wanted, prefix))
    && (forall h | h in added :: h in wanted)
  }

  lemma WantedIn(live: seq<Host>, removed: seq<Host>, added: seq<Host>, wanted: seq<Host>, prefix: string, w: Host)
    requires Partial(live, removed, added, wanted, prefix) && w in wanted
    ensures var after := Changed(live, removed, added);
      && CountNamed(after, w.name) == CountNamed(live, w.name) + CountNamed(added, w.name)
      && (w in after <==> w in live || w in added)
  {
    var i :| 0 <= i < |wanted| && wanted[i] == w;
    assert Named(wanted, w.name);
    ChangedNamed(live, removed, added, w.name);
    ChangedHas(live, removed, added, w);
    assert w !in removed;
  }

  /** Wherever a rebuild stops, the network is right exactly when what was done fits. */
  lemma RightAfterIff(live: seq<Host>, removed: seq<Host>, added: seq<Host>, wanted: seq<Host>, prefix: string)
    requires AllPrefixed(wanted, prefix) && Partial(live, removed, added, wanted, prefix)
    ensures Right(Changed(live, removed, added), wanted, prefix) <==> Fits(live, removed, added, wanted, prefix)
  {
    forall w | w in wanted
      ensures var after := Changed(live, removed, added);
        && CountNamed(after, w.name) == CountNamed(live, w.name) + CountNamed(added, w.name)
        && (w in after <==> w in live || w in added)
    {
      WantedIn(live, removed, added, wanted, prefix, w);
    }
    if Right(Changed(live, removed, added), wanted, prefix) {
      RightLeavesNone(live, removed, added, wanted, prefix);
    } else if Fits(live, removed, added, wanted, prefix) {
      FitsLeavesNone(live, removed, added, wanted, prefix);
    }
  }

  lemma RightLeavesNone(live: seq<Host>, removed: seq<Host>, added: seq<Host>, wanted: seq<Host>, prefix: string)
    requires Partial(live, removed, added, wanted, prefix) && Right(Changed(live, removed, added), wanted, prefix)
    ensures forall h | h in live && Obsolete(h, wanted, prefix) :: multiset(live)[h] <= multiset(removed)[h]
  {
    forall w | w in wanted ensures Named(wanted, w.name) {
      NamedByMember(wanted, w);
    }
    forall h | h in live && Obsolete(h, wanted, prefix) ensures multiset(live)[h] <= multiset(removed)[h] {
      ChangedHas(live, removed, added, h);
    }
  }

  lemma FitsLeavesNone(live: seq<Host>, removed: seq<Host>, added: seq<Host>, wanted: seq<Host>, prefix: string)
    requires Partial(live, removed, added, wanted, prefix) && Fits(live, removed, added, wanted, prefix)
    ensures forall h | h in Changed(live, removed, added) && prefix <= h.name :: h in wanted
  {
    var after := Changed(live, removed, added);
    forall h | h in after && prefix <= h.name ensures h in wanted {
      ChangedHas(live, removed, added, h);
      if h !in added {
        assert h in multiset(live) && !Obsolete(h, wanted, prefix);
        var i :| 0 <= i < |wanted| && wanted[i].name == h.name;
        assert wanted[i] in wanted;
        WantedIn(live, removed, added, wanted, prefix, wanted[i]);
        OnlyOne(after, wanted[i], h);
      }
    }
  }

  // -- rebuilds -------------------------------------------------------------

  /** The removals among the first `n` updates. */
  function Removed(cached: seq<Host>, wanted: seq<Host>, prefix: string, n: nat): seq<Host> {
    var all := Obsoletes(cached, wanted, prefix);
    if n < |all| then all[..n] else all
  }

  /** The additions among the first `n` updates. */
  function Added(cached: seq<Host>, wanted: seq<Host>, prefix: string, n: nat): seq<Host>
    requires n <= |Updates(cached, wanted, prefix)|
  {
    var skipped := |Obsoletes(cached, wanted, prefix)|;
    if n < skipped then [] else Missing(cached, wanted)[..n - skipped]
  }

  lemma FirstUpdates(cached: seq<Host>, wanted: seq<Host>, prefix: string, n: nat)
    requires n <= |Updates(cached, wanted, prefix)|
    ensures Updates(cached, wanted, prefix)[..n]
      == Removals(Removed(cached, wanted, prefix, n)) + Additions(Added(cached, wanted, prefix, n))
  {
  }

  /** How many updates a rebuild makes. */
  function Made(live: seq<Host>, cached: seq<Host>, wanted: seq<Host>, prefix: string, answers: Rebuilding): (n: nat)
    ensures n <= |Updates(cached, wanted, prefix)|
  {
    if answers.connected then Accepted(live, Updates(cached, wanted, prefix), answers.failAt) else 0
  }

  lemma MadeArePresent(live: seq<Host>, cached: seq<Host>, wanted: seq<Host>, prefix: string, failAt: int)
    ensures var n := Accepted(live, Updates(cached, wanted, prefix), failAt);
      multiset(Removed(cached, wanted, prefix, n)) <= multiset(live)
  {
    var updates := Updates(cached, wanted, prefix);
    var n := Accepted(live, updates, failAt);
    AcceptedPrefix(live, updates, failAt, n);
    FirstUpdates(cached, wanted, prefix, n);
    AcceptedOnlyIf(live, Removed(cached, wanted, prefix, n), Added(cached, wanted, prefix, n), -1);
  }

  lemma MadeIsPartial(live: seq<Host>, cached: seq<Host>, wanted: seq<Host>, prefix: string, answers: Rebuilding)
    ensures var n := Made(live, cached, wanted, prefix, answers);
      Partial(live, Removed(cached, wanted, prefix, n), Added(cached, wanted, prefix, n), wanted, prefix)
  {
    var n := Made(live, cached, wanted, prefix, answers);
    if answers.connected {
      MadeArePresent(live, cached, wanted, prefix, answers.failAt);
    } else {
      assert Removed(cached, wanted, prefix, 0) == [];
    }
    ObsoletesAreObsolete(cached, wanted, prefix);
    MissingMeaning(cached, wanted);
  }

  /** Every rebuild, wherever it stops, leaves the network right if and only if what it did fits. */
  lemma RebuildRightIff(live0: seq<Host>, cached0: seq<Host>, live: seq<Host>, cached: seq<Host>, wanted: seq<Host>,
                        prefix: string, ok: bool, answers: Rebuilding)
    requires AllPrefixed(wanted, prefix)
    requires RebuildStep(live0, cached0, live, cached, Updates(cached0, wanted, prefix), ok, answers)
    ensures var n := Made(live0, cached0, wanted, prefix, answers);
      Right(live, wanted, prefix) <==>
        Fits(live0, Removed(cached0, wanted, prefix, n), Added(cached0, wanted, prefix, n), wanted, prefix)
  {
    var n := Made(live0, cached0, wanted, prefix, answers);
    var removed, added := Removed(cached0, wanted, prefix, n), Added(cached0, wanted, prefix, n);
    FirstUpdates(cached0, wanted, prefix, n);
    ChangedByUpdates(live0, removed, added);
    MadeIsPartial(live0, cached0, wanted, prefix, answers);
    RightAfterIff(live0, removed, added, wanted, prefix);
  }

  /** For each VM or lease whose name the view has, the network has that one host; for each other
      one, neither the network nor another VM or lease has the name; and the network has no obsolete
      host more often than the view. */
  predicate SaneView(live: seq<Host>, cached: seq<Host>, wanted: seq<Host>, prefix: string) {
    && (forall w | w in wanted ::
          if Named(cached, w.name) then w in live && CountNamed(live, w.name) == 1
          else CountNamed(live, w.name) == 0 && CountNamed(wanted, w.name) == 1)
    && (forall h | h in live && Obsolete(h, wanted, prefix) :: multiset(live)[h] <= multiset(cached)[h])
  }

  lemma FitsIffSane(live: seq<Host>, cached: seq<Host>, wanted: seq<Host>, prefix: string)
    ensures Fits(live, Obsoletes(cached, wanted, prefix), Missing(cached, wanted), wanted, prefix) <==>
      SaneView(live, cached, wanted, prefix)
  {
    MissingMeaning(cached, wanted);
    forall w | w in wanted
      ensures CountNamed(Missing(cached, wanted), w.name)
        == if Named(cached, w.name) then 0 else CountNamed(wanted, w.name)
      ensures CountNamed(wanted, w.name) > 0
      ensures w in live ==> CountNamed(live, w.name) > 0
    {
      MissingCount(cached, wanted, w.name);
      CountedIn(wanted, w);
      if w in live {
        CountedIn(live, w);
      }
    }
    forall h | h in live && Obsolete(h, wanted, prefix)
      ensures multiset(Obsoletes(cached, wanted, prefix))[h] == multiset(cached)[h]
    {
      ObsoletesCount(cached, wanted, prefix, h);
    }
  }

  lemma CountedIn(s: seq<Host>, h: Host)
    requires h in s
    ensures CountNamed(s, h.name) > 0
  {
    var i :| 0 <= i < |s| && s[i] == h;
    NamedIffCounted(s, h.name);
  }

  /** There is nothing to update; or libvirt answers and refuses no update by itself, and the network has
      the hosts that are to be removed. */
  predicate Completes(live: seq<Host>, cached: seq<Host>, wanted: seq<Host>, prefix: string, answers: Rebuilding) {
    var updates := Updates(cached, wanted, prefix);
    || updates == []
    || (answers.connected && !(0 <= answers.failAt < |updates|) && Removable(live, cached, wanted, prefix))
  }

  /** In exactly these cases a rebuild makes all its updates. */
  lemma CompleteIff(live: seq<Host>, cached: seq<Host>, wanted: seq<Host>, prefix: string, answers: Rebuilding)
    ensures Made(live, cached, wanted, prefix, answers) == |Updates(cached, wanted, prefix)| <==>
      Completes(live, cached, wanted, prefix, answers)
  {
    AcceptedIff(live, cached, wanted, prefix, answers.failAt);
  }

  /** A rebuild that makes all its updates leaves exactly one host for each VM or lease, with its MAC
      and IP, and no other host with the prefix, if and only if view and network were sane. */
  lemma CompleteRightIff(live0: seq<Host>, cached0: seq<Host>, live: seq<Host>, cached: seq<Host>, wanted: seq<Host>,
                         prefix: string, ok: bool, answers: Rebuilding)
    requires AllPrefixed(wanted, prefix) && Completes(live0, cached0, wanted, prefix, answers)
    requires RebuildStep(live0, cached0, live, cached, Updates(cached0, wanted, prefix), ok, answers)
    ensures Right(live, wanted, prefix) <==> SaneView(live0, cached0, wanted, prefix)
  {
    CompleteIff(live0, cached0, wanted, prefix, answers);
    RebuildRightIff(live0, cached0, live, cached, wanted, prefix, ok, answers);
    FitsIffSane(live0, cached0, wanted, prefix);
    var n := Made(live0, cached0, wanted, prefix, answers);
    assert Removed(cached0, wanted, prefix, n) == Obsoletes(cached0, wanted, prefix);
    assert Added(cached0, wanted, prefix, n) == Missing(cached0, wanted);
  }

  // -- what else failed rebuilds keep, and break ----------------------------

  lemma {:induction false} ForeignOfRemoval(hosts: seq<Host>, h: Host, prefix: string)
    requires prefix <= h.name
    ensures Foreign(RemoveFirst(hosts, h), prefix) == Foreign(hosts, prefix)
  {
    if hosts != [] && hosts[0] != h {
      ForeignOfRemoval(hosts[1..], h, prefix);
      assert ([hosts[0]] + RemoveFirst(hosts[1..], h))[1..] == RemoveFirst(hosts[1..], h);
    }
  }

  predicate AllOurs(updates: seq<Update>, prefix: string) {
    forall u | u in updates :: prefix <= u.host.name
  }

  lemma {:induction false} ForeignKept(hosts: seq<Host>, updates: seq<Update>, prefix: string)
    requires AllOurs(updates, prefix)
    ensures Foreign(Apply(hosts, updates), prefix) == Foreign(hosts, prefix)
    decreases |updates|
  {
    if updates != [] {
      var h := updates[0].host;
      assert updates[0] in updates;
      ForeignOfRemoval(hosts, h, prefix);
      ForeignConcat(hosts, [h], prefix);
      NoneForeign([h], prefix);
      ForeignKept(ApplyOne(hosts, updates[0]), updates[1..], prefix);
    }
  }

  lemma UpdatesAreOurs(cached: seq<Host>, wanted: seq<Host>, prefix: string)
    requires AllPrefixed(wanted, prefix)
    ensures AllOurs(Updates(cached, wanted, prefix), prefix)
  {
    var removed, added := Obsoletes(cached, wanted, prefix), Missing(cached, wanted);
    ObsoletesAreObsolete(cached, wanted, prefix);
    MissingMeaning(cached, wanted);
    forall u | u in Updates(cached, wanted, prefix) ensures prefix <= u.host.name {
      var i :| 0 <= i < |removed| + |added| && Updates(cached, wanted, prefix)[i] == u;
      assert if i < |removed| then u.host in removed else u.host in added;
    }
  }

  /** No rebuild touches a host without the prefix, wherever it stops. */
  lemma RebuildKeepsForeign(live0: seq<Host>, cached0: seq<Host>, live: seq<Host>, cached: seq<Host>, wanted: seq<Host>,
                            prefix: string, ok: bool, answers: Rebuilding)
    requires AllPrefixed(wanted, prefix)
    requires RebuildStep(live0, cached0, live, cached, Updates(cached0, wanted, prefix), ok, answers)
    ensures Foreign(live, prefix) == Foreign(live0, prefix)
    ensures Foreign(cached, prefix) == Foreign(if ok then live0 else cached0, prefix)
  {
    var n := Made(live0, cached0, wanted, prefix, answers);
    UpdatesAreOurs(cached0, wanted, prefix);
    ForeignKept(live0, Updates(cached0, wanted, prefix)[..n], prefix);
  }

  lemma NothingToUpdateIff(hosts: seq<Host>, wanted: seq<Host>, prefix: string)
    ensures Updates(hosts, wanted, prefix) == [] <==>
      (forall h | h in hosts :: !Obsolete(h, wanted, prefix))
        && (forall w | w in wanted :: CountNamed(hosts, w.name) > 0)
  {
    forall h | h in hosts ensures h in Obsoletes(hosts, wanted, prefix) <==> Obsolete(h, wanted, prefix) {
      ObsoletesCount(hosts, wanted, prefix, h);
      assert h in Obsoletes(hosts, wanted, prefix) <==> multiset(Obsoletes(hosts, wanted, prefix))[h] > 0;
    }
    forall w | w in wanted ensures CountNamed(hosts, w.name) > 0 <==> Named(hosts, w.name) {
      NamedIffCounted(hosts, w.name);
    }
    MissingMeaning(hosts, wanted);
    if (forall h | h in hosts :: !Obsolete(h, wanted, prefix))
      && (forall w | w in wanted :: CountNamed(hosts, w.name) > 0) {
      NothingToDo(hosts, wanted, wanted, prefix);
    }
  }

  lemma SameNames(a: seq<Host>, b: seq<Host>)
    requires forall h :: h in a <==> h in b
    ensures forall x :: Named(a, x) <==> Named(b, x)
  {
    forall x ensures Named(a, x) <==> Named(b, x) {
      if i :| 0 <= i < |a| && a[i].name == x {
        NamedByMember(b, a[i]);
      }
      if i :| 0 <= i < |b| && b[i].name == x {
        NamedByMember(a, b[i]);
      }
    }
  }

  /** Repeating a successful rebuild at once makes no update if and only if the network had every
      name of a VM or lease that the view had, and no obsolete host more often than the view. */
  lemma RepeatIff(live0: seq<Host>, cached0: seq<Host>, live: seq<Host>, cached: seq<Host>, wanted: seq<Host>,
                  again: seq<Host>, prefix: string, answers: Rebuilding)
    requires AllPrefixed(wanted, prefix) && forall h :: h in wanted <==> h in again
    requires RebuildStep(live0, cached0, live, cached, Updates(cached0, wanted, prefix), true, answers)
    ensures Updates(cached, again, prefix) == [] <==>
      && (forall w | w in wanted && Named(cached0, w.name) :: Named(live0, w.name))
      && (forall h | h in live0 && Obsolete(h, wanted, prefix) :: multiset(live0)[h] <= multiset(cached0)[h])
  {
    var removed, added := Obsoletes(cached0, wanted, prefix), Missing(cached0, wanted);
    RebuildDone(live0, cached0, live, cached, Updates(cached0, wanted, prefix), answers);
    ChangedByUpdates(live0, removed, added);
    AcceptedOnlyIf(live0, removed, added, answers.failAt);
    MissingMeaning(cached0, wanted);
    ObsoletesAreObsolete(cached0, wanted, prefix);
    SameNames(wanted, again);
    NothingToUpdateIff(cached, again, prefix);
    NamesAfter(live0, cached0, wanted, prefix);
    ObsoleteAfter(live0, cached0, wanted, prefix);
  }

  lemma NamesAfter(live0: seq<Host>, cached0: seq<Host>, wanted: seq<Host>, prefix: string)
    requires multiset(Obsoletes(cached0, wanted, prefix)) <= multiset(live0)
    ensures var after := Changed(live0, Obsoletes(cached0, wanted, prefix), Missing(cached0, wanted));
      forall w | w in wanted ::
        CountNamed(after, w.name) > 0 <==> (Named(cached0, w.name) ==> Named(live0, w.name))
  {
    var removed, added := Obsoletes(cached0, wanted, prefix), Missing(cached0, wanted);
    MissingMeaning(cached0, wanted);
    ObsoletesAreObsolete(cached0, wanted, prefix);
    forall w | w in wanted
      ensures CountNamed(Changed(live0, removed, added), w.name) > 0 <==>
        (Named(cached0, w.name) ==> Named(live0, w.name))
    {
      WantedIn(live0, removed, added, wanted, prefix, w);
      MissingCount(cached0, wanted, w.name);
      CountedIn(wanted, w);
      NamedIffCounted(live0, w.name);
    }
  }

  lemma ObsoleteAfter(live0: seq<Host>, cached0: seq<Host>, wanted: seq<Host>, prefix: string)
    requires multiset(Obsoletes(cached0, wanted, prefix)) <= multiset(live0)
    ensures var after := Changed(live0, Obsoletes(cached0, wanted, prefix), Missing(cached0, wanted));
      (forall h | h in after :: !Obsolete(h, wanted, prefix)) <==>
        (forall h | h in live0 && Obsolete(h, wanted, prefix) :: multiset(live0)[h] <= multiset(cached0)[h])
  {
    var removed, added := Obsoletes(cached0, wanted, prefix), Missing(cached0, wanted);
    MissingMeaning(cached0, wanted);
    forall w | w in wanted ensures Named(wanted, w.name) {
      NamedByMember(wanted, w);
    }
    forall h | Obsolete(h, wanted, prefix)
      ensures h in Changed(live0, removed, added) <==> multiset(live0)[h] > multiset(cached0)[h]
    {
      ChangedHas(live0, removed, added, h);
      ObsoletesCount(cached0, wanted, prefix, h);
    }
    assert forall h :: h in live0 <==> multiset(live0)[h] > 0;
  }

  /** A rebuild that cannot make all its removals does not succeed, and neither does any later one
      while the names of those hosts are not in use again. */
  lemma StuckStays(live0: seq<Host>, cached0: seq<Host>, live: seq<Host>, cached: seq<Host>, wanted: seq<Host>,
                   later: seq<Host>, prefix: string, ok: bool, answers: Rebuilding)
    requires RebuildStep(live0, cached0, live, cached, Updates(cached0, wanted, prefix), ok, answers)
    requires !Removable(live0, cached0, wanted, prefix)
    requires forall h | Obsolete(h, wanted, prefix) :: Obsolete(h, later, prefix)
    ensures !ok && cached == cached0 && !Removable(live, cached, later, prefix)
  {
    AcceptedIff(live0, cached0, wanted, prefix, answers.failAt);
    var n := Made(live0, cached0, wanted, prefix, answers);
    var removed, added := Removed(cached0, wanted, prefix, n), Added(cached0, wanted, prefix, n);
    MadeIsPartial(live0, cached0, wanted, prefix, answers);
    FirstUpdates(cached0, wanted, prefix, n);
    ChangedByUpdates(live0, removed, added);
    assert added == [];
    var x :| multiset(Obsoletes(cached0, wanted, prefix))[x] > multiset(live0)[x];
    RestCount(live0, removed, x);
    ObsoletesCount(cached0, wanted, prefix, x);
    ObsoletesCount(cached0, later, prefix, x);
  }

  /** A failed rebuild from a faithful view leaves it faithful exactly if it made no update. */
  lemma FaithfulIff(hosts: seq<Host>, live: seq<Host>, cached: seq<Host>, wanted: seq<Host>, prefix: string,
                    answers: Rebuilding)
    requires RebuildStep(hosts, hosts, live, cached, Updates(hosts, wanted, prefix), false, answers)
    ensures live == cached <==> Made(hosts, hosts, wanted, prefix, answers) == 0
  {
    var n := Made(hosts, hosts, wanted, prefix, answers);
    var removed, added := Removed(hosts, wanted, prefix, n), Added(hosts, wanted, prefix, n);
    FirstUpdates(hosts, wanted, prefix, n);
    ChangedByUpdates(hosts, removed, added);
    MadeIsPartial(hosts, hosts, wanted, prefix, answers);
    if removed != [] {
      StillWithout(hosts, removed, added, wanted, prefix, removed[0]);
    } else {
      assert Apply(hosts, Removals([])) == hosts;
    }
  }

  lemma StillWithout(hosts: seq<Host>, removed: seq<Host>, added: seq<Host>, wanted: seq<Host>, prefix: string, h: Host)
    requires Partial(hosts, removed, added, wanted, prefix) && h in removed
    ensures Changed(hosts, removed, added) != hosts
  {
    RestCount(hosts, removed, h);
    forall w | w in wanted ensures Named(wanted, w.name) {
      NamedByMember(wanted, w);
    }
    assert h in multiset(removed) && h !in added;
    assert multiset(Changed(hosts, removed, added))[h] == multiset(hosts)[h] - multiset(removed)[h];
  }
}
