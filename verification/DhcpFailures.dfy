/** Runs whose rebuilds may stop at any update, or at the final reading: what they keep, and what
    they break. */
module DhcpFailures {
  import opened DhcpHosts
  import opened DhcpRuns
  import opened DhcpViews

  /** A rebuild with any answers; the steps of the program ignore whether it succeeded. */
  ghost predicate Tried(s: Net, t: Net, wanted: seq<Host>, ok: bool, answers: Rebuilding, prefix: string) {
    && IsWanted(wanted, t.machines, t.leases, prefix)
    && RebuildStep(s.live, s.cached, t.live, t.cached, Updates(s.cached, wanted, prefix), ok, answers)
  }

  ghost predicate NextAny(s: Net, step: Step, answers: Rebuilding, t: Net, prefix: string) {
    && Allowed(s, step, prefix)
    && t.machines == MachinesAfter(s, step, prefix) && t.leases == LeasesAfter(s, step, prefix)
    && if step.Commit? then t.cached == s.cached && t.live == s.live
       else exists wanted, ok :: Tried(s, t, wanted, ok, answers, prefix)
  }

  ghost predicate IsRunAny(states: seq<Net>, steps: seq<Step>, answers: seq<Rebuilding>, prefix: string) {
    && |states| == |steps| + 1 && |answers| == |steps|
    && forall i, j | 0 <= i < |steps| && j == i + 1 :: NextAny(states[i], steps[i], answers[i], states[j], prefix)
  }

  // -- one rebuild ----------------------------------------------------------

  /** Wherever a rebuild stops, there is exactly one host for each VM and each lease, with its MAC and
      IP, and no other one of ours, if and only if what it did fits. If it made all its updates, that
      is so if and only if view and network were sane. */
  lemma ExactAfterIff(s: Net, t: Net, wanted: seq<Host>, ok: bool, answers: Rebuilding, prefix: string)
    requires Prefixed(t.leases, prefix) && Tried(s, t, wanted, ok, answers, prefix)
    ensures var n := Made(s.live, s.cached, wanted, prefix, answers);
      && (Exact(t.live, t.machines, t.leases, prefix) <==>
            Fits(s.live, Removed(s.cached, wanted, prefix, n), Added(s.cached, wanted, prefix, n), wanted, prefix))
      && (Completes(s.live, s.cached, wanted, prefix, answers) ==>
            (Exact(t.live, t.machines, t.leases, prefix) <==> SaneView(s.live, s.cached, wanted, prefix)))
  {
    WantedPrefixed(wanted, t.machines, t.leases, prefix);
    RightIffExact(t.live, wanted, t.machines, t.leases, prefix);
    RebuildRightIff(s.live, s.cached, t.live, t.cached, wanted, prefix, ok, answers);
    if Completes(s.live, s.cached, wanted, prefix, answers) {
      CompleteRightIff(s.live, s.cached, t.live, t.cached, wanted, prefix, ok, answers);
    }
  }

  /** A rebuild succeeds exactly when it makes all its updates, and the network can be read again. */
  lemma SucceedsIff(s: Net, t: Net, wanted: seq<Host>, ok: bool, answers: Rebuilding, prefix: string)
    requires Tried(s, t, wanted, ok, answers, prefix)
    ensures ok <==>
      answers.connected && answers.described && Completes(s.live, s.cached, wanted, prefix, answers)
  {
    CompleteIff(s.live, s.cached, wanted, prefix, answers);
  }

  // -- when a run stays exact -----------------------------------------------

  /** Libvirt lets a rebuild make these updates and see the result. */
  predicate Answered(answers: Rebuilding, updates: seq<Update>) {
    updates == [] || (answers.connected && answers.described && !(0 <= answers.failAt < |updates|))
  }

  ghost predicate StepAnswered(s: Net, step: Step, answers: Rebuilding, t: Net, prefix: string) {
    step.Commit? || exists wanted, ok ::
      Tried(s, t, wanted, ok, answers, prefix) && Answered(answers, Updates(s.cached, wanted, prefix))
  }

  ghost predicate GoodStep(s: Net, step: Step, answers: Rebuilding, t: Net, prefix: string) {
    StepAnswered(s, step, answers, t, prefix) && Unambiguous(s, step, prefix)
  }

  lemma ExactNeedsNothing(hosts: seq<Host>, machines: Machines, leases: Leases, wanted: seq<Host>, prefix: string)
    requires Exact(hosts, machines, leases, prefix) && IsWanted(wanted, machines, leases, prefix)
    ensures Updates(hosts, wanted, prefix) == []
  {
    WantedIffWant(wanted, machines, leases, prefix);
    forall h | h in hosts ensures !Obsolete(h, wanted, prefix) {
      if prefix <= h.name {
        NamedByMember(wanted, h);
      }
    }
    forall w | w in wanted ensures Named(hosts, w.name) {
      NamedByMember(hosts, w);
    }
    NothingToDo(hosts, wanted, wanted, prefix);
  }

  lemma AnsweredIsNext(s: Net, step: Step, answers: Rebuilding, t: Net, wanted: seq<Host>, ok: bool, prefix: string)
    requires s.cached == s.live && !step.Commit? && NextAny(s, step, answers, t, prefix)
    requires Tried(s, t, wanted, ok, answers, prefix) && Answered(answers, Updates(s.cached, wanted, prefix))
    ensures Next(s, step, t, prefix)
  {
    var updates := Updates(s.cached, wanted, prefix);
    ObsoletesPresent(s.cached, wanted, prefix);
    SucceedsIff(s, t, wanted, ok, answers, prefix);
    if ok {
      RebuildDone(s.live, s.cached, t.live, t.cached, updates, answers);
    }
    assert RebuildOK(s, t, prefix);
  }

  lemma UnansweredIsStale(s: Net, answers: Rebuilding, t: Net, wanted: seq<Host>, ok: bool, prefix: string)
    requires s.cached == s.live && Tried(s, t, wanted, ok, answers, prefix)
    requires !Answered(answers, Updates(s.cached, wanted, prefix))
    ensures !(t.cached == t.live && Exact(t.cached, t.machines, t.leases, prefix))
  {
    SucceedsIff(s, t, wanted, ok, answers, prefix);
    FaithfulIff(s.live, t.live, t.cached, wanted, prefix, answers);
    if Exact(s.cached, t.machines, t.leases, prefix) {
      ExactNeedsNothing(s.cached, t.machines, t.leases, wanted, prefix);
    }
  }

  lemma StepKeepsInvIff(s: Net, step: Step, answers: Rebuilding, t: Net, wanted: seq<Host>, ok: bool, prefix: string)
    requires Inv(s, prefix) && !step.Commit? && NextAny(s, step, answers, t, prefix)
    requires Tried(s, t, wanted, ok, answers, prefix)
    ensures Inv(t, prefix) <==> Answered(answers, Updates(s.cached, wanted, prefix)) && Unambiguous(s, step, prefix)
  {
    if Answered(answers, Updates(s.cached, wanted, prefix)) {
      AnsweredIsNext(s, step, answers, t, wanted, ok, prefix);
      if Unambiguous(s, step, prefix) {
        StepKeepsInv(s, step, t, prefix);
      } else if Inv(t, prefix) {
        StepKeepsSteady(s, step, answers, t, Foreign(s.live, prefix), prefix);
        InvNeedsUnambiguous(s, step, t, prefix);
      }
    } else {
      UnansweredIsStale(s, answers, t, wanted, ok, prefix);
    }
  }

  lemma AnyStepKeepsInvIff(s: Net, step: Step, answers: Rebuilding, t: Net, prefix: string)
    requires Inv(s, prefix) && NextAny(s, step, answers, t, prefix)
    ensures Inv(t, prefix) <==> GoodStep(s, step, answers, t, prefix)
  {
    if step.Commit? {
      StepKeepsInv(s, step, t, prefix);
    } else {
      var wanted, ok :| Tried(s, t, wanted, ok, answers, prefix);
      StepKeepsInvIff(s, step, answers, t, wanted, ok, prefix);
      if StepAnswered(s, step, answers, t, prefix) {
        var w, k :| Tried(s, t, w, k, answers, prefix) && Answered(answers, Updates(s.cached, w, prefix));
        StepKeepsInvIff(s, step, answers, t, w, k, prefix);
      }
    }
  }

  /** Libvirt answers each of the first `n` rebuilds that has something to update, and no new lease clashes
      with what is there. */
  ghost predicate AllGood(states: seq<Net>, steps: seq<Step>, answers: seq<Rebuilding>, prefix: string, n: nat)
    requires n <= |steps| == |answers| && |states| == |steps| + 1
  {
    forall i, j | 0 <= i < n && j == i + 1 :: GoodStep(states[i], steps[i], answers[i], states[j], prefix)
  }

  lemma {:induction false} GoodKeepsInv(states: seq<Net>, steps: seq<Step>, answers: seq<Rebuilding>,
                                        prefix: string, n: nat)
    requires IsRunAny(states, steps, answers, prefix) && Inv(states[0], prefix)
    requires n <= |steps| && AllGood(states, steps, answers, prefix, n)
    ensures Inv(states[n], prefix)
  {
    if n > 0 {
      GoodKeepsInv(states, steps, answers, prefix, n - 1);
      var i := n - 1;
      AnyStepKeepsInvIff(states[i], steps[i], answers[i], states[n], prefix);
    }
  }

  /** A run keeps exactly one host per VM or lease, with its MAC and IP, no IP twice and a faithful view,
      if and only if libvirt answers each rebuild that has something to update, and each new lease has a
      name and an IP of its own or is the very host that is there. */
  lemma RunKeepsInvIff(states: seq<Net>, steps: seq<Step>, answers: seq<Rebuilding>, prefix: string)
    requires IsRunAny(states, steps, answers, prefix) && Inv(states[0], prefix)
    ensures (forall i | 0 <= i < |states| :: Inv(states[i], prefix)) <==>
      AllGood(states, steps, answers, prefix, |steps|)
  {
    if forall i | 0 <= i < |states| :: Inv(states[i], prefix) {
      forall i, j | 0 <= i < |steps| && j == i + 1
        ensures GoodStep(states[i], steps[i], answers[i], states[j], prefix)
      {
        AnyStepKeepsInvIff(states[i], steps[i], answers[i], states[j], prefix);
      }
    }
    if AllGood(states, steps, answers, prefix, |steps|) {
      forall i | 0 <= i < |states| ensures Inv(states[i], prefix) {
        GoodKeepsInv(states, steps, answers, prefix, i);
      }
    }
  }

  // -- foreign hosts --------------------------------------------------------

  ghost predicate Steady(s: Net, foreign: seq<Host>, prefix: string) {
    Prefixed(s.leases, prefix) && Foreign(s.live, prefix) == foreign && Foreign(s.cached, prefix) == foreign
  }

  lemma StepKeepsSteady(s: Net, step: Step, answers: Rebuilding, t: Net, foreign: seq<Host>, prefix: string)
    requires Steady(s, foreign, prefix) && NextAny(s, step, answers, t, prefix)
    ensures Steady(t, foreign, prefix)
  {
    if !step.Commit? {
      var wanted, ok :| Tried(s, t, wanted, ok, answers, prefix);
      WantedPrefixed(wanted, t.machines, t.leases, prefix);
      RebuildKeepsForeign(s.live, s.cached, t.live, t.cached, wanted, prefix, ok, answers);
    }
  }

  lemma {:induction false} SteadyAt(states: seq<Net>, steps: seq<Step>, answers: seq<Rebuilding>, foreign: seq<Host>,
                                    prefix: string, n: nat)
    requires IsRunAny(states, steps, answers, prefix) && Steady(states[0], foreign, prefix) && n <= |steps|
    ensures Steady(states[n], foreign, prefix)
  {
    if n > 0 {
      SteadyAt(states, steps, answers, foreign, prefix, n - 1);
      StepKeepsSteady(states[n - 1], steps[n - 1], answers[n - 1], states[n], foreign, prefix);
    }
  }

  /** Hosts without the prefix are left alone over every run, whatever fails. */
  lemma RunKeepsForeign(states: seq<Net>, steps: seq<Step>, answers: seq<Rebuilding>, foreign: seq<Host>,
                        prefix: string)
    requires IsRunAny(states, steps, answers, prefix) && Steady(states[0], foreign, prefix)
    ensures forall i | 0 <= i < |states| :: Steady(states[i], foreign, prefix)
  {
    forall i | 0 <= i < |states| ensures Steady(states[i], foreign, prefix) {
      SteadyAt(states, steps, answers, foreign, prefix, i);
    }
  }

  // -- assigned IPs ---------------------------------------------------------

  predicate Assigned(h: Host, machines: Machines, leases: Leases, foreign: seq<Host>, prefix: string) {
    Want(h, machines, leases, prefix) || h in foreign
  }

  /** No VM and no lease has the IP of another one, or of a foreign host. */
  ghost predicate IPsDistinct(machines: Machines, leases: Leases, foreign: seq<Host>, prefix: string) {
    forall g, h | Want(g, machines, leases, prefix) && Assigned(h, machines, leases, foreign, prefix) && g.ip == h.ip ::
      g == h
  }

  /** Somebody else has the IP of that host. */
  ghost predicate Taken(lease: Host, machines: Machines, leases: Leases, foreign: seq<Host>, prefix: string) {
    exists h :: Assigned(h, machines, leases, foreign, prefix) && h.ip == lease.ip && h != lease
  }

  ghost predicate NetDistinct(s: Net, foreign: seq<Host>, prefix: string) {
    IPsDistinct(s.machines, s.leases, foreign, prefix)
  }

  /** A new lease keeps the IPs distinct if and only if nobody else has its IP. */
  lemma LeaseKeepsDistinctIff(s: Net, p: nat, id: string, m: Machine, foreign: seq<Host>, prefix: string)
    requires NetDistinct(s, foreign, prefix) && p !in s.leases
    ensures var lease := LeaseFor(id, m, prefix);
      IPsDistinct(s.machines, s.leases[p := lease], foreign, prefix) <==>
        !Taken(lease, s.machines, s.leases, foreign, prefix)
  {
    var lease := LeaseFor(id, m, prefix);
    var leases := s.leases[p := lease];
    forall h ensures Want(h, s.machines, leases, prefix) <==> Want(h, s.machines, s.leases, prefix) || h == lease {
      WantWithLease(s, p, lease, h, prefix);
    }
    if h :| Assigned(h, s.machines, s.leases, foreign, prefix) && h.ip == lease.ip && h != lease {
      assert Assigned(h, s.machines, leases, foreign, prefix);
    }
  }

  /** The choice of an IP looks at the machines and at the hosts seen last; each lease is visible there. */
  ghost predicate LeasesVisible(s: Net) {
    forall p | p in s.leases ::
      (exists id | id in s.machines :: s.machines[id].ip == s.leases[p].ip)
        || (exists h | h in s.cached :: h.ip == s.leases[p].ip)
  }

  /** Every IP that may be chosen for a new lease keeps the IPs distinct if and only if the IP of each
      lease is visible among the machines or the hosts seen last. */
  lemma ChoiceIsSafeIff(s: Net, p: nat, id: string, foreign: seq<Host>, prefix: string)
    requires NetDistinct(s, foreign, prefix) && Steady(s, foreign, prefix) && p !in s.leases
    ensures (forall m: Machine | FreeIP(s, m.ip) ::
      IPsDistinct(s.machines, s.leases[p := LeaseFor(id, m, prefix)], foreign, prefix))
      <==> LeasesVisible(s)
  {
    ForeignMeaning(s.cached, prefix);
    forall m: Machine
      ensures IPsDistinct(s.machines, s.leases[p := LeaseFor(id, m, prefix)], foreign, prefix) <==>
        !Taken(LeaseFor(id, m, prefix), s.machines, s.leases, foreign, prefix)
    {
      LeaseKeepsDistinctIff(s, p, id, m, foreign, prefix);
    }
    if LeasesVisible(s) {
      forall m: Machine | FreeIP(s, m.ip)
        ensures !Taken(LeaseFor(id, m, prefix), s.machines, s.leases, foreign, prefix)
      {
        VisibleIsNotTaken(s, LeaseFor(id, m, prefix), foreign, prefix);
      }
    } else {
      var m := HiddenMachine(s, id, foreign, prefix);
      assert FreeIP(s, m.ip);
    }
  }

  lemma VisibleIsNotTaken(s: Net, lease: Host, foreign: seq<Host>, prefix: string)
    requires LeasesVisible(s) && FreeIP(s, lease.ip) && forall h | h in foreign :: h in s.cached
    ensures !Taken(lease, s.machines, s.leases, foreign, prefix)
  {
  }

  lemma HiddenMachine(s: Net, id: string, foreign: seq<Host>, prefix: string) returns (m: Machine)
    requires !LeasesVisible(s)
    ensures FreeIP(s, m.ip) && Taken(LeaseFor(id, m, prefix), s.machines, s.leases, foreign, prefix)
  {
    var q :| q in s.leases && (forall id | id in s.machines :: s.machines[id].ip != s.leases[q].ip)
      && (forall h | h in s.cached :: h.ip != s.leases[q].ip);
    m := Machine(s.leases[q].mac + "0", s.leases[q].ip);
    assert LeaseFor(id, m, prefix) != s.leases[q];
    assert Assigned(s.leases[q], s.machines, s.leases, foreign, prefix);
  }

  /** Only a lease with a taken IP makes IPs clash. */
  lemma StepKeepsDistinctIff(s: Net, step: Step, answers: Rebuilding, t: Net, foreign: seq<Host>, prefix: string)
    requires NetDistinct(s, foreign, prefix) && NextAny(s, step, answers, t, prefix)
    ensures NetDistinct(t, foreign, prefix) <==> !Clashes(s, step, foreign, prefix)
  {
    match step
    case Begin(p, id, m) => LeaseKeepsDistinctIff(s, p, id, m, foreign, prefix);
    case _ => OthersShrink(s, step, t, prefix);
  }

  lemma OthersShrink(s: Net, step: Step, t: Net, prefix: string)
    requires Allowed(s, step, prefix) && !step.Begin?
    requires t.machines == MachinesAfter(s, step, prefix) && t.leases == LeasesAfter(s, step, prefix)
    ensures forall h | Want(h, t.machines, t.leases, prefix) :: Want(h, s.machines, s.leases, prefix)
  {
    forall h | Want(h, t.machines, t.leases, prefix) ensures Want(h, s.machines, s.leases, prefix) {
      if x :| x in t.machines && HostOf(t.machines, x, prefix) == h {
        if step.Commit? && x == step.id {
          assert s.leases[step.pointer] == h;
        } else {
          assert HostOf(s.machines, x, prefix) == h;
        }
      }
    }
  }

  /** Over every run, whatever fails, assigned IPs stay distinct if and only if no lease was given an
      IP that a VM, another lease or a foreign host had. */
  lemma RunKeepsDistinctIff(states: seq<Net>, steps: seq<Step>, answers: seq<Rebuilding>, foreign: seq<Host>,
                            prefix: string)
    requires IsRunAny(states, steps, answers, prefix) && NetDistinct(states[0], foreign, prefix)
    ensures (forall i | 0 <= i < |states| :: NetDistinct(states[i], foreign, prefix)) <==>
      (forall i | 0 <= i < |steps| :: !Clashes(states[i], steps[i], foreign, prefix))
  {
    if forall i | 0 <= i < |steps| :: !Clashes(states[i], steps[i], foreign, prefix) {
      for n := 0 to |steps|
        invariant forall i | 0 <= i <= n :: NetDistinct(states[i], foreign, prefix)
      {
        assert !Clashes(states[n], steps[n], foreign, prefix);
        StepKeepsDistinctIff(states[n], steps[n], answers[n], states[n + 1], foreign, prefix);
      }
    } else {
      var i :| 0 <= i < |steps| && Clashes(states[i], steps[i], foreign, prefix);
      if NetDistinct(states[i], foreign, prefix) {
        var j := i + 1;
        StepKeepsDistinctIff(states[i], steps[i], answers[i], states[j], foreign, prefix);
        assert !NetDistinct(states[j], foreign, prefix);
      }
    }
  }

  /** The step gives a lease an IP that somebody else has. */
  ghost predicate Clashes(s: Net, step: Step, foreign: seq<Host>, prefix: string) {
    step.Begin? && Taken(LeaseFor(step.id, step.machine, prefix), s.machines, s.leases, foreign, prefix)
  }

  /** A network that is exact and was seen so makes every lease visible. */
  lemma ExactIsVisible(s: Net, prefix: string)
    requires Exact(s.cached, s.machines, s.leases, prefix)
    ensures LeasesVisible(s)
  {
    forall p | p in s.leases ensures exists h | h in s.cached :: h.ip == s.leases[p].ip {
      assert Want(s.leases[p], s.machines, s.leases, prefix);
    }
  }

  // -- what failed rebuilds break -------------------------------------------

  /** A VM is deleted but the rebuild does not succeed; a VM of the same name is then built with
      another MAC or IP. Whatever the answers, the network does not get the host of that VM. */
  lemma StaleHost(s: Net, t: Net, u: Net, id: string, p: nat, m: Machine, wanted: seq<Host>, a1: Rebuilding,
                  a2: Rebuilding,
                  prefix: string)
    requires Inv(s, prefix) && id in s.machines && m != s.machines[id]
    requires NextAny(s, Delete(id), a1, t, prefix) && Tried(s, t, wanted, false, a1, prefix)
    requires NextAny(t, Begin(p, id, m), a2, u, prefix)
    ensures LeaseFor(id, m, prefix) !in u.live && !Exact(u.live, u.machines, u.leases, prefix)
  {
    var stale := HostOf(s.machines, id, prefix);
    assert Want(stale, s.machines, s.leases, prefix);
    NamedByMember(t.cached, stale);
    LeaseNotThere(s, t, id, m, wanted, a1, prefix);
    NameNotGained(t, u, id, p, m, a2, prefix);
  }

  lemma NameNotGained(t: Net, u: Net, id: string, p: nat, m: Machine, answers: Rebuilding, prefix: string)
    requires NextAny(t, Begin(p, id, m), answers, u, prefix)
    requires LeaseFor(id, m, prefix) !in t.live && Named(t.cached, prefix + id)
    ensures LeaseFor(id, m, prefix) !in u.live && !Exact(u.live, u.machines, u.leases, prefix)
  {
    var lease := LeaseFor(id, m, prefix);
    var listed, ok :| Tried(t, u, listed, ok, answers, prefix);
    OnlyWantedGained(t, u, listed, ok, answers, lease, prefix);
    assert u.leases[p] == lease && Want(lease, u.machines, u.leases, prefix);
  }

  lemma LeaseNotThere(s: Net, t: Net, id: string, m: Machine, wanted: seq<Host>, answers: Rebuilding, prefix: string)
    requires Inv(s, prefix) && id in s.machines && m != s.machines[id]
    requires NextAny(s, Delete(id), answers, t, prefix) && Tried(s, t, wanted, false, answers, prefix)
    ensures LeaseFor(id, m, prefix) !in t.live
  {
    var lease, former := LeaseFor(id, m, prefix), HostOf(s.machines, id, prefix);
    assert Want(former, s.machines, s.leases, prefix);
    if Want(lease, s.machines, s.leases, prefix) {
      OneOfName(s.cached, s.machines, s.leases, prefix, lease, former);
    }
    OthersShrink(s, Delete(id), t, prefix);
    WantedIffWant(wanted, t.machines, t.leases, prefix);
    OnlyWantedGained(s, t, wanted, false, answers, lease, prefix);
  }

  /** A rebuild adds nothing but wanted hosts whose name the view does not have. */
  lemma OnlyWantedGained(s: Net, t: Net, wanted: seq<Host>, ok: bool, answers: Rebuilding, h: Host, prefix: string)
    requires Tried(s, t, wanted, ok, answers, prefix)
    ensures h in t.live ==> h in s.live || (h in wanted && !Named(s.cached, h.name))
  {
    var n := Made(s.live, s.cached, wanted, prefix, answers);
    var removed, added := Removed(s.cached, wanted, prefix, n), Added(s.cached, wanted, prefix, n);
    MadeIsPartial(s.live, s.cached, wanted, prefix, answers);
    FirstUpdates(s.cached, wanted, prefix, n);
    ChangedByUpdates(s.live, removed, added);
    ChangedHas(s.live, removed, added, h);
    MissingMeaning(s.cached, wanted);
  }

  // -- a name that stays in use ---------------------------------------------

  /** Both the network and the view have a host of that name. */
  predicate Holds(s: Net, name: string) {
    Named(s.live, name) && Named(s.cached, name)
  }

  ghost predicate SameOfName(a: seq<Host>, b: seq<Host>, name: string) {
    forall h: Host | h.name == name :: h in a <==> h in b
  }

  lemma StepKeepsName(s: Net, step: Step, answers: Rebuilding, t: Net, name: string, prefix: string)
    requires prefix <= name && Holds(s, name) && NextAny(s, step, answers, t, prefix)
    requires InUse(t.machines, t.leases, prefix, name)
    ensures Holds(t, name) && SameOfName(s.live, t.live, name)
  {
    if !step.Commit? {
      var wanted, ok :| Tried(s, t, wanted, ok, answers, prefix);
      NameNotTouched(s, t, wanted, ok, answers, name, prefix);
      var i :| 0 <= i < |s.live| && s.live[i].name == name;
      NamedByMember(t.live, s.live[i]);
    }
  }

  lemma NameNotTouched(s: Net, t: Net, wanted: seq<Host>, ok: bool, answers: Rebuilding, name: string, prefix: string)
    requires prefix <= name && Named(s.cached, name) && Tried(s, t, wanted, ok, answers, prefix)
    requires InUse(t.machines, t.leases, prefix, name)
    ensures SameOfName(s.live, t.live, name)
  {
    var n := Made(s.live, s.cached, wanted, prefix, answers);
    var removed, added := Removed(s.cached, wanted, prefix, n), Added(s.cached, wanted, prefix, n);
    NamedIffInUse(wanted, t.machines, t.leases, prefix);
    MadeIsPartial(s.live, s.cached, wanted, prefix, answers);
    FirstUpdates(s.cached, wanted, prefix, n);
    ChangedByUpdates(s.live, removed, added);
    MissingMeaning(s.cached, wanted);
    forall h: Host | h.name == name ensures h in s.live <==> h in t.live {
      ChangedHas(s.live, removed, added, h);
      assert h !in removed && h !in added;
      assert h in s.live <==> multiset(s.live)[h] > 0;
    }
  }

  /** As long as a name is in use, no rebuild replaces the hosts of that name, whatever libvirt answers:
      a VM or lease of the name with another MAC or IP never gets its host. */
  lemma NameStays(states: seq<Net>, steps: seq<Step>, answers: seq<Rebuilding>, name: string, prefix: string)
    requires IsRunAny(states, steps, answers, prefix) && prefix <= name && Holds(states[0], name)
    requires forall i | 0 <= i < |states| :: InUse(states[i].machines, states[i].leases, prefix, name)
    ensures forall i | 0 <= i < |states| :: Holds(states[i], name) && SameOfName(states[0].live, states[i].live, name)
    ensures forall i, h: Host | 0 <= i < |states| && h.name == name && h !in states[0].live
      && Want(h, states[i].machines, states[i].leases, prefix) ::
        h !in states[i].live && !Exact(states[i].live, states[i].machines, states[i].leases, prefix)
  {
    for n := 0 to |steps|
      invariant forall i | 0 <= i <= n ::
        Holds(states[i], name) && SameOfName(states[0].live, states[i].live, name)
    {
      StepKeepsName(states[n], steps[n], answers[n], states[n + 1], name, prefix);
    }
  }

  /** A lease whose rebuild does not succeed is not seen by the next choice of an IP: a second VM may
      be given the same one. */
  lemma SameIPTwice(s: Net, t: Net, p: nat, q: nat, id1: string, id2: string, m1: Machine, m2: Machine,
                    wanted: seq<Host>, answers: Rebuilding, prefix: string)
    requires NextAny(s, Begin(p, id1, m1), answers, t, prefix) && Tried(s, t, wanted, false, answers, prefix)
    requires FreeIP(s, m1.ip) && p != q && q !in s.leases && id1 != id2 && m1.ip == m2.ip
    ensures Allowed(t, Begin(q, id2, m2), prefix) && FreeIP(t, m2.ip)
    ensures !IPsDistinct(t.machines, t.leases[q := LeaseFor(id2, m2, prefix)], [], prefix)
  {
    NamesDiffer(id1, id2, prefix);
    TwoLeases(t, p, q, id1, id2, m1, m2, prefix);
  }

  lemma NamesDiffer(id1: string, id2: string, prefix: string)
    requires id1 != id2
    ensures prefix + id1 != prefix + id2
  {
    assert (prefix + id1)[|prefix|..] == id1 && (prefix + id2)[|prefix|..] == id2;
  }

  lemma TwoLeases(t: Net, p: nat, q: nat, id1: string, id2: string, m1: Machine, m2: Machine, prefix: string)
    requires p in t.leases && q != p && t.leases[p] == LeaseFor(id1, m1, prefix) && prefix + id1 != prefix + id2
    requires m1.ip == m2.ip
    ensures !IPsDistinct(t.machines, t.leases[q := LeaseFor(id2, m2, prefix)], [], prefix)
  {
    var leases := t.leases[q := LeaseFor(id2, m2, prefix)];
    assert Want(leases[p], t.machines, leases, prefix) && Want(leases[q], t.machines, leases, prefix);
    assert Assigned(leases[q], t.machines, leases, [], prefix);
  }
}
