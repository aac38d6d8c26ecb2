/** SyncPeers: a server exchanges secrets with each of its peers in turn. */
module SecretRounds {
  import opened Secrets
  import opened SecretRuns

  /** How one call ends: not received, received but without a usable reply, or complete. */
  datatype Call = NotReceived | ReplyLost | Done

  /** The databases of the initiator and of the called peer after one call. */
  function SyncPeer(mine: Entries, peer: Entries, call: Call): (Entries, Entries) {
    match call
    case NotReceived => (mine, peer)
    case ReplyLost => (mine, Join(peer, mine))
    case Done => RoundTrip(mine, peer)
  }

  /** A call that is not received changes nothing; a received one joins the caller's secrets into the peer,
      and, if its reply arrives, those of the peer into the caller. */
  lemma CallMeaning(mine: Entries, peer: Entries, call: Call)
    ensures var r := SyncPeer(mine, peer, call);
      && r.0 == (if call == Done then Join(mine, peer) else mine)
      && r.1 == (if call == NotReceived then peer else Join(peer, mine))
  {
    DeltaLosesNothing(mine, mine, peer);
  }

  datatype Network = Network(mine: Entries, peers: seq<Entries>)

  predicate IsOrder(order: seq<nat>, n: nat) {
    forall t | 0 <= t < |order| :: order[t] < n
  }

  /** The databases after calling the peers in the given order. */
  function Round(net: Network, order: seq<nat>, calls: seq<Call>): (r: Network)
    requires IsOrder(order, |net.peers|) && |calls| == |order|
    ensures |r.peers| == |net.peers|
  {
    if order == [] then net
    else
      var n := |order| - 1;
      var before := Round(net, order[..n], calls[..n]);
      var (mine, peer) := SyncPeer(before.mine, before.peers[order[n]], calls[n]);
      Network(mine, before.peers[order[n] := peer])
  }

  /** SyncPeers: a failed call does not stop the round, but its peer is reported at its end; `at` are the
      positions of the calls that failed. */
  method SyncPeers(net: Network, order: seq<nat>, calls: seq<Call>)
    returns (r: Network, failed: seq<nat>, ghost at: seq<nat>)
    requires IsOrder(order, |net.peers|) && |calls| == |order|
    ensures r == Round(net, order, calls)
    ensures failed == [] <==> forall i | 0 <= i < |calls| :: calls[i] == Done
    ensures |failed| == |at| && forall j | 0 <= j < |at| :: at[j] < |order| && failed[j] == order[at[j]]
    ensures forall j, k | 0 <= j < k < |at| :: at[j] < at[k]
    ensures forall i | 0 <= i < |order| :: calls[i] != Done <==> i in at
  {
    var mine, peers := net.mine, net.peers;
    failed, at := [], [];
    for i := 0 to |order|
      invariant |peers| == |net.peers| && Network(mine, peers) == Round(net, order[..i], calls[..i])
      invariant |failed| == |at| && forall j | 0 <= j < |at| :: at[j] < i && failed[j] == order[at[j]]
      invariant forall j, k | 0 <= j < k < |at| :: at[j] < at[k]
      invariant forall j | 0 <= j < i :: calls[j] != Done <==> j in at
    {
      assert order[..i + 1][..i] == order[..i] && calls[..i + 1][..i] == calls[..i];
      var peer := order[i];
      var results := SyncPeer(mine, peers[peer], calls[i]);
      mine, peers := results.0, peers[peer := results.1];
      if calls[i] != Done {
        failed, at := failed + [peer], at + [i];
      }
    }
    assert order[..|order|] == order && calls[..|calls|] == calls;
    r := Network(mine, peers);
    assert failed != [] ==> at[0] in at;
  }

  /** `db` only holds entries of `all`, under their keys. */
  ghost predicate Within(db: Entries, all: set<Entry>) {
    forall k | k in db :: db[k].key == k && db[k] in all
  }

  ghost predicate NetWithin(net: Network, all: set<Entry>) {
    Within(net.mine, all) && forall i | 0 <= i < |net.peers| :: Within(net.peers[i], all)
  }

  lemma CoversTransitive(a: Entries, b: Entries, c: Entries)
    requires Covers(a, b) && Covers(b, c)
    ensures Covers(a, c)
  {
  }

  lemma SyncPeerFacts(mine: Entries, peer: Entries, call: Call, all: set<Entry>)
    requires Within(mine, all) && Within(peer, all)
    ensures var (m, p) := SyncPeer(mine, peer, call);
      && Within(m, all) && Within(p, all) && Covers(m, mine) && Covers(p, peer)
      && (call == Done ==> Covers(m, peer)) && (call != NotReceived ==> Covers(p, mine))
  {
    DeltaLosesNothing(mine, mine, peer);
    JoinCovers(mine, peer);
    JoinCovers(peer, mine);
  }

  /** What a round keeps and achieves, from the databases `net` it starts with to `r`. */
  ghost predicate RoundOf(net: Network, r: Network, order: seq<nat>, calls: seq<Call>)
    requires IsOrder(order, |net.peers|) && |calls| == |order| && |r.peers| == |net.peers|
  {
    && Covers(r.mine, net.mine)
    && (forall i | 0 <= i < |net.peers| :: Covers(r.peers[i], net.peers[i]))
    && (forall t | 0 <= t < |order| && calls[t] == Done :: Covers(r.mine, net.peers[order[t]]))
    && (forall t | 0 <= t < |order| && calls[t] != NotReceived :: Covers(r.peers[order[t]], net.mine))
  }

  lemma OneMoreCall(net: Network, before: Network, r: Network, order: seq<nat>, calls: seq<Call>)
    requires order != [] && IsOrder(order, |net.peers|) && |calls| == |order|
    requires |before.peers| == |net.peers| == |r.peers|
    requires var n := |order| - 1; RoundOf(net, before, order[..n], calls[..n])
    requires var n := |order| - 1;
      var p := order[n];
      && r.peers == before.peers[p := r.peers[p]]
      && Covers(r.mine, before.mine) && Covers(r.peers[p], before.peers[p])
      && (calls[n] == Done ==> Covers(r.mine, before.peers[p]))
      && (calls[n] != NotReceived ==> Covers(r.peers[p], before.mine))
    ensures RoundOf(net, r, order, calls)
  {
    var n := |order| - 1;
    CoversTransitive(r.mine, before.mine, net.mine);
    forall i | 0 <= i < |net.peers| ensures Covers(r.peers[i], net.peers[i]) {
      CoversTransitive(r.peers[i], before.peers[i], net.peers[i]);
    }
    forall t | 0 <= t < |order| && calls[t] == Done ensures Covers(r.mine, net.peers[order[t]]) {
      if t < n {
        assert order[..n][t] == order[t] && calls[..n][t] == calls[t];
        CoversTransitive(r.mine, before.mine, net.peers[order[t]]);
      } else {
        CoversTransitive(r.mine, before.peers[order[t]], net.peers[order[t]]);
      }
    }
    forall t | 0 <= t < |order| && calls[t] != NotReceived ensures Covers(r.peers[order[t]], net.mine) {
      if t < n {
        assert order[..n][t] == order[t] && calls[..n][t] == calls[t];
        CoversTransitive(r.peers[order[t]], before.peers[order[t]], net.mine);
      } else {
        CoversTransitive(r.peers[order[t]], before.mine, net.mine);
      }
    }
  }

  /** A round, whatever fails in it: nobody goes back, each complete call brings all of the
      peer to the initiator, and each received one brings all of the initiator to the peer. */
  lemma {:induction false} RoundFacts(net: Network, order: seq<nat>, calls: seq<Call>, all: set<Entry>)
    requires IsOrder(order, |net.peers|) && |calls| == |order| && NetWithin(net, all)
    ensures NetWithin(Round(net, order, calls), all)
    ensures RoundOf(net, Round(net, order, calls), order, calls)
  {
    if order != [] {
      var n := |order| - 1;
      RoundFacts(net, order[..n], calls[..n], all);
      var before := Round(net, order[..n], calls[..n]);
      SyncPeerFacts(before.mine, before.peers[order[n]], calls[n], all);
      OneMoreCall(net, before, Round(net, order, calls), order, calls);
    }
  }

  ghost function AllEntries(net: Network): set<Entry> {
    net.mine.Values + set i, k | 0 <= i < |net.peers| && k in net.peers[i] :: net.peers[i][k]
  }

  ghost predicate CoversAll(db: Entries, net: Network) {
    Covers(db, net.mine) && forall i | 0 <= i < |net.peers| :: Covers(db, net.peers[i])
  }

  ghost predicate Keyed(net: Network) {
    WellKeyed(net.mine) && forall i | 0 <= i < |net.peers| :: WellKeyed(net.peers[i])
  }

  lemma CoversAllIsLatest(db: Entries, net: Network)
    requires Keyed(net) && Within(db, AllEntries(net)) && CoversAll(db, net)
    ensures Latest(db, AllEntries(net))
  {
  }

  predicate Complete(order: seq<nat>, calls: seq<Call>, n: nat) {
    && |calls| == |order| && IsOrder(order, n)
    && (forall i | 0 <= i < n :: i in order)
    && (forall t | 0 <= t < |calls| :: calls[t] == Done)
  }

  /** One complete round brings to the initiator, for every key, the latest entry of all
      servers; a second one brings it to every peer, whatever the order of the calls. */
  lemma TwoRoundsConverge(net: Network, order1: seq<nat>, calls1: seq<Call>, order2: seq<nat>, calls2: seq<Call>)
    requires Keyed(net) && Unique(AllEntries(net))
    requires Complete(order1, calls1, |net.peers|) && Complete(order2, calls2, |net.peers|)
    ensures var one := Round(net, order1, calls1);
      var two := Round(one, order2, calls2);
      && Latest(one.mine, AllEntries(net))
      && two.mine == one.mine
      && (forall i | 0 <= i < |net.peers| :: two.peers[i] == one.mine)
  {
    var all := AllEntries(net);
    NetIsWithin(net);
    RoundFacts(net, order1, calls1, all);
    var one := Round(net, order1, calls1);
    CompleteRound(net, one, order1, calls1);
    SameAsLatest(one.mine, one.mine, net);
    RoundFacts(one, order2, calls2, all);
    var two := Round(one, order2, calls2);
    CompleteRound(one, two, order2, calls2);
    SameAsLatest(two.mine, one.mine, net);
    forall i | 0 <= i < |net.peers| ensures two.peers[i] == one.mine {
      SameAsLatest(two.peers[i], one.mine, net);
    }
  }

  lemma CompleteRound(net: Network, r: Network, order: seq<nat>, calls: seq<Call>)
    requires Complete(order, calls, |net.peers|) && |r.peers| == |net.peers| && RoundOf(net, r, order, calls)
    ensures CoversAll(r.mine, net)
    ensures forall i | 0 <= i < |net.peers| :: Covers(r.peers[i], net.mine)
  {
    forall i | 0 <= i < |net.peers| ensures Covers(r.mine, net.peers[i]) && Covers(r.peers[i], net.mine) {
      assert i in order;
      var t :| 0 <= t < |order| && order[t] == i;
      assert calls[t] == Done;
    }
  }

  lemma NetIsWithin(net: Network)
    requires Keyed(net)
    ensures NetWithin(net, AllEntries(net))
  {
  }

  lemma SameAsLatest(db: Entries, latest: Entries, net: Network)
    requires Keyed(net) && Unique(AllEntries(net)) && CoversAll(latest, net) && Covers(db, latest)
    requires Within(latest, AllEntries(net)) && Within(db, AllEntries(net))
    ensures db == latest && Latest(db, AllEntries(net))
  {
    CoversAllTransitive(db, latest, net);
    CoversAllIsLatest(db, net);
    CoversAllIsLatest(latest, net);
    LatestIsUnique(db, latest, AllEntries(net));
  }

  lemma CoversAllTransitive(a: Entries, b: Entries, net: Network)
    requires Covers(a, b) && CoversAll(b, net)
    ensures CoversAll(a, net)
  {
  }
}
