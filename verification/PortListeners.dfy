/** One listener of the TCP proxy: which connections it forwards, and the channels that tell
    established forwardings to stop when a reload drops them. */
module PortListeners {
  import opened Results
  import opened PortTables

  /** A client (an IP, or "*" for anybody) and the IP it is forwarded to. */
  datatype Pair = Pair(source: string, dest: string)

  type Forwards = map<string, Forwarder>

  function Key(p: Pair): string {
    p.source + "->" + p.dest
  }

  function PairOf(m: Forwards, source: string): Pair
    requires source in m
  {
    Pair(source, m[source].dest.host)
  }

  function Pairs(m: Forwards): set<Pair> {
    set source | source in m :: PairOf(m, source)
  }

  function KeysOf(m: Forwards): set<string> {
    set source | source in m :: Key(PairOf(m, source))
  }

  /** Sources are IP addresses, or "*". */
  predicate PlainSources(m: Forwards) {
    forall source | source in m :: '-' !in source
  }

  lemma KeyInjective(p: Pair, q: Pair)
    requires '-' !in p.source && '-' !in q.source && Key(p) == Key(q)
    ensures p == q
  {
    var k := Key(p);
    assert k[|p.source|] == '-' && k[|q.source|] == '-';
    assert forall i | 0 <= i < |p.source| :: k[i] == p.source[i] && k[i] in p.source;
    assert forall i | 0 <= i < |q.source| :: k[i] == q.source[i] && k[i] in q.source;
    assert |p.source| == |q.source|;
    assert p.source == k[..|p.source|] == q.source;
    assert p.dest == k[|p.source| + 2..] == q.dest;
  }

  lemma KeyOfPair(m: Forwards, p: Pair)
    requires PlainSources(m) && '-' !in p.source
    ensures Key(p) in KeysOf(m) <==> p in Pairs(m)
  {
    if source :| source in m && Key(PairOf(m, source)) == Key(p) {
      KeyInjective(PairOf(m, source), p);
    }
  }

  // -- channels -------------------------------------------------------------

  /** Close channels, numbered as they are made: one open channel for each key. */
  datatype ChannelTable = ChannelTable(open: map<string, nat>, closed: set<nat>, made: nat)

  ghost predicate ChannelsOK(c: ChannelTable) {
    && (forall j, k | j in c.open && k in c.open && c.open[j] == c.open[k] :: j == k)
    && (forall k | k in c.open :: c.open[k] < c.made && c.open[k] !in c.closed)
    && (forall x | x in c.closed :: x < c.made)
  }

  /** The channels of the keys that are not kept. */
  function Dropped(open: map<string, nat>, kept: set<string>): set<nat> {
    set k | k in open && k !in kept :: open[k]
  }

  function Restrict(open: map<string, nat>, kept: set<string>): map<string, nat> {
    map k | k in open && k in kept :: open[k]
  }

  function Cut(c: ChannelTable, kept: set<string>): ChannelTable {
    ChannelTable(Restrict(c.open, kept), c.closed + Dropped(c.open, kept), c.made)
  }

  lemma CutOne(c: ChannelTable, kept: set<string>, key: string)
    requires key in c.open && key in kept
    ensures var all := Cut(c, kept);
      var open := map k | k in all.open && k != key :: all.open[k];
      Cut(c, kept - {key}) == ChannelTable(open, all.closed + {c.open[key]}, c.made)
  {
  }

  lemma CutKeepsOK(c: ChannelTable, kept: set<string>)
    requires ChannelsOK(c)
    ensures ChannelsOK(Cut(c, kept))
  {
  }

  lemma CutSame(c: ChannelTable, a: set<string>, b: set<string>)
    requires forall k | k in c.open :: k in a <==> k in b
    ensures Cut(c, a) == Cut(c, b)
  {
  }

  /** The channels after a reload: those of kept keys stay, those of dropped keys are closed. */
  ghost predicate Reconciled(before: ChannelTable, after: ChannelTable, keys: set<string>) {
    && ChannelsOK(after) && after.open.Keys == keys && before.made <= after.made
    && (forall k | k in keys ::
          if k in before.open then after.open[k] == before.open[k] else before.made <= after.open[k])
    && after.closed == before.closed + Dropped(before.open, keys)
  }

  lemma ReconciledByCut(before: ChannelTable, mid: ChannelTable, keys: set<string>)
    requires ChannelsOK(mid) && mid.open.Keys == before.open.Keys + keys
    requires before.made <= mid.made && mid.closed == before.closed
    requires forall k | k in mid.open ::
      if k in before.open then mid.open[k] == before.open[k] else before.made <= mid.open[k]
    ensures Reconciled(before, Cut(mid, keys), keys)
  {
    CutKeepsOK(mid, keys);
    assert Dropped(mid.open, keys) == Dropped(before.open, keys);
  }

  /** Closing a listener closes every open channel. */
  lemma CutAll(c: ChannelTable)
    requires ChannelsOK(c)
    ensures ChannelsOK(Cut(c, {})) && Cut(c, {}) == ChannelTable(map[], c.closed + c.open.Values, c.made)
  {
  }

  /** What there is to know about a listener. */
  datatype View = View(addr: Addr, public: bool, forwards: Forwards, channels: ChannelTable, closed: bool, version: int)

  /** Holds until the listener is closed. */
  ghost predicate ViewOK(v: View) {
    ChannelsOK(v.channels) && v.channels.open.Keys == KeysOf(v.forwards)
  }

  ghost predicate Reloaded(before: View, after: View, m: Forwards) {
    && ViewOK(after) && after.addr == before.addr && after.public == before.public
    && after.forwards == m && after.closed == before.closed && after.version == before.version
    && Reconciled(before.channels, after.channels, KeysOf(m))
  }

  /** After Close: if the socket cannot be closed, the channels stay open. */
  function Stopped(v: View, ok: bool): View {
    if ok then v.(closed := true, channels := Cut(v.channels, {})) else v.(closed := true)
  }

  // -- accepting a connection -----------------------------------------------

  /** Where a connection goes, and whether a PROXY header is sent first. */
  datatype Target = Target(pair: Pair, addr: Addr, prelude: bool)

  function Decide(public: bool, m: Forwards, source: string): Option<Target> {
    var client := if public then "*" else source;
    if client !in m then None
    else
      var f := m[client];
      var port := if public && f.proxyPort != 0 then f.proxyPort else f.dest.port;
      Some(Target(Pair(client, f.dest.host), Addr(f.dest.host, port), f.proxyPort != 0))
  }

  class PortListener {
    const listenAddr: Addr
    const public: bool
    var forwardMap: Forwards
    var closeChannels: map<string, nat>
    var closed: bool
    var version: int
    // the state of all channels made by this listener
    var closedChannels: set<nat>
    var made: nat

    function Channels(): ChannelTable
      reads this
    {
      ChannelTable(closeChannels, closedChannels, made)
    }

    function Snapshot(): View
      reads this
    {
      View(listenAddr, public, forwardMap, Channels(), closed, version)
    }

    ghost predicate Valid()
      reads this
    {
      ViewOK(Snapshot())
    }

    constructor (listenAddr: Addr, forwardMap: Forwards, version: int)
      ensures Valid() && this.listenAddr == listenAddr && public == ("*" in forwardMap)
      ensures this.forwardMap == forwardMap && this.version == version && !closed && closedChannels == {}
    {
      this.listenAddr, this.version, closed := listenAddr, version, false;
      public := "*" in forwardMap;
      this.forwardMap, closeChannels, closedChannels, made := map[], map[], {}, 0;
      new;
      UpdateForwardMap(forwardMap);
    }

    /** Makes the missing channels, then closes those of dropped pairs. */
    method UpdateForwardMap(m: Forwards)
      requires ChannelsOK(Channels())
      modifies this`forwardMap, this`closeChannels, this`closedChannels, this`made
      ensures Reloaded(old(Snapshot()), Snapshot(), m)
    {
      var allowed := KeysOf(m);
      AddMissing(allowed);
      ReconciledByCut(old(Channels()), Channels(), allowed);
      CloseOld(allowed);
      forwardMap := m;
    }

    method AddMissing(allowed: set<string>)
      requires ChannelsOK(Channels())
      modifies this`closeChannels, this`made
      ensures ChannelsOK(Channels()) && closeChannels.Keys == old(closeChannels).Keys + allowed && old(made) <= made
      ensures forall k | k in closeChannels ::
        if k in old(closeChannels) then closeChannels[k] == old(closeChannels)[k] else old(made) <= closeChannels[k]
    {
      var todo := allowed;
      while todo != {}
        invariant todo <= allowed && ChannelsOK(Channels()) && old(made) <= made
        invariant closeChannels.Keys == old(closeChannels).Keys + (allowed - todo)
        invariant forall k | k in closeChannels ::
          if k in old(closeChannels) then closeChannels[k] == old(closeChannels)[k] else old(made) <= closeChannels[k]
      {
        var key :| key in todo;
        todo := todo - {key};
        if key !in closeChannels {
          closeChannels := closeChannels[key := made];
          made := made + 1;
        }
      }
    }

    method CloseOld(allowed: set<string>)
      requires ChannelsOK(Channels())
      modifies this`closeChannels, this`closedChannels
      ensures Channels() == Cut(old(Channels()), allowed)
    {
      var todo := closeChannels.Keys;
      ghost var before, kept := Channels(), closeChannels.Keys;
      CutSame(before, kept, kept);
      assert Cut(before, kept) == before;
      while todo != {}
        invariant todo <= before.open.Keys && Channels() == Cut(before, kept)
        invariant forall k | k in before.open :: k in kept <==> k in todo || k in allowed
      {
        var key :| key in todo;
        todo := todo - {key};
        if key !in allowed {
          CloseKey(key, before, kept);
          kept := kept - {key};
        }
      }
      CutSame(before, kept, allowed);
    }

    /** No channel is closed twice: only open ones are in the map. */
    method CloseKey(key: string, ghost before: ChannelTable, ghost kept: set<string>)
      requires ChannelsOK(before) && key in before.open && key in kept && Channels() == Cut(before, kept)
      modifies this`closeChannels, this`closedChannels
      ensures Channels() == Cut(before, kept - {key})
    {
      CutOne(before, kept, key);
      CutKeepsOK(before, kept);
      CloseChannel(closeChannels[key]);
      closeChannels := map k | k in closeChannels && k != key :: closeChannels[k];
    }

    /** Closing a closed channel would panic. */
    method CloseChannel(c: nat)
      requires c !in closedChannels
      modifies this`closedChannels
      ensures closedChannels == old(closedChannels) + {c}
    {
      closedChannels := closedChannels + {c};
    }

    /** The part of Listen that follows an accepted connection: it is refused only when no forward
        is meant for it, and otherwise gets the open channel of its pair. */
    method Accept(sourceIP: string) returns (r: Option<(Target, nat)>)
      requires Valid()
      ensures r.None? <==> Decide(public, forwardMap, sourceIP).None?
      ensures var client := if public then "*" else sourceIP;
        && (r.Some? <==> client in forwardMap)
        && (r.Some? ==>
              var f := forwardMap[client];
              var port := if public && f.proxyPort != 0 then f.proxyPort else f.dest.port;
              r.value.0 == Target(Pair(client, f.dest.host), Addr(f.dest.host, port), f.proxyPort != 0))
      ensures r.Some? ==> Decide(public, forwardMap, sourceIP) == Some(r.value.0) && r.value.0.pair in Pairs(forwardMap)
      ensures r.Some? ==> Key(r.value.0.pair) in closeChannels && r.value.1 == closeChannels[Key(r.value.0.pair)]
    {
      var client := if public then "*" else sourceIP;
      if client !in forwardMap {
        return None;
      }
      var forwarder := forwardMap[client];
      var forwardTo := forwarder.dest;
      if public && forwarder.proxyPort != 0 {
        forwardTo := Addr(forwardTo.host, forwarder.proxyPort);
      }
      var pair := Pair(client, forwardTo.host);
      assert pair == PairOf(forwardMap, client);
      if Key(pair) !in closeChannels {
        return None;
      }
      return Some((Target(pair, forwardTo, forwarder.proxyPort != 0), closeChannels[Key(pair)]));
    }

    /** Stops listening, which may fail, then closes every channel. */
    method Close(socketOK: bool) returns (ok: bool)
      requires ChannelsOK(Channels())
      modifies this`closed, this`closeChannels, this`closedChannels
      ensures ok == socketOK && Snapshot() == Stopped(old(Snapshot()), ok) && ChannelsOK(Channels())
      ensures closed && closeChannels == (if ok then map[] else old(closeChannels))
      ensures closedChannels == if ok then old(closedChannels) + old(closeChannels).Values else old(closedChannels)
    {
      closed := true;
      if !socketOK {
        return false;
      }
      CutAll(Channels());
      CloseOld({});
      return true;
    }
  }
}
