/** From the VM database to the connections of the TCP proxy. */
module ProxyJoin {
  import opened Results
  import opened VMPorts
  import opened VMRegistry
  import opened PortTables
  import opened PortJoin
  import opened PortListeners
  import opened PortRuns
  import opened PortServers

  /** Where a client of `e` that connects to the listener of its import `p` must end up. */
  function Exporter(x: VM, p: VMPort, client: string): Target {
    Target(Pair(client, x.ip), Addr(x.ip, p.port), false)
  }

  /** On a port that is not public, a listener that follows the generated table forwards a client
      exactly when that VM imports a port there that an active VM exports to the same group, and
      to that exporter and port. */
  lemma ClientsReachExporters(t: Table, db: Entries, greenhouse: Entries, gateway: string, n: int, ip: string)
    requires IsJoin(t, db, greenhouse, gateway) && !IsPublic(db, n)
    ensures n in t && Decide(false, t[n].forwards, ip).Some? <==> IsLinked(db, greenhouse, n, ip)
    ensures forall e, p, id, q | Known(e, db, greenhouse) && id in db && Links(e, p, db[id], q)
      && ListenPort(p) == n && e.vm.ip == ip ::
        n in t && Decide(false, t[n].forwards, ip) == Some(Exporter(db[id].vm, p, ip))
  {
  }

  /** Anybody who connects to the outside port of a public export reaches its VM: at the PROXY
      protocol port, with a header, if one was asked for. */
  lemma AnybodyReachesPublisher(t: Table, db: Entries, greenhouse: Entries, gateway: string, id: string, p: VMPort,
                                source: string)
    requires IsJoin(t, db, greenhouse, gateway)
    requires id in db && db[id].active && p in db[id].vm.config.ports && p.publicPort != 0
    ensures var ip := db[id].vm.ip;
      && p.publicPort in t && "*" in t[p.publicPort].forwards
      && Decide(true, t[p.publicPort].forwards, source)
           == Some(Target(Pair("*", ip), Addr(ip, if p.proxyPort != 0 then p.proxyPort else p.port), p.proxyPort != 0))
  {
  }

  // -- listeners that are kept ----------------------------------------------

  predicate NoStar(db: Entries, greenhouse: Entries) {
    (forall id | id in db :: db[id].vm.ip != "*") && (forall id | id in greenhouse :: greenhouse[id].vm.ip != "*")
  }

  /** The address of a listener of a generated table, and its kind. */
  lemma AddressOf(t: Table, db: Entries, greenhouse: Entries, gateway: string, n: int)
    requires IsJoin(t, db, greenhouse, gateway) && n in t && NoStar(db, greenhouse)
    ensures t[n].listenAddr == if IsPublic(db, n) then Addr("", n) else Addr(gateway, n)
    ensures ("*" in t[n].forwards <==> IsPublic(db, n)) && t[n].forwards != map[]
    ensures "*" in t[n].forwards ==> t[n].forwards.Keys == {"*"}
  {
    if IsPublic(db, n) {
      var id, p :| id in db && db[id].active && p in db[id].vm.config.ports && p.publicPort != 0 && p.publicPort == n;
      assert t[n] == Listener(Addr("", n), map["*" := Forwarder(Addr(db[id].vm.ip, p.port), p.proxyPort)]);
    } else {
      var ip :| ip in t[n].forwards.Keys;
      assert IsLinked(db, greenhouse, n, ip);
      NotStar(t, db, greenhouse, n);
    }
  }

  lemma NotStar(t: Table, db: Entries, greenhouse: Entries, n: int)
    requires NothingElse(t, db, greenhouse) && n in t && !IsPublic(db, n) && NoStar(db, greenhouse)
    ensures "*" !in t[n].forwards
  {
    assert !IsLinked(db, greenhouse, n, "*");
  }

  /** A listener opened for the table `t` and kept, over any refreshes, until the table `u`: it listens where
      `u` says if and only if the port is public under both or under neither, and in the same cases it
      decides like a new listener. */
  lemma KeptListenerIff(views: seq<Views>, refreshes: seq<Refresh>, start: nat, last: nat, n: int, db: Entries,
                        greenhouse: Entries, laterDB: Entries, laterGreenhouse: Entries, gateway: string)
    requires PortServers.IsRun(views, refreshes) && start < last < |refreshes| && n !in views[start]
    requires forall i | start < i < |views| :: n in views[i]
    requires IsJoin(refreshes[start].db, db, greenhouse, gateway) && NoStar(db, greenhouse)
    requires IsJoin(refreshes[last].db, laterDB, laterGreenhouse, gateway) && NoStar(laterDB, laterGreenhouse)
    requires n in refreshes[last].db && gateway != ""
    ensures var v, l := views[last + 1][n], refreshes[last].db[n];
      var sameKind := IsPublic(db, n) == IsPublic(laterDB, n);
      && v.forwards == l.forwards
      && (v.addr == l.listenAddr <==> sameKind)
      && ((forall source | source != "*" ::
             Decide(v.public, l.forwards, source) == Decide("*" in l.forwards, l.forwards, source)) <==> sameKind)
  {
    OpenedOnce(views, refreshes, start, n);
    AddressOf(refreshes[start].db, db, greenhouse, gateway, n);
    AddressOf(refreshes[last].db, laterDB, laterGreenhouse, gateway, n);
    var r := refreshes[last];
    ListenersAreTable(views[last], views[last + 1], r.db, r.version, r.canListen, r.canClose);
    StaleKindIff(views[last + 1][n].public, r.db[n].forwards);
  }
}
