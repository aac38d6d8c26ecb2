/** The table of the TCP proxy, in terms of the VM database: it is the join of what VMs import
    with what active VMs export, in whatever order the maps are read. */
module PortJoin {
  import opened Results
  import opened Text
  import opened VMNames
  import opened VMPorts
  import opened PortArrays
  import opened VMRegistry
  import opened PortTables

  // -- the list of entries --------------------------------------------------

  /** New VMs under construction, listed before the database; none of them is active. */
  ghost predicate GreenhouseOK(greenhouse: Entries) {
    forall id | id in greenhouse :: EntryOK(greenhouse[id]) && !greenhouse[id].active
  }

  ghost predicate Known(e: Entry, db: Entries, greenhouse: Entries) {
    e in db.Values || e in greenhouse.Values
  }

  ghost predicate IsListing(es: seq<Entry>, db: Entries, greenhouse: Entries) {
    && (forall e :: e in es <==> Known(e, db, greenhouse))
    && (forall a, b | 0 <= a < b < |es| && es[a].active && es[b].active :: es[a].name != es[b].name)
  }

  /** The entries of a map, in any order. */
  method ValuesOf(m: Entries) returns (es: seq<Entry>, ghost ids: seq<string>)
    ensures |ids| == |es| && (forall a | 0 <= a < |es| :: ids[a] in m && es[a] == m[ids[a]])
    ensures forall a, b | 0 <= a < b < |ids| :: ids[a] != ids[b]
    ensures forall e :: e in es <==> e in m.Values
  {
    es, ids := [], [];
    var todo := m.Keys;
    while todo != {}
      invariant todo <= m.Keys
      invariant |ids| == |es| && (forall a | 0 <= a < |es| :: ids[a] in m && ids[a] !in todo && es[a] == m[ids[a]])
      invariant forall a, b | 0 <= a < b < |ids| :: ids[a] != ids[b]
      invariant forall id | id in m && id !in todo :: id in ids
    {
      var id :| id in todo;
      todo := todo - {id};
      es := es + [m[id]];
      ids := ids + [id];
    }
    SameElements(m, es, ids);
  }

  method ListEntries(db: Entries, greenhouse: Entries) returns (es: seq<Entry>)
    requires KeysAreIds(db) && GreenhouseOK(greenhouse)
    ensures IsListing(es, db, greenhouse)
  {
    var building, ids1 := ValuesOf(greenhouse);
    var built, ids2 := ValuesOf(db);
    es := building + built;
    forall a, b | 0 <= a < b < |es| && es[a].active && es[b].active ensures es[a].name != es[b].name {
      assert |building| <= a;
      assert ids2[a - |building|] != ids2[b - |building|];
    }
  }

  lemma SameElements(m: Entries, es: seq<Entry>, ids: seq<string>)
    requires |ids| == |es| && (forall a | 0 <= a < |es| :: ids[a] in m && es[a] == m[ids[a]])
    requires forall id | id in m :: id in ids
    ensures forall e :: e in es <==> e in m.Values
  {
  }

  ghost predicate IsPortTable(t: Table, es: seq<Entry>, gateway: string) {
    exists exports, private ::
      && HoldsExports(exports, es, |es|, 0)
      && HoldsForwards(private, es, exports, gateway, |es|, 0)
      && HoldsPublic(t, private, es, |es|, 0)
  }

  /** genPortsDB. */
  method GenPorts(db: Entries, greenhouse: Entries, gateway: string) returns (r: Option<Table>, ghost es: seq<Entry>)
    requires KeysAreIds(db) && GreenhouseOK(greenhouse)
    ensures IsListing(es, db, greenhouse)
    ensures r.Some? <==> CanGenerate(db, greenhouse)
    ensures r.Some? ==> IsPortTable(r.value, es, gateway)
    ensures r.Some? && Inv(db) && ClientsApart(db, greenhouse) ==> IsJoin(r.value, db, greenhouse, gateway)
  {
    var list := ListEntries(db, greenhouse);
    es := list;
    var exports := BuildExports(list);
    var private := BuildForwards(list, exports, gateway);
    ListedTCP(list, db, greenhouse);
    if private.None? {
      return None, list;
    }
    PublicFreeIff(db, greenhouse, list, exports, private.value, gateway);
    r := AddPublic(list, private.value);
    if r.Some? && Inv(db) && ClientsApart(db, greenhouse) {
      TableIsJoin(db, greenhouse, list, r.value, gateway);
    }
  }

  // -- links between VMs ----------------------------------------------------

  /** `p` is a port imported by `e` that `x` exports to the same group. */
  predicate Links(e: Entry, p: VMPort, x: Entry, q: VMPort) {
    && p in e.vm.config.ports && p.direction == Import
    && x.active && q in x.vm.config.ports && q.direction == Export && q.publicPort == 0
    && q.port == p.port && q.group == p.group
  }

  ghost predicate Imported(e: Entry, p: VMPort, db: Entries) {
    exists id, q :: id in db && Links(e, p, db[id], q)
  }

  /** The i-th port of an active VM, that has an outside port. */
  ghost predicate Outside(db: Entries, id: string, i: int) {
    && id in db && db[id].active && 0 <= i < |db[id].vm.config.ports| && db[id].vm.config.ports[i].publicPort != 0
  }

  ghost predicate OutsideApart(db: Entries) {
    forall a, i, b, j | Outside(db, a, i) && Outside(db, b, j)
      && db[a].vm.config.ports[i].publicPort == db[b].vm.config.ports[j].publicPort :: a == b && i == j
  }

  /** When the table can be generated: no two ports of active VMs have one outside port, and no
      outside port is one where the proxy listens for an import. */
  ghost predicate CanGenerate(db: Entries, greenhouse: Entries) {
    && OutsideApart(db)
    && (forall id, pub, e, p | id in db && db[id].active && pub in db[id].vm.config.ports && pub.publicPort != 0
          && Known(e, db, greenhouse) && Imported(e, p, db) :: pub.publicPort != ListenPort(p))
  }

  lemma ListedTCP(es: seq<Entry>, db: Entries, greenhouse: Entries)
    requires KeysAreIds(db) && GreenhouseOK(greenhouse) && IsListing(es, db, greenhouse)
    ensures AllTCP(es) && forall a | 0 <= a < |es| :: EntryOK(es[a])
  {
    forall a | 0 <= a < |es| ensures EntryOK(es[a]) {
      assert es[a] in es;
    }
    forall a, i | HasPort(es, a, i) ensures PortAt(es, a, i).protocol == TCP {
      assert PortAt(es, a, i) in es[a].vm.config.ports;
    }
  }

  /** The key under which an import looks for its export. */
  lemma KeyOfLink(p: VMPort, q: VMPort)
    requires WellFormed(p) && WellFormed(q) && p.direction == Import && q.direction == Export && q.publicPort == 0
    ensures p.Exported().String() == q.String() <==> q.port == p.port && q.group == p.group
  {
    StringInjective(p.Exported(), q);
  }

  /** Two active VMs that export one port are the same VM. */
  lemma OneExporter(db: Entries, a: string, b: string, p: VMPort, q: VMPort)
    requires Inv(db) && a in db && b in db && db[a].active && db[b].active
    requires p in db[a].vm.config.ports && q in db[b].vm.config.ports
    requires p.direction == q.direction == Export && p.publicPort == q.publicPort == 0 && p.String() == q.String()
    ensures a == b
  {
    assert p.GlobalID() in ExportIds(db[a].vm.config.ports) * ExportIds(db[b].vm.config.ports);
  }

  /** What the map of exports holds. */
  lemma ExportListed(db: Entries, greenhouse: Entries, es: seq<Entry>, exports: map<string, VM>, id: string,
                     q: VMPort)
    requires IsListing(es, db, greenhouse) && HoldsExports(exports, es, |es|, 0)
    requires id in db && db[id].active && q in db[id].vm.config.ports && q.direction == Export && q.publicPort == 0
    ensures q.String() in exports
  {
    assert db[id] in es;
    var a :| 0 <= a < |es| && es[a] == db[id];
    var i :| 0 <= i < |es[a].vm.config.ports| && es[a].vm.config.ports[i] == q;
    assert Offers(es, a, i) && Before(a, i, |es|, 0) && PortAt(es, a, i) == q;
  }

  lemma ExportsMeaning(db: Entries, greenhouse: Entries, es: seq<Entry>, exports: map<string, VM>, id: string,
                       q: VMPort)
    requires Inv(db) && GreenhouseOK(greenhouse) && IsListing(es, db, greenhouse) && HoldsExports(exports, es, |es|, 0)
    requires id in db && db[id].active && q in db[id].vm.config.ports && q.direction == Export && q.publicPort == 0
    ensures q.String() in exports && exports[q.String()] == db[id].vm
  {
    ExportListed(db, greenhouse, es, exports, id, q);
    var b, j :| Offers(es, b, j) && Before(b, j, |es|, 0) && PortAt(es, b, j).String() == q.String()
      && exports[q.String()] == es[b].vm;
    var other := ActiveKey(es, b, db, greenhouse);
    OneExporter(db, id, other, q, PortAt(es, b, j));
  }

  lemma ActiveKey(es: seq<Entry>, a: int, db: Entries, greenhouse: Entries) returns (id: string)
    requires 0 <= a < |es| && es[a].active && IsListing(es, db, greenhouse) && GreenhouseOK(greenhouse)
    ensures id in db && db[id] == es[a]
  {
    assert es[a] in es;
    assert es[a] in db.Values;
    id :| id in db && db[id] == es[a];
  }

  lemma ServedIff(db: Entries, greenhouse: Entries, es: seq<Entry>, exports: map<string, VM>, a: nat, i: nat)
    requires KeysAreIds(db) && GreenhouseOK(greenhouse) && IsListing(es, db, greenhouse)
    requires HoldsExports(exports, es, |es|, 0)
    requires HasPort(es, a, i)
    ensures Served(es, exports, a, i) <==> Imported(es[a], PortAt(es, a, i), db)
  {
    ListedTCP(es, db, greenhouse);
    var p := PortAt(es, a, i);
    assert p in es[a].vm.config.ports;
    if Served(es, exports, a, i) {
      var b, j :| Offers(es, b, j) && PortAt(es, b, j).String() == ImportKey(es, a, i);
      var id := ActiveKey(es, b, db, greenhouse);
      var q := PortAt(es, b, j);
      assert q in db[id].vm.config.ports;
      KeyOfLink(p, q);
      assert Links(es[a], p, db[id], q);
    }
    if Imported(es[a], p, db) {
      var id, q :| id in db && Links(es[a], p, db[id], q);
      assert EntryOK(db[id]);
      KeyOfLink(p, q);
      ExportListed(db, greenhouse, es, exports, id, q);
    }
  }

  /** The listeners for imports, and the failures of the last loop, in terms of the database. */
  lemma KeyIsImported(db: Entries, greenhouse: Entries, es: seq<Entry>, exports: map<string, VM>, private: Table,
                      gateway: string, n: int)
    requires KeysAreIds(db) && GreenhouseOK(greenhouse) && IsListing(es, db, greenhouse)
    requires HoldsExports(exports, es, |es|, 0)
    requires HoldsForwards(private, es, exports, gateway, |es|, 0) && n in private
    ensures exists e, p :: Known(e, db, greenhouse) && Imported(e, p, db) && ListenPort(p) == n
  {
    var ip :| ip in private[n].forwards.Keys;
    var b, j :| Forwards(es, exports, n, ip, private[n].forwards[ip], b, j);
    ServedIff(db, greenhouse, es, exports, b, j);
    assert es[b] in es;
  }

  lemma ImportedIsKey(db: Entries, greenhouse: Entries, es: seq<Entry>, exports: map<string, VM>, private: Table,
                      gateway: string, e: Entry, p: VMPort)
    requires KeysAreIds(db) && GreenhouseOK(greenhouse) && IsListing(es, db, greenhouse)
    requires HoldsExports(exports, es, |es|, 0)
    requires HoldsForwards(private, es, exports, gateway, |es|, 0)
    requires Known(e, db, greenhouse) && Imported(e, p, db)
    ensures ListenPort(p) in private
  {
    var a, i := Position(es, e, p, db, greenhouse);
    ServedIff(db, greenhouse, es, exports, a, i);
    assert Before(a, i, |es|, 0);
  }

  lemma PrivateKeys(db: Entries, greenhouse: Entries, es: seq<Entry>, exports: map<string, VM>, private: Table,
                    gateway: string, n: int)
    requires KeysAreIds(db) && GreenhouseOK(greenhouse) && IsListing(es, db, greenhouse)
    requires HoldsExports(exports, es, |es|, 0)
    requires HoldsForwards(private, es, exports, gateway, |es|, 0)
    ensures n in private <==> exists e, p :: Known(e, db, greenhouse) && Imported(e, p, db) && ListenPort(p) == n
  {
    if n in private {
      KeyIsImported(db, greenhouse, es, exports, private, gateway, n);
    }
    if exists e, p :: Known(e, db, greenhouse) && Imported(e, p, db) && ListenPort(p) == n {
      var e, p :| Known(e, db, greenhouse) && Imported(e, p, db) && ListenPort(p) == n;
      ImportedIsKey(db, greenhouse, es, exports, private, gateway, e, p);
    }
  }

  lemma Position(es: seq<Entry>, e: Entry, p: VMPort, db: Entries, greenhouse: Entries) returns (a: nat, i: nat)
    requires IsListing(es, db, greenhouse) && Known(e, db, greenhouse) && p in e.vm.config.ports
    ensures HasPort(es, a, i) && es[a] == e && PortAt(es, a, i) == p
  {
    assert e in es;
    a :| 0 <= a < |es| && es[a] == e;
    i :| 0 <= i < |e.vm.config.ports| && e.vm.config.ports[i] == p;
  }

  ghost predicate PublicApart(es: seq<Entry>) {
    forall b, j, c, k | Publishes(es, b, j) && Publishes(es, c, k)
      && PortAt(es, b, j).publicPort == PortAt(es, c, k).publicPort :: b == c && j == k
  }

  lemma PublicApartIff(db: Entries, greenhouse: Entries, es: seq<Entry>)
    requires KeysAreIds(db) && GreenhouseOK(greenhouse) && IsListing(es, db, greenhouse)
    ensures PublicApart(es) <==> OutsideApart(db)
  {
    if PublicApart(es) {
      forall a, i, b, j | Outside(db, a, i) && Outside(db, b, j)
        && db[a].vm.config.ports[i].publicPort == db[b].vm.config.ports[j].publicPort
        ensures a == b && i == j
      {
        assert db[a] in es && db[b] in es;
        var x :| 0 <= x < |es| && es[x] == db[a];
        var y :| 0 <= y < |es| && es[y] == db[b];
        assert Publishes(es, x, i) && Publishes(es, y, j);
      }
    }
    if OutsideApart(db) {
      forall b, j, c, k | Publishes(es, b, j) && Publishes(es, c, k)
        && PortAt(es, b, j).publicPort == PortAt(es, c, k).publicPort
        ensures b == c && j == k
      {
        var x := ActiveKey(es, b, db, greenhouse);
        var y := ActiveKey(es, c, db, greenhouse);
        assert Outside(db, x, j) && Outside(db, y, k);
      }
    }
  }

  /** Exports of different active VMs never share an outside port while the invariant holds, so only
      one VM can publish two ports on one. */
  lemma OutsideApartIff(db: Entries)
    requires Inv(db)
    ensures OutsideApart(db) <==> forall id, i, j | Outside(db, id, i) && Outside(db, id, j) && i < j ::
      db[id].vm.config.ports[i].publicPort != db[id].vm.config.ports[j].publicPort
  {
    forall a, i, b, j | Outside(db, a, i) && Outside(db, b, j)
      && db[a].vm.config.ports[i].publicPort == db[b].vm.config.ports[j].publicPort
      ensures a == b
    {
      SharedGlobalId(db, a, i, b, j);
    }
  }

  lemma SharedGlobalId(db: Entries, a: string, i: nat, b: string, j: nat)
    requires KeysAreIds(db) && Outside(db, a, i) && Outside(db, b, j)
    requires db[a].vm.config.ports[i].publicPort == db[b].vm.config.ports[j].publicPort
    ensures ExportIds(db[a].vm.config.ports) * ExportIds(db[b].vm.config.ports) != {}
  {
    var p, q := db[a].vm.config.ports[i], db[b].vm.config.ports[j];
    assert EntryOK(db[a]) && EntryOK(db[b]) && p in db[a].vm.config.ports && q in db[b].vm.config.ports;
    GlobalIdMeaning(p, q);
    assert p.GlobalID() in ExportIds(db[a].vm.config.ports) * ExportIds(db[b].vm.config.ports);
  }

  lemma PublicFreeIff(db: Entries, greenhouse: Entries, es: seq<Entry>, exports: map<string, VM>, private: Table,
                      gateway: string)
    requires KeysAreIds(db) && GreenhouseOK(greenhouse) && IsListing(es, db, greenhouse)
    requires HoldsExports(exports, es, |es|, 0)
    requires HoldsForwards(private, es, exports, gateway, |es|, 0)
    ensures PublicPortsFree(private, es) <==> CanGenerate(db, greenhouse)
  {
    PublicApartIff(db, greenhouse, es);
    if CanGenerate(db, greenhouse) {
      forall b, j | Publishes(es, b, j) ensures PortAt(es, b, j).publicPort !in private {
        PublicIsFree(db, greenhouse, es, exports, private, gateway, b, j);
      }
    }
    if PublicPortsFree(private, es) {
      forall id, pub, e, p | id in db && db[id].active && pub in db[id].vm.config.ports && pub.publicPort != 0
        && Known(e, db, greenhouse) && Imported(e, p, db)
        ensures pub.publicPort != ListenPort(p)
      {
        FreeIsNotListened(db, greenhouse, es, exports, private, gateway, id, pub, e, p);
      }
    }
  }

  lemma FreeIsNotListened(db: Entries, greenhouse: Entries, es: seq<Entry>, exports: map<string, VM>, private: Table,
                          gateway: string, id: string, pub: VMPort, e: Entry, p: VMPort)
    requires KeysAreIds(db) && GreenhouseOK(greenhouse) && IsListing(es, db, greenhouse)
    requires HoldsExports(exports, es, |es|, 0)
    requires HoldsForwards(private, es, exports, gateway, |es|, 0) && PublicPortsFree(private, es)
    requires id in db && db[id].active && pub in db[id].vm.config.ports && pub.publicPort != 0
    requires Known(e, db, greenhouse) && Imported(e, p, db)
    ensures pub.publicPort != ListenPort(p)
  {
    PrivateKeys(db, greenhouse, es, exports, private, gateway, ListenPort(p));
    var a, i := Position(es, db[id], pub, db, greenhouse);
    assert Publishes(es, a, i);
  }

  lemma PublicIsFree(db: Entries, greenhouse: Entries, es: seq<Entry>, exports: map<string, VM>, private: Table,
                     gateway: string, b: int, j: int)
    requires KeysAreIds(db) && GreenhouseOK(greenhouse) && IsListing(es, db, greenhouse)
    requires HoldsExports(exports, es, |es|, 0)
    requires HoldsForwards(private, es, exports, gateway, |es|, 0)
    requires Publishes(es, b, j) && CanGenerate(db, greenhouse)
    ensures PortAt(es, b, j).publicPort !in private
  {
    var id := ActiveKey(es, b, db, greenhouse);
    assert PortAt(es, b, j) in db[id].vm.config.ports;
    PrivateKeys(db, greenhouse, es, exports, private, gateway, PortAt(es, b, j).publicPort);
  }

  // -- the join -------------------------------------------------------------

  /** Client VMs have addresses of their own, and not more ports than there are indices. */
  ghost predicate ClientsApart(db: Entries, greenhouse: Entries) {
    && (forall e, f | Known(e, db, greenhouse) && Known(f, db, greenhouse) && e.vm.ip == f.vm.ip :: e.vm == f.vm)
    && (forall e | Known(e, db, greenhouse) :: |e.vm.config.ports| <= 0x1_0000)
  }

  ghost predicate ImportsForwarded(t: Table, db: Entries, greenhouse: Entries, gateway: string) {
    forall e, p, id, q | Known(e, db, greenhouse) && id in db && Links(e, p, db[id], q) ::
      var n := ListenPort(p);
      && n in t && t[n].listenAddr == Addr(gateway, n) && e.vm.ip in t[n].forwards
      && t[n].forwards[e.vm.ip] == Forwarder(Addr(db[id].vm.ip, p.port), 0)
  }

  ghost predicate PublicForwarded(t: Table, db: Entries) {
    forall id, p | id in db && db[id].active && p in db[id].vm.config.ports && p.publicPort != 0 ::
      p.publicPort in t && t[p.publicPort] ==
        Listener(Addr("", p.publicPort), map["*" := Forwarder(Addr(db[id].vm.ip, p.port), p.proxyPort)])
  }

  ghost predicate IsPublic(db: Entries, n: int) {
    exists id, p :: id in db && db[id].active && p in db[id].vm.config.ports && p.publicPort != 0 && p.publicPort == n
  }

  ghost predicate IsLinked(db: Entries, greenhouse: Entries, n: int, ip: string) {
    exists e, p :: Known(e, db, greenhouse) && Imported(e, p, db) && ListenPort(p) == n && e.vm.ip == ip
  }

  ghost predicate NothingElse(t: Table, db: Entries, greenhouse: Entries) {
    forall n | n in t :: IsPublic(db, n) ||
      (t[n].forwards.Keys != {} && forall ip | ip in t[n].forwards :: IsLinked(db, greenhouse, n, ip))
  }

  ghost predicate IsJoin(t: Table, db: Entries, greenhouse: Entries, gateway: string) {
    ImportsForwarded(t, db, greenhouse, gateway) && PublicForwarded(t, db) && NothingElse(t, db, greenhouse)
  }

  /** Two imports of one VM never share a listener. */
  lemma ListenPortsApart(e: Entry, i: nat, j: nat)
    requires EntryOK(e) && i < j < |e.vm.config.ports| <= 0x1_0000
    requires e.vm.config.ports[i].direction == e.vm.config.ports[j].direction
    ensures ListenPort(e.vm.config.ports[i]) != ListenPort(e.vm.config.ports[j])
  {
    var ports := e.vm.config.ports;
    IndicesDistinct(ports, i, j);
    CountGrows(ports, j, j, ports[j].direction);
  }

  lemma SamePort(db: Entries, greenhouse: Entries, es: seq<Entry>, a: nat, i: nat, b: nat, j: nat)
    requires Inv(db) && GreenhouseOK(greenhouse) && IsListing(es, db, greenhouse) && ClientsApart(db, greenhouse)
    requires HasPort(es, a, i) && HasPort(es, b, j) && es[a].vm.ip == es[b].vm.ip
    requires PortAt(es, a, i).direction == PortAt(es, b, j).direction == Import
    requires ListenPort(PortAt(es, a, i)) == ListenPort(PortAt(es, b, j))
    ensures PortAt(es, a, i) == PortAt(es, b, j)
  {
    ListedTCP(es, db, greenhouse);
    assert es[a] in es && es[b] in es && es[a].vm == es[b].vm;
    if i < j {
      ListenPortsApart(es[a], i, j);
    } else if j < i {
      ListenPortsApart(es[a], j, i);
    }
  }

  lemma LinkForwarded(db: Entries, greenhouse: Entries, es: seq<Entry>, exports: map<string, VM>, private: Table,
                      gateway: string, e: Entry, p: VMPort, id: string, q: VMPort)
    requires Inv(db) && GreenhouseOK(greenhouse) && IsListing(es, db, greenhouse) && HoldsExports(exports, es, |es|, 0)
    requires HoldsForwards(private, es, exports, gateway, |es|, 0) && ClientsApart(db, greenhouse)
    requires Known(e, db, greenhouse) && id in db && Links(e, p, db[id], q)
    ensures var n := ListenPort(p);
      && n in private && private[n].listenAddr == Addr(gateway, n) && e.vm.ip in private[n].forwards
      && private[n].forwards[e.vm.ip] == Forwarder(Addr(db[id].vm.ip, p.port), 0)
  {
    ListedTCP(es, db, greenhouse);
    var n, ip := ListenPort(p), e.vm.ip;
    var a, i := Position(es, e, p, db, greenhouse);
    assert Imported(es[a], PortAt(es, a, i), db);
    ServedIff(db, greenhouse, es, exports, a, i);
    assert Before(a, i, |es|, 0);
    var b, j :| Forwards(es, exports, n, ip, private[n].forwards[ip], b, j);
    SamePort(db, greenhouse, es, a, i, b, j);
    assert EntryOK(db[id]);
    KeyOfLink(p, q);
    ExportsMeaning(db, greenhouse, es, exports, id, q);
  }

  lemma PublicListed(db: Entries, greenhouse: Entries, es: seq<Entry>, t: Table, private: Table)
    requires Inv(db) && GreenhouseOK(greenhouse) && IsListing(es, db, greenhouse)
    requires HoldsPublic(t, private, es, |es|, 0)
    ensures PublicForwarded(t, db)
    ensures forall n | n in t && n !in private :: IsPublic(db, n)
  {
    forall id, p | id in db && db[id].active && p in db[id].vm.config.ports && p.publicPort != 0
      ensures p.publicPort in t && t[p.publicPort] ==
        Listener(Addr("", p.publicPort), map["*" := Forwarder(Addr(db[id].vm.ip, p.port), p.proxyPort)])
    {
      var a, i := Position(es, db[id], p, db, greenhouse);
      assert Publishes(es, a, i) && Before(a, i, |es|, 0);
    }
    forall n | n in t && n !in private ensures IsPublic(db, n) {
      var b, j :| Publishes(es, b, j) && Before(b, j, |es|, 0) && PortAt(es, b, j).publicPort == n;
      var id := ActiveKey(es, b, db, greenhouse);
      assert PortAt(es, b, j) in db[id].vm.config.ports;
    }
  }

  lemma PrivateLinked(db: Entries, greenhouse: Entries, es: seq<Entry>, exports: map<string, VM>, private: Table,
                      gateway: string, n: int, ip: string)
    requires Inv(db) && GreenhouseOK(greenhouse) && IsListing(es, db, greenhouse) && HoldsExports(exports, es, |es|, 0)
    requires HoldsForwards(private, es, exports, gateway, |es|, 0) && n in private && ip in private[n].forwards
    ensures IsLinked(db, greenhouse, n, ip)
  {
    var b, j :| Forwards(es, exports, n, ip, private[n].forwards[ip], b, j);
    ServedIff(db, greenhouse, es, exports, b, j);
    assert es[b] in es;
  }

  /** The generated table is exactly the join: the listener at base port plus import index
      forwards a VM's address to the VM that exports the port to the group, each public port has
      its one wildcard forward, and there is nothing else. */
  lemma TableIsJoin(db: Entries, greenhouse: Entries, es: seq<Entry>, t: Table, gateway: string)
    requires Inv(db) && GreenhouseOK(greenhouse) && IsListing(es, db, greenhouse) && ClientsApart(db, greenhouse)
    requires IsPortTable(t, es, gateway)
    ensures IsJoin(t, db, greenhouse, gateway)
  {
    var exports: map<string, VM>, private: Table :| HoldsExports(exports, es, |es|, 0)
      && HoldsForwards(private, es, exports, gateway, |es|, 0) && HoldsPublic(t, private, es, |es|, 0);
    PublicListed(db, greenhouse, es, t, private);
    forall e, p, id, q | Known(e, db, greenhouse) && id in db && Links(e, p, db[id], q)
      ensures var n := ListenPort(p);
        && n in t && t[n].listenAddr == Addr(gateway, n) && e.vm.ip in t[n].forwards
        && t[n].forwards[e.vm.ip] == Forwarder(Addr(db[id].vm.ip, p.port), 0)
    {
      LinkForwarded(db, greenhouse, es, exports, private, gateway, e, p, id, q);
    }
    forall n, ip | n in private && ip in private[n].forwards ensures IsLinked(db, greenhouse, n, ip) {
      PrivateLinked(db, greenhouse, es, exports, private, gateway, n, ip);
    }
  }

  /** The join is one table: the order in which the maps are read does not matter. */
  lemma JoinIsUnique(db: Entries, greenhouse: Entries, t: Table, u: Table, gateway: string)
    requires IsJoin(t, db, greenhouse, gateway) && IsJoin(u, db, greenhouse, gateway)
    ensures t == u
  {
    forall n | n in t ensures n in u && t[n] == u[n] {
      SameListener(db, greenhouse, t, u, gateway, n);
    }
    forall n | n in u ensures n in t {
      SameListener(db, greenhouse, u, t, gateway, n);
    }
  }

  lemma LinkedForward(db: Entries, greenhouse: Entries, t: Table, u: Table, gateway: string, n: int, ip: string)
    requires ImportsForwarded(t, db, greenhouse, gateway) && ImportsForwarded(u, db, greenhouse, gateway)
    requires IsLinked(db, greenhouse, n, ip)
    ensures n in t && n in u && t[n].listenAddr == u[n].listenAddr
    ensures ip in t[n].forwards && ip in u[n].forwards && t[n].forwards[ip] == u[n].forwards[ip]
  {
  }

  /** Every forward of one table is in the other one. */
  lemma ForwardsWithin(db: Entries, greenhouse: Entries, t: Table, u: Table, gateway: string, n: int)
    requires ImportsForwarded(t, db, greenhouse, gateway) && ImportsForwarded(u, db, greenhouse, gateway)
    requires n in t && forall ip | ip in t[n].forwards :: IsLinked(db, greenhouse, n, ip)
    ensures n in u || t[n].forwards == map[]
    ensures forall ip | ip in t[n].forwards ::
      t[n].listenAddr == u[n].listenAddr && ip in u[n].forwards && t[n].forwards[ip] == u[n].forwards[ip]
  {
    forall ip | ip in t[n].forwards
      ensures n in u && t[n].listenAddr == u[n].listenAddr
      ensures ip in u[n].forwards && t[n].forwards[ip] == u[n].forwards[ip]
    {
      LinkedForward(db, greenhouse, t, u, gateway, n, ip);
    }
    if t[n].forwards != map[] {
      var ip :| ip in t[n].forwards.Keys;
    }
  }

  lemma SameListener(db: Entries, greenhouse: Entries, t: Table, u: Table, gateway: string, n: int)
    requires IsJoin(t, db, greenhouse, gateway) && IsJoin(u, db, greenhouse, gateway) && n in t
    ensures n in u && t[n] == u[n]
  {
    if !IsPublic(db, n) {
      ForwardsWithin(db, greenhouse, t, u, gateway, n);
      var ip :| ip in t[n].forwards.Keys;
      ForwardsWithin(db, greenhouse, u, t, gateway, n);
      assert t[n].forwards == u[n].forwards;
    }
  }

  function PublicExport(port: nat, outside: nat, index: nat): VMPort {
    VMPort(port, TCP, Export, index, PUBLIC, outside, 0)
  }

  /** The parser accepts a VM that publishes two of its ports on one outside port. */
  lemma SharedOutsidePort(x: nat, y: nat, outside: nat)
    requires 1 <= x <= MAX_PORT && 1 <= y <= MAX_PORT && x != y && 1 <= outside <= MAX_PORT
    ensures var ports := [PublicExport(x, outside, 0), PublicExport(y, outside, 1)];
      PortArray(Strings(ports)) == Ok(ports)
  {
    var ports := [PublicExport(x, outside, 0), PublicExport(y, outside, 1)];
    assert ports[0].Identity() != ports[1].Identity();
    RoundTrip(ports);
    RereadPair(ports[0], ports[1]);
  }

  lemma RereadPair(p: VMPort, q: VMPort)
    requires p.direction == q.direction && p.index == 0 && q.index == 1 && p.proxyPort == q.proxyPort == 0
    ensures Reread([p, q]) == [p, q]
  {
    RereadSnoc([p, q]);
    RereadSnoc([p]);
    assert [p, q][..1] == [p] && [p][..0] == [];
  }

  /** While such a VM is active, no table can be generated. */
  lemma SharedOutsidePortBlocks(db: Entries, greenhouse: Entries, id: string, x: nat, y: nat, outside: nat)
    requires outside != 0 && id in db && db[id].active
    requires db[id].vm.config.ports == [PublicExport(x, outside, 0), PublicExport(y, outside, 1)]
    ensures !CanGenerate(db, greenhouse)
  {
    assert Outside(db, id, 0) && Outside(db, id, 1);
  }
}
