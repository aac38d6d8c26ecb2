/** The table of the TCP proxy: each imported port is forwarded to the VM that exports it, and
    each public port to the VM that publishes it. */
module PortTables {
  import opened Results
  import opened Text
  import opened VMNames
  import opened VMPorts
  import opened PortArrays
  import opened VMRegistry

  datatype Addr = Addr(host: string, port: int)

  datatype Forwarder = Forwarder(dest: Addr, proxyPort: nat)

  /** Forwards are keyed by the IP of the client VM, or by "*" for a public port. */
  datatype Listener = Listener(listenAddr: Addr, forwards: map<string, Forwarder>)

  type Table = map<int, Listener>

  /** Port where the proxy listens for an imported port: 16-bit arithmetic. */
  function ListenPort(p: VMPort): nat {
    (BASE_FORWARD + p.index) % 0x1_0000
  }

  /** The first import is served at port 9001, the next at 9002, and so on, around after 65535. */
  lemma ListenPortMeaning(p: VMPort)
    ensures p.index <= 56534 ==> ListenPort(p) == 9001 + p.index
    ensures 56535 <= p.index <= 65535 ==> ListenPort(p) == p.index - 56535
  {
  }

  // Ports are referred to by the position of their entry and their position in its config.

  predicate HasPort(es: seq<Entry>, a: int, i: int) {
    0 <= a < |es| && 0 <= i < |es[a].vm.config.ports|
  }

  function PortAt(es: seq<Entry>, a: nat, i: nat): VMPort
    requires HasPort(es, a, i)
  {
    es[a].vm.config.ports[i]
  }

  /** A private port offered by an active VM. */
  predicate Offers(es: seq<Entry>, a: int, i: int) {
    HasPort(es, a, i) && es[a].active && PortAt(es, a, i).direction == Export && PortAt(es, a, i).publicPort == 0
  }

  predicate Publishes(es: seq<Entry>, a: int, i: int) {
    HasPort(es, a, i) && es[a].active && PortAt(es, a, i).publicPort != 0
  }

  function ImportKey(es: seq<Entry>, a: nat, i: nat): string
    requires HasPort(es, a, i)
  {
    PortAt(es, a, i).Exported().String()
  }

  /** A port imported by a VM that some active VM offers, according to the map of exports. */
  predicate Served(es: seq<Entry>, exports: map<string, VM>, a: int, i: int) {
    HasPort(es, a, i) && PortAt(es, a, i).direction == Import && ImportKey(es, a, i) in exports
  }

  /** True for the ports of the first `a` entries and the first `i` ports of the next one. */
  predicate Before(b: int, j: int, a: int, i: int) {
    b < a || (b == a && j < i)
  }

  // -- the map of exported ports --------------------------------------------

  ghost predicate HoldsExports(m: map<string, VM>, es: seq<Entry>, a: int, i: int) {
    && (forall b, j | Offers(es, b, j) && Before(b, j, a, i) :: PortAt(es, b, j).String() in m)
    && (forall s | s in m :: exists b, j ::
      Offers(es, b, j) && Before(b, j, a, i) && PortAt(es, b, j).String() == s && m[s] == es[b].vm)
  }

  method BuildExports(es: seq<Entry>) returns (m: map<string, VM>)
    ensures HoldsExports(m, es, |es|, 0)
  {
    m := map[];
    for a := 0 to |es|
      invariant HoldsExports(m, es, a, 0)
    {
      m := AddExports(es, a, m);
    }
  }

  method AddExports(es: seq<Entry>, a: nat, before: map<string, VM>) returns (m: map<string, VM>)
    requires a < |es| && HoldsExports(before, es, a, 0)
    ensures HoldsExports(m, es, a + 1, 0)
  {
    m := before;
    if es[a].active {
      var ports := es[a].vm.config.ports;
      for i := 0 to |ports|
        invariant HoldsExports(m, es, a, i)
      {
        ghost var m0 := m;
        if ports[i].direction == Export && ports[i].publicPort == 0 {
          m := m[ports[i].String() := es[a].vm];
          assert Offers(es, a, i);
        }
        ExportsOneMore(m0, m, es, a, i);
      }
      ExportsNextEntry(m, es, a, |ports|);
    } else {
      ExportsNextEntry(m, es, a, 0);
    }
  }

  lemma ExportsOneMore(m0: map<string, VM>, m: map<string, VM>, es: seq<Entry>, a: nat, i: nat)
    requires HoldsExports(m0, es, a, i) && HasPort(es, a, i)
    requires m == if Offers(es, a, i) then m0[PortAt(es, a, i).String() := es[a].vm] else m0
    ensures HoldsExports(m, es, a, i + 1)
  {
  }

  lemma ExportsNextEntry(m: map<string, VM>, es: seq<Entry>, a: nat, i: nat)
    requires HoldsExports(m, es, a, i) && a < |es|
    requires if es[a].active then i == |es[a].vm.config.ports| else i == 0
    ensures HoldsExports(m, es, a + 1, 0)
  {
  }

  // -- private listeners ----------------------------------------------------

  function ForwardOf(es: seq<Entry>, exports: map<string, VM>, a: nat, i: nat): Forwarder
    requires Served(es, exports, a, i)
  {
    Forwarder(Addr(exports[ImportKey(es, a, i)].ip, PortAt(es, a, i).port), 0)
  }

  /** A forward of the table is that of the served import at (b, j). */
  ghost predicate Forwards(es: seq<Entry>, exports: map<string, VM>, n: int, ip: string, f: Forwarder, b: int, j: int) {
    && Served(es, exports, b, j) && ListenPort(PortAt(es, b, j)) == n
    && es[b].vm.ip == ip && f == ForwardOf(es, exports, b, j)
  }

  ghost predicate AllForwarded(t: Table, es: seq<Entry>, exports: map<string, VM>, a: int, i: int) {
    forall b, j | Served(es, exports, b, j) && Before(b, j, a, i) ::
      ListenPort(PortAt(es, b, j)) in t && es[b].vm.ip in t[ListenPort(PortAt(es, b, j))].forwards
  }

  ghost predicate Addressed(t: Table, gateway: string) {
    forall n | n in t :: t[n].listenAddr == Addr(gateway, n) && t[n].forwards.Keys != {}
  }

  ghost predicate OnlyForwards(t: Table, es: seq<Entry>, exports: map<string, VM>, a: int, i: int) {
    forall n, ip | n in t && ip in t[n].forwards ::
      exists b, j :: Forwards(es, exports, n, ip, t[n].forwards[ip], b, j) && Before(b, j, a, i)
  }

  /** Every served import is forwarded, and every forward is that of a served import. */
  ghost predicate HoldsForwards(t: Table, es: seq<Entry>, exports: map<string, VM>, gateway: string, a: int, i: int) {
    AllForwarded(t, es, exports, a, i) && Addressed(t, gateway) && OnlyForwards(t, es, exports, a, i)
  }

  ghost predicate AllTCP(es: seq<Entry>) {
    forall a, i | HasPort(es, a, i) :: PortAt(es, a, i).protocol == TCP
  }

  method BuildForwards(es: seq<Entry>, exports: map<string, VM>, gateway: string) returns (r: Option<Table>)
    ensures r.Some? <==> AllTCP(es)
    ensures r.Some? ==> HoldsForwards(r.value, es, exports, gateway, |es|, 0)
  {
    var t: Table := map[];
    for a := 0 to |es|
      invariant HoldsForwards(t, es, exports, gateway, a, 0)
      invariant forall b, j | HasPort(es, b, j) && b < a :: PortAt(es, b, j).protocol == TCP
    {
      r := AddForwards(es, exports, gateway, a, t);
      if r.None? {
        return;
      }
      t := r.value;
    }
    return Some(t);
  }

  /** One port: an import of a port that is exported. */
  method AddForward(before: Table, es: seq<Entry>, exports: map<string, VM>, gateway: string, a: nat, i: nat)
    returns (t: Table)
    requires HasPort(es, a, i)
    ensures t == Extended(before, es, exports, gateway, a, i)
  {
    t := before;
    var p := es[a].vm.config.ports[i];
    if p.direction != Import || p.Exported().String() !in exports {
      return;
    }
    var n := ListenPort(p);
    if n !in t {
      t := t[n := Listener(Addr(gateway, n), map[])];
    }
    var forwarder := Forwarder(Addr(exports[p.Exported().String()].ip, p.port), 0);
    t := t[n := t[n].(forwards := t[n].forwards[es[a].vm.ip := forwarder])];
  }

  method AddForwards(es: seq<Entry>, exports: map<string, VM>, gateway: string, a: nat, before: Table)
    returns (r: Option<Table>)
    requires a < |es| && HoldsForwards(before, es, exports, gateway, a, 0)
    ensures r.Some? <==> forall j | HasPort(es, a, j) :: PortAt(es, a, j).protocol == TCP
    ensures r.Some? ==> HoldsForwards(r.value, es, exports, gateway, a + 1, 0)
  {
    var t := before;
    var vm := es[a].vm;
    for i := 0 to |vm.config.ports|
      invariant HoldsForwards(t, es, exports, gateway, a, i)
      invariant forall j | HasPort(es, a, j) && j < i :: PortAt(es, a, j).protocol == TCP
    {
      var p := vm.config.ports[i];
      assert HasPort(es, a, i) && PortAt(es, a, i) == p;
      if p.protocol != TCP {
        return None;
      }
      ForwardsOneMore(t, es, exports, gateway, a, i);
      t := AddForward(t, es, exports, gateway, a, i);
    }
    ForwardsNextEntry(t, es, exports, gateway, a);
    return Some(t);
  }

  function WithForward(t: Table, gateway: string, n: int, ip: string, f: Forwarder): Table {
    t[n := Listener(if n in t then t[n].listenAddr else Addr(gateway, n),
                    (if n in t then t[n].forwards else map[])[ip := f])]
  }

  function Extended(t: Table, es: seq<Entry>, exports: map<string, VM>, gateway: string, a: nat, i: nat): Table
    requires HasPort(es, a, i)
  {
    if Served(es, exports, a, i)
    then WithForward(t, gateway, ListenPort(PortAt(es, a, i)), es[a].vm.ip, ForwardOf(es, exports, a, i)) else t
  }

  lemma OnlyForwardsOneMore(t: Table, es: seq<Entry>, exports: map<string, VM>, gateway: string, a: nat, i: nat)
    requires HasPort(es, a, i) && OnlyForwards(t, es, exports, a, i)
    ensures OnlyForwards(Extended(t, es, exports, gateway, a, i), es, exports, a, i + 1)
  {
    var after := Extended(t, es, exports, gateway, a, i);
    forall n, ip | n in after && ip in after[n].forwards
      ensures exists b, j :: Forwards(es, exports, n, ip, after[n].forwards[ip], b, j) && Before(b, j, a, i + 1)
    {
      if Served(es, exports, a, i) && n == ListenPort(PortAt(es, a, i)) && ip == es[a].vm.ip {
        assert Forwards(es, exports, n, ip, after[n].forwards[ip], a, i) && Before(a, i, a, i + 1);
      } else {
        var b, j :| Forwards(es, exports, n, ip, t[n].forwards[ip], b, j) && Before(b, j, a, i);
        assert Before(b, j, a, i + 1);
      }
    }
  }

  lemma AllForwardedOneMore(t: Table, es: seq<Entry>, exports: map<string, VM>, gateway: string, a: nat, i: nat)
    requires HasPort(es, a, i) && AllForwarded(t, es, exports, a, i)
    ensures AllForwarded(Extended(t, es, exports, gateway, a, i), es, exports, a, i + 1)
  {
  }

  lemma AddressedOneMore(t: Table, gateway: string, n: int, ip: string, f: Forwarder)
    requires Addressed(t, gateway)
    ensures Addressed(WithForward(t, gateway, n, ip, f), gateway)
  {
    assert ip in WithForward(t, gateway, n, ip, f)[n].forwards.Keys;
  }

  lemma ForwardsOneMore(t: Table, es: seq<Entry>, exports: map<string, VM>, gateway: string, a: nat, i: nat)
    requires HasPort(es, a, i) && HoldsForwards(t, es, exports, gateway, a, i)
    ensures HoldsForwards(Extended(t, es, exports, gateway, a, i), es, exports, gateway, a, i + 1)
  {
    AllForwardedOneMore(t, es, exports, gateway, a, i);
    OnlyForwardsOneMore(t, es, exports, gateway, a, i);
    if Served(es, exports, a, i) {
      AddressedOneMore(t, gateway, ListenPort(PortAt(es, a, i)), es[a].vm.ip, ForwardOf(es, exports, a, i));
    }
  }

  lemma ForwardsNextEntry(t: Table, es: seq<Entry>, exports: map<string, VM>, gateway: string, a: nat)
    requires a < |es| && HoldsForwards(t, es, exports, gateway, a, |es[a].vm.config.ports|)
    ensures HoldsForwards(t, es, exports, gateway, a + 1, 0)
  {
  }

  // -- public listeners -----------------------------------------------------

  function PublicListener(es: seq<Entry>, a: nat, i: nat): Listener
    requires HasPort(es, a, i)
  {
    var p := PortAt(es, a, i);
    Listener(Addr("", p.publicPort), map["*" := Forwarder(Addr(es[a].vm.ip, p.port), p.proxyPort)])
  }

  ghost predicate AllPublished(t: Table, private: Table, es: seq<Entry>, a: int, i: int) {
    forall b, j | Publishes(es, b, j) && Before(b, j, a, i) ::
      var n := PortAt(es, b, j).publicPort; n in t && n !in private && t[n] == PublicListener(es, b, j)
  }

  ghost predicate OnlyPublished(t: Table, private: Table, es: seq<Entry>, a: int, i: int) {
    forall n | n in t ::
      if n in private then t[n] == private[n]
      else exists b, j :: Publishes(es, b, j) && Before(b, j, a, i) && PortAt(es, b, j).publicPort == n
  }

  ghost predicate PublishedApart(es: seq<Entry>, a: int, i: int) {
    forall b, j, c, k | Publishes(es, b, j) && Before(b, j, a, i) && Publishes(es, c, k) && Before(c, k, a, i)
      && PortAt(es, b, j).publicPort == PortAt(es, c, k).publicPort :: b == c && j == k
  }

  /** The table `t` is `private` plus one listener per public port, at ports of its own. */
  ghost predicate HoldsPublic(t: Table, private: Table, es: seq<Entry>, a: int, i: int) {
    && private.Keys <= t.Keys && AllPublished(t, private, es, a, i)
    && OnlyPublished(t, private, es, a, i) && PublishedApart(es, a, i)
  }

  /** Public ports are pairwise distinct, and none is a port of a private listener. */
  ghost predicate PublicPortsFree(private: Table, es: seq<Entry>) {
    && (forall b, j | Publishes(es, b, j) :: PortAt(es, b, j).publicPort !in private)
    && (forall b, j, c, k | Publishes(es, b, j) && Publishes(es, c, k)
          && PortAt(es, b, j).publicPort == PortAt(es, c, k).publicPort :: b == c && j == k)
  }

  method AddPublic(es: seq<Entry>, private: Table) returns (r: Option<Table>)
    ensures r.Some? <==> PublicPortsFree(private, es)
    ensures r.Some? ==> HoldsPublic(r.value, private, es, |es|, 0)
  {
    var t := private;
    for a := 0 to |es|
      invariant HoldsPublic(t, private, es, a, 0)
    {
      r := AddPublicOf(es, private, a, t);
      if r.None? {
        return;
      }
      t := r.value;
    }
    PublicDone(t, private, es);
    return Some(t);
  }

  lemma PublicDone(t: Table, private: Table, es: seq<Entry>)
    requires HoldsPublic(t, private, es, |es|, 0)
    ensures PublicPortsFree(private, es)
  {
  }

  method AddPublicOf(es: seq<Entry>, private: Table, a: nat, before: Table) returns (r: Option<Table>)
    requires a < |es| && HoldsPublic(before, private, es, a, 0)
    ensures r.None? ==> !PublicPortsFree(private, es)
    ensures r.Some? ==> HoldsPublic(r.value, private, es, a + 1, 0)
  {
    var t := before;
    if !es[a].active {
      PublicNextEntry(t, private, es, a, 0);
      return Some(t);
    }
    var vm := es[a].vm;
    for i := 0 to |vm.config.ports|
      invariant HoldsPublic(t, private, es, a, i)
    {
      var p := vm.config.ports[i];
      assert HasPort(es, a, i);
      if !Publishes(es, a, i) || p.publicPort !in t {
        PublicOneMore(t, private, es, a, i);
      }
      ghost var published := Published(t, es, a, i);
      if p.publicPort != 0 {
        assert Publishes(es, a, i);
        if p.publicPort in t {
          PublicTaken(t, private, es, a, i);
          return None;
        }
        t := t[p.publicPort := Listener(Addr("", p.publicPort),
          map["*" := Forwarder(Addr(vm.ip, p.port), p.proxyPort)])];
      }
      assert t == published;
    }
    PublicNextEntry(t, private, es, a, |vm.config.ports|);
    return Some(t);
  }

  lemma PublicTaken(t: Table, private: Table, es: seq<Entry>, a: nat, i: nat)
    requires HoldsPublic(t, private, es, a, i) && Publishes(es, a, i) && PortAt(es, a, i).publicPort in t
    ensures !PublicPortsFree(private, es)
  {
  }

  function Published(t: Table, es: seq<Entry>, a: nat, i: nat): Table
    requires HasPort(es, a, i)
  {
    if Publishes(es, a, i) then t[PortAt(es, a, i).publicPort := PublicListener(es, a, i)] else t
  }

  lemma OnlyPublishedOneMore(t: Table, private: Table, es: seq<Entry>, a: nat, i: nat)
    requires HasPort(es, a, i) && OnlyPublished(t, private, es, a, i)
    requires Publishes(es, a, i) ==> PortAt(es, a, i).publicPort !in t && private.Keys <= t.Keys
    ensures OnlyPublished(Published(t, es, a, i), private, es, a, i + 1)
  {
  }

  lemma AllPublishedOneMore(t: Table, private: Table, es: seq<Entry>, a: nat, i: nat)
    requires HasPort(es, a, i) && AllPublished(t, private, es, a, i) && PublishedApart(es, a, i)
    requires Publishes(es, a, i) ==> PortAt(es, a, i).publicPort !in t && private.Keys <= t.Keys
    ensures AllPublished(Published(t, es, a, i), private, es, a, i + 1) && PublishedApart(es, a, i + 1)
  {
  }

  lemma PublicOneMore(t: Table, private: Table, es: seq<Entry>, a: nat, i: nat)
    requires HoldsPublic(t, private, es, a, i) && HasPort(es, a, i)
    requires Publishes(es, a, i) ==> PortAt(es, a, i).publicPort !in t
    ensures HoldsPublic(Published(t, es, a, i), private, es, a, i + 1)
  {
    OnlyPublishedOneMore(t, private, es, a, i);
    AllPublishedOneMore(t, private, es, a, i);
  }

  lemma PublicNextEntry(t: Table, private: Table, es: seq<Entry>, a: nat, i: nat)
    requires a < |es| && HoldsPublic(t, private, es, a, i)
    requires if es[a].active then i == |es[a].vm.config.ports| else i == 0
    ensures HoldsPublic(t, private, es, a + 1, 0)
  {
  }
}
