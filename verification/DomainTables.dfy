/** The table of domains that mulch-proxy serves, generated from the active VMs. */
module DomainTables {
  import opened Results
  import opened VMNames
  import opened VMRegistry

  /** Where the proxy sends a domain: to a host, unless it redirects. */
  datatype Route = Route(vmName: string, redirectTo: string, destinationHost: string, destinationPort: int)

  type Table = map<string, Route>

  /** The i-th domain of an active entry. */
  ghost predicate Claims(db: Entries, id: string, i: int) {
    id in db && db[id].active && 0 <= i < |db[id].vm.config.domains|
  }

  function DomainOf(db: Entries, id: string, i: nat): string
    requires id in db && i < |db[id].vm.config.domains|
  {
    db[id].vm.config.domains[i].name
  }

  function RouteOf(e: Entry, i: nat): Route
    requires i < |e.vm.config.domains|
  {
    var d := e.vm.config.domains[i];
    Route(e.name.ID(), d.redirectTo, if d.redirectTo == "" then e.vm.lastIP else "", d.destinationPort)
  }

  /** No domain is claimed twice. */
  ghost predicate NoDuplicate(db: Entries) {
    forall a, i, b, j | Claims(db, a, i) && Claims(db, b, j) && DomainOf(db, a, i) == DomainOf(db, b, j) ::
      a == b && i == j
  }

  /** A claim on a domain by an entry of `done`, or by one of the first `n` domains of `id`. */
  ghost predicate Processed(db: Entries, done: set<string>, id: string, n: int, x: string, j: int) {
    Claims(db, x, j) && (x in done || (x == id && j < n))
  }

  /** The table holds exactly the processed claims, and they are distinct. */
  ghost predicate Holds(table: Table, db: Entries, done: set<string>, id: string, n: int) {
    && (forall x, j | Processed(db, done, id, n, x, j) ::
          DomainOf(db, x, j) in table && table[DomainOf(db, x, j)] == RouteOf(db[x], j))
    && (forall d | d in table :: exists x, j :: Processed(db, done, id, n, x, j) && DomainOf(db, x, j) == d)
    && (forall a, i, b, j | Processed(db, done, id, n, a, i) && Processed(db, done, id, n, b, j)
          && DomainOf(db, a, i) == DomainOf(db, b, j) :: a == b && i == j)
  }

  ghost predicate IsTable(table: Table, db: Entries) {
    Holds(table, db, db.Keys, "", 0)
  }

  /** Each claimed domain is routed to its VM: it redirects as the config says, or else goes to the last
      IP of that VM, at the port of the config. */
  ghost predicate RoutesFit(table: Table, db: Entries) {
    forall id, i | Claims(db, id, i) ::
      var d := db[id].vm.config.domains[i];
      && d.name in table && table[d.name].vmName == db[id].name.ID()
      && table[d.name].redirectTo == d.redirectTo && table[d.name].destinationPort == d.destinationPort
      && (d.redirectTo == "" ==> table[d.name].destinationHost == db[id].vm.lastIP)
      && (d.redirectTo != "" ==> table[d.name].destinationHost == "")
  }

  lemma RoutesOf(table: Table, db: Entries)
    requires IsTable(table, db)
    ensures RoutesFit(table, db)
  {
    assert forall x, j | Claims(db, x, j) :: Processed(db, db.Keys, "", 0, x, j);
    forall id, i | Claims(db, id, i)
      ensures DomainOf(db, id, i) in table && table[DomainOf(db, id, i)] == RouteOf(db[id], i)
    {
      assert Processed(db, db.Keys, "", 0, id, i);
    }
  }

  /** genDomainsDB, with the entries in any order: fails exactly when a domain is duplicated. */
  method GenDomains(db: Entries) returns (r: Option<Table>)
    ensures r.Some? <==> NoDuplicate(db)
    ensures r.Some? ==> IsTable(r.value, db) && RoutesFit(r.value, db)
  {
    var table: Table := map[];
    var todo := db.Keys;
    while todo != {}
      invariant todo <= db.Keys
      invariant Holds(table, db, db.Keys - todo, "", 0)
    {
      var id :| id in todo;
      ghost var done := db.Keys - todo;
      todo := todo - {id};
      r := AddDomains(db, id, table, done);
      if r.None? {
        return;
      }
      table := r.value;
      assert db.Keys - todo == done + {id};
    }
    AllDistinct(table, db);
    RoutesOf(table, db);
    return Some(table);
  }

  /** The domains of one entry. */
  method AddDomains(db: Entries, id: string, before: Table, ghost done: set<string>) returns (r: Option<Table>)
    requires id in db && id !in done && Holds(before, db, done, "", 0)
    ensures r.None? ==> !NoDuplicate(db)
    ensures r.Some? ==> Holds(r.value, db, done + {id}, "", 0)
  {
    var table := before;
    if !db[id].active {
      HoldsAll(table, db, done, id, 0);
      return Some(table);
    }
    var domains := db[id].vm.config.domains;
    for i := 0 to |domains|
      invariant Holds(table, db, done, id, i)
    {
      if domains[i].name in table {
        Duplicated(table, db, done, id, i);
        return None;
      }
      HoldsOneMore(table, db, done, id, i);
      table := table[domains[i].name := RouteOf(db[id], i)];
    }
    HoldsAll(table, db, done, id, |domains|);
    return Some(table);
  }

  lemma Duplicated(table: Table, db: Entries, done: set<string>, id: string, i: nat)
    requires Holds(table, db, done, id, i) && Claims(db, id, i) && id !in done && DomainOf(db, id, i) in table
    ensures !NoDuplicate(db)
  {
  }

  lemma HoldsOneMore(table: Table, db: Entries, done: set<string>, id: string, i: nat)
    requires Holds(table, db, done, id, i) && Claims(db, id, i) && id !in done && DomainOf(db, id, i) !in table
    ensures Holds(table[DomainOf(db, id, i) := RouteOf(db[id], i)], db, done, id, i + 1)
  {
    var after := table[DomainOf(db, id, i) := RouteOf(db[id], i)];
    forall x, j | Processed(db, done, id, i + 1, x, j)
      ensures Processed(db, done, id, i, x, j) || (x == id && j == i)
    {
    }
    forall d | d in after ensures exists x, j :: Processed(db, done, id, i + 1, x, j) && DomainOf(db, x, j) == d {
      if d in table {
        var x, j :| Processed(db, done, id, i, x, j) && DomainOf(db, x, j) == d;
        assert Processed(db, done, id, i + 1, x, j);
      } else {
        assert Processed(db, done, id, i + 1, id, i);
      }
    }
  }

  lemma HoldsAll(table: Table, db: Entries, done: set<string>, id: string, n: nat)
    requires Holds(table, db, done, id, n) && id in db && id !in done
    requires if db[id].active then n == |db[id].vm.config.domains| else n == 0
    ensures Holds(table, db, done + {id}, "", 0)
  {
    forall x, j ensures Processed(db, done + {id}, "", 0, x, j) <==> Processed(db, done, id, n, x, j) {
    }
    forall d | d in table ensures exists x, j :: Processed(db, done + {id}, "", 0, x, j) && DomainOf(db, x, j) == d {
      var x, j :| Processed(db, done, id, n, x, j) && DomainOf(db, x, j) == d;
      assert Processed(db, done + {id}, "", 0, x, j);
    }
  }

  lemma AllDistinct(table: Table, db: Entries)
    requires IsTable(table, db)
    ensures NoDuplicate(db)
  {
  }

  lemma InvariantHasNoDuplicate(db: Entries)
    requires Inv(db)
    ensures NoDuplicate(db)
  {
    forall a, i, b, j | Claims(db, a, i) && Claims(db, b, j) && DomainOf(db, a, i) == DomainOf(db, b, j)
      ensures a == b && i == j
    {
      var da, db' := DomainNames(db[a].vm.config.domains), DomainNames(db[b].vm.config.domains);
      assert DomainOf(db, a, i) in da * db';
      assert EntryOK(db[a]);
    }
  }

  lemma TableHasClaimed(db: Entries, table: Table, id: string, d: string)
    requires IsTable(table, db) && id in db && db[id].active && d in DomainNames(db[id].vm.config.domains)
    ensures d in table
  {
    var i :| 0 <= i < |db[id].vm.config.domains| && db[id].vm.config.domains[i].name == d;
    assert Claims(db, id, i) && DomainOf(db, id, i) == d && Processed(db, db.Keys, "", 0, id, i);
  }

  lemma TableIsClaimed(db: Entries, table: Table, d: string)
    requires IsTable(table, db) && d in table
    ensures exists id :: id in db && db[id].active && d in DomainNames(db[id].vm.config.domains)
  {
    var x, j :| Processed(db, db.Keys, "", 0, x, j) && DomainOf(db, x, j) == d;
    assert db[x].vm.config.domains[j] in db[x].vm.config.domains;
  }

  /** In every database that the operations can reach, no domain is duplicated: generating the
      table never fails, and the table is exactly the union of the active VMs' domains. */
  lemma TableOfInvariant(db: Entries, table: Table)
    requires Inv(db)
    ensures NoDuplicate(db)
    ensures IsTable(table, db) ==>
      && table.Keys == (set id, d | id in db && db[id].active && d in DomainNames(db[id].vm.config.domains) :: d)
      && RoutesFit(table, db)
  {
    InvariantHasNoDuplicate(db);
    if IsTable(table, db) {
      TableMeaning(db, table);
      RoutesOf(table, db);
    }
  }

  lemma TableMeaning(db: Entries, table: Table)
    requires IsTable(table, db)
    ensures table.Keys == (set id, d | id in db && db[id].active && d in DomainNames(db[id].vm.config.domains) :: d)
  {
    forall id, d | id in db && db[id].active && d in DomainNames(db[id].vm.config.domains) ensures d in table {
      TableHasClaimed(db, table, id, d);
    }
    forall d | d in table
      ensures exists id :: id in db && db[id].active && d in DomainNames(db[id].vm.config.domains)
    {
      TableIsClaimed(db, table, d);
    }
  }
}
