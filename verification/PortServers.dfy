/** The TCP proxy as a whole: a refresh opens, updates and closes listeners so that they follow
    the table of ports that was loaded. */
module PortServers {
  import opened Results
  import opened PortTables
  import opened PortListeners

  ghost predicate Apart(listeners: map<int, PortListener>) {
    forall n, m | n in listeners && m in listeners && n != m :: listeners[n] != listeners[m]
  }

  type Views = map<int, View>

  function Find(views: Views, n: int): Option<View> {
    if n in views then Some(views[n]) else None
  }

  /** One refresh of one port of the table: what its listener was, if any, and what it is now. */
  ghost predicate Followed(before: Option<View>, after: Option<View>, l: Listener, version: int, canListen: bool) {
    match before
    case Some(v) => after.Some? && Reloaded(v.(version := version), after.value, l.forwards)
    case None =>
      if canListen then
        && after.Some? && ViewOK(after.value) && !after.value.closed && OpenedFor(after.value, l)
        && after.value.forwards == l.forwards && after.value.version == version
      else after.None?
  }

  /** What is settled when a listener is opened. */
  predicate OpenedFor(v: View, l: Listener) {
    v.addr == l.listenAddr && v.public == ("*" in l.forwards)
  }

  /** The sweep closes a listener without the current version, if it can. */
  function SweptView(v: View, version: int, canClose: bool): View {
    if v.version == version then v else Stopped(v, canClose)
  }

  predicate Stays(v: View, version: int, canClose: bool) {
    v.version == version || !canClose
  }

  /** The sweep of all ports but those still to do. */
  ghost predicate AllSwept(before: Views, after: Views, todo: set<int>, version: int, canClose: set<int>) {
    && after.Keys == before.Keys
    && forall n | n in before ::
         after[n] == if n in todo then before[n] else SweptView(before[n], version, n in canClose)
  }

  lemma SweptOneMore(before: Views, after: Views, todo: set<int>, n: int, version: int, canClose: set<int>)
    requires AllSwept(before, after, todo, version, canClose) && n in todo && n in before
    ensures after[n] == before[n]
    ensures AllSwept(before, after[n := SweptView(before[n], version, n in canClose)], todo - {n}, version, canClose)
  {
  }

  /** The listeners that stay after that sweep. */
  ghost function Remaining(listeners: map<int, PortListener>, views: Views, todo: set<int>, version: int,
                           canClose: set<int>)
    : map<int, PortListener>
    requires listeners.Keys <= views.Keys
  {
    map n | n in listeners && (n in todo || Stays(views[n], version, n in canClose)) :: listeners[n]
  }

  lemma RemainingOneMore(listeners: map<int, PortListener>, views: Views, todo: set<int>, n: int, version: int,
                         canClose: set<int>)
    requires listeners.Keys <= views.Keys && n in todo && n in listeners
    ensures var now := Remaining(listeners, views, todo, version, canClose);
      && n in now && now[n] == listeners[n]
      && Remaining(listeners, views, todo - {n}, version, canClose)
           == if Stays(views[n], version, n in canClose) then now else map m | m in now && m != n :: now[m]
  {
  }

  ghost predicate OneFollowed(before: Views, after: Views, n: int, db: Table, version: int, canListen: bool) {
    && n in db && Followed(Find(before, n), Find(after, n), db[n], version, canListen)
    && forall m | m != n :: Find(after, m) == Find(before, m)
  }

  /** The refresh of all ports in a set; those of the rest are as before. */
  ghost predicate AllFollowed(before: Views, after: Views, ports: set<int>, db: Table, version: int,
                              canListen: set<int>)
  {
    && (forall n | n in ports && n in db ::
      Followed(Find(before, n), Find(after, n), db[n], version, n in canListen))
    && (forall n | n !in ports :: Find(after, n) == Find(before, n))
  }

  lemma FollowedOneMore(before: Views, mid: Views, after: Views, ports: set<int>, n: int, db: Table, version: int,
                        canListen: set<int>)
    requires AllFollowed(before, mid, ports, db, version, canListen) && n in db && n !in ports
    requires OneFollowed(mid, after, n, db, version, n in canListen)
    ensures AllFollowed(before, after, ports + {n}, db, version, canListen)
  {
  }

  /** A whole refresh: the listeners follow the ports of the table, and of the others only those
      that could not be closed remain. */
  ghost predicate Refreshed(before: Views, after: Views, db: Table, version: int, canListen: set<int>,
                            canClose: set<int>)
  {
    && (forall n | n in db :: Followed(Find(before, n), Find(after, n), db[n], version, n in canListen))
    && (forall n | n !in db ::
          Find(after, n) == if n in before && n !in canClose then Some(Stopped(before[n], false)) else None)
  }

  ghost predicate Older(views: Views, version: int) {
    forall n | n in views :: ViewOK(views[n]) && views[n].version < version
  }

  lemma MarkedIffInTable(before: Views, mid: Views, db: Table, version: int, canListen: set<int>)
    requires Older(before, version) && AllFollowed(before, mid, db.Keys, db, version, canListen)
    ensures forall n | n in mid :: ViewOK(mid[n]) && (mid[n].version == version <==> n in db)
  {
    forall n | n in mid ensures ViewOK(mid[n]) && (mid[n].version == version <==> n in db) {
      if n in db {
        assert Followed(Find(before, n), Find(mid, n), db[n], version, n in canListen);
      } else {
        assert Find(mid, n) == Find(before, n);
      }
    }
  }

  function Kept(mid: Views, all: Views, version: int, canClose: set<int>): Views {
    map n | n in mid && n in all && Stays(mid[n], version, n in canClose) :: all[n]
  }

  /** The sweep spares every port of the table. */
  lemma RefreshedBySweep(before: Views, mid: Views, all: Views, db: Table, version: int, canListen: set<int>,
                         canClose: set<int>)
    requires AllFollowed(before, mid, db.Keys, db, version, canListen) && AllSwept(mid, all, {}, version, canClose)
    requires forall n | n in mid :: mid[n].version == version <==> n in db
    ensures Refreshed(before, Kept(mid, all, version, canClose), db, version, canListen, canClose)
  {
  }

  /** After a refresh the open listeners are exactly the ports of the table, apart from those that
      could not be added or closed; each follows the latest map of its port, and none of the
      table has been closed. */
  lemma ListenersAreTable(before: Views, after: Views, db: Table, version: int, canListen: set<int>, canClose: set<int>)
    requires Refreshed(before, after, db, version, canListen, canClose)
    ensures forall n | n in db :: n in after <==> n in before || n in canListen
    ensures forall n | n !in db :: n in after <==> n in before && n !in canClose
    ensures forall n | n in db && n in after ::
      ViewOK(after[n]) && after[n].forwards == db[n].forwards && (after[n].closed <==> n in before && before[n].closed)
  {
  }

  /** One refresh: the table that was loaded, and which ports can be opened and closed. */
  datatype Refresh = Refresh(db: Table, version: int, canListen: set<int>, canClose: set<int>)

  ghost predicate IsRun(views: seq<Views>, refreshes: seq<Refresh>) {
    && |views| == |refreshes| + 1
    && forall i, j | 0 <= i < |refreshes| && j == i + 1 ::
         var r := refreshes[i]; Refreshed(views[i], views[j], r.db, r.version, r.canListen, r.canClose)
  }

  lemma AddressKept(before: Views, after: Views, r: Refresh, n: int)
    requires Refreshed(before, after, r.db, r.version, r.canListen, r.canClose) && n in after
    ensures n in before ==> after[n].addr == before[n].addr && after[n].public == before[n].public
    ensures n !in before ==> n in r.db && OpenedFor(after[n], r.db[n])
  {
    if n in r.db {
      assert Followed(Find(before, n), Find(after, n), r.db[n], r.version, n in r.canListen);
    }
  }

  /** Over any sequence of refreshes a listener keeps the address and the kind (public or not) that the
      table had for its port when it was opened, whatever later tables say. */
  lemma OpenedOnce(views: seq<Views>, refreshes: seq<Refresh>, start: nat, n: int)
    requires IsRun(views, refreshes) && start < |refreshes| && n !in views[start]
    requires forall i | start < i < |views| :: n in views[i]
    ensures n in refreshes[start].db
    ensures forall i | start < i < |views| :: OpenedFor(views[i][n], refreshes[start].db[n])
  {
    AddressKept(views[start], views[start + 1], refreshes[start], n);
    for k := start + 1 to |refreshes|
      invariant n in refreshes[start].db
      invariant forall i | start < i <= k :: OpenedFor(views[i][n], refreshes[start].db[n])
    {
      AddressKept(views[k], views[k + 1], refreshes[k], n);
    }
  }

  /** Listeners stay in place; the new ones are those added. */
  ghost predicate Grown(before: map<int, PortListener>, after: map<int, PortListener>, added: set<PortListener>) {
    && (forall n | n in before :: n in after && after[n] == before[n])
    && (forall n | n in after && n !in before :: after[n] in added)
  }

  ghost predicate Shows(listeners: map<int, PortListener>, views: Views)
    reads listeners.Values
  {
    views.Keys == listeners.Keys && forall n | n in listeners :: listeners[n].Snapshot() == views[n]
  }

  /** What the sweep leaves, and what became of the listeners it closed. */
  lemma ShowsSwept(ls: map<int, PortListener>, mid: Views, all: Views, version: int, canClose: set<int>)
    requires Shows(ls, all) && AllSwept(mid, all, {}, version, canClose)
    ensures Shows(Remaining(ls, mid, {}, version, canClose), Kept(mid, all, version, canClose))
    ensures forall n | n in ls && !Stays(mid[n], version, n in canClose) :: ls[n].Snapshot() == Stopped(mid[n], true)
  {
  }

  lemma RefreshedOK(before: Views, after: Views, db: Table, version: int, canListen: set<int>, canClose: set<int>)
    requires Older(before, version) && Refreshed(before, after, db, version, canListen, canClose)
    ensures forall n | n in after :: ViewOK(after[n]) && after[n].version <= version
  {
    forall n | n in after ensures ViewOK(after[n]) && after[n].version <= version {
      if n in db {
        assert Followed(Find(before, n), Find(after, n), db[n], version, n in canListen);
      } else {
        assert Find(after, n) == Some(Stopped(before[n], false));
      }
    }
  }

  class PortServer {
    var db: Table
    var listeners: map<int, PortListener>
    var currentVersion: int

    constructor (db: Table)
      ensures Seen(map[]) && this.db == db && listeners == map[] && currentVersion == 0
    {
      this.db, listeners, currentVersion := db, map[], 0;
    }

    /** The state of all listeners; their versions are no newer than that of the server. */
    ghost predicate Seen(views: Views)
      reads this, listeners.Values
    {
      Apart(listeners) && Shows(listeners, views) && Older(views, currentVersion + 1)
    }

    /** `canListen` are the ports that can be opened, `canClose` those that can be closed. */
    method RefreshListeners(canListen: set<int>, canClose: set<int>, ghost before: Views) returns (ghost after: Views)
      requires Seen(before)
      modifies this`listeners, this`currentVersion, listeners.Values
      ensures Seen(after) && Refreshed(before, after, db, currentVersion, canListen, canClose)
      ensures forall n | n in old(listeners) && n in after :: listeners[n] == old(listeners)[n]
      ensures forall n | n in old(listeners) && n !in after :: old(listeners)[n].Snapshot() == Stopped(before[n], true)
    {
      currentVersion := currentVersion + 1;
      ghost var mid, added := OpenAndUpdate(canListen, before);
      MarkedIffInTable(before, mid, db, currentVersion, canListen);
      ghost var all := CloseUnused(canClose, mid, old(listeners).Values + added);
      RefreshedBySweep(before, mid, all, db, currentVersion, canListen, canClose);
      after := Kept(mid, all, currentVersion, canClose);
      RefreshedOK(before, after, db, currentVersion, canListen, canClose);
    }

    method UpdatePort(n: int, ghost views0: Views, ghost canListen: bool) returns (ghost views: Views)
      requires n in db && n in listeners && Apart(listeners) && Shows(listeners, views0) && ViewOK(views0[n])
      modifies listeners[n]
      ensures Shows(listeners, views) && OneFollowed(views0, views, n, db, currentVersion, canListen)
    {
      listeners[n].version := currentVersion;
      listeners[n].UpdateForwardMap(db[n].forwards);
      views := views0[n := listeners[n].Snapshot()];
    }

    method OpenPort(n: int, ghost views0: Views) returns (ghost views: Views, ghost added: PortListener)
      requires n in db && n !in listeners && Apart(listeners) && Shows(listeners, views0)
      modifies this`listeners
      ensures fresh(added) && listeners == old(listeners)[n := added] && Apart(listeners)
      ensures Shows(listeners, views) && OneFollowed(views0, views, n, db, currentVersion, true)
    {
      var listener := new PortListener(db[n].listenAddr, db[n].forwards, currentVersion);
      listeners := listeners[n := listener];
      views, added := views0[n := listener.Snapshot()], listener;
    }

    /** One more port of the table; those in `done` have been followed since `before`. */
    method OpenOrUpdate(n: int, canListen: set<int>, ghost before: Views, ghost views0: Views, ghost done: set<int>)
      returns (ghost views: Views, ghost started: set<PortListener>)
      requires n in db && n !in done && Apart(listeners) && Shows(listeners, views0)
      requires (n in before ==> ViewOK(before[n])) && AllFollowed(before, views0, done, db, currentVersion, canListen)
      modifies this`listeners, if n in listeners then {listeners[n]} else {}
      ensures Apart(listeners) && Shows(listeners, views)
      ensures fresh(started) && Grown(old(listeners), listeners, started)
      ensures AllFollowed(before, views, done + {n}, db, currentVersion, canListen)
    {
      views, started := views0, {};
      assert Find(views0, n) == Find(before, n);
      if n in listeners {
        views := UpdatePort(n, views0, n in canListen);
      } else if n in canListen {
        ghost var l;
        views, l := OpenPort(n, views0);
        started := {l};
      }
      FollowedOneMore(before, views0, views, done, n, db, currentVersion, canListen);
    }

    method OpenAndUpdate(canListen: set<int>, ghost views0: Views)
      returns (ghost views: Views, ghost added: set<PortListener>)
      requires Apart(listeners) && Shows(listeners, views0) && forall n | n in views0 :: ViewOK(views0[n])
      modifies this`listeners, listeners.Values
      ensures Apart(listeners) && Shows(listeners, views)
      ensures fresh(added) && Grown(old(listeners), listeners, added)
      ensures AllFollowed(views0, views, db.Keys, db, currentVersion, canListen)
    {
      ghost var before, table, version, done := listeners, db, currentVersion, {};
      views, added := views0, {};
      var todo := db.Keys;
      while exists n :: n in todo
        invariant todo <= table.Keys && done == table.Keys - todo
        invariant db == table && currentVersion == version
        invariant fresh(added) && Grown(before, listeners, added)
        invariant Apart(listeners) && Shows(listeners, views)
        invariant AllFollowed(views0, views, done, table, version, canListen)
        decreases todo
      {
        var n :| n in todo;
        ghost var started;
        views, started := OpenOrUpdate(n, canListen, views0, views, done);
        added := added + started;
        todo := todo - {n};
        done := done + {n};
      }
      assert done == table.Keys;
    }

    method SweepPort(n: int, canClose: bool)
      requires n in listeners && ChannelsOK(listeners[n].Channels())
      modifies this`listeners, listeners[n]
      ensures old(listeners)[n].Snapshot() == SweptView(old(listeners[n].Snapshot()), currentVersion, canClose)
      ensures listeners == if Stays(old(listeners[n].Snapshot()), currentVersion, canClose) then old(listeners)
        else map m | m in old(listeners) && m != n :: old(listeners)[m]
    {
      if listeners[n].version != currentVersion {
        var ok := listeners[n].Close(canClose);
        if ok {
          listeners := map m | m in listeners && m != n :: listeners[m];
        }
      }
    }

    method SweepShown(n: int, canClose: bool, ghost before: map<int, PortListener>, ghost all0: Views)
      returns (ghost all: Views)
      requires n in listeners && n in before && listeners[n] == before[n] && Apart(before)
      requires Shows(before, all0) && ViewOK(all0[n])
      modifies this`listeners, listeners[n]
      ensures all == all0[n := SweptView(all0[n], currentVersion, canClose)] && Shows(before, all)
      ensures listeners == if Stays(all0[n], currentVersion, canClose) then old(listeners)
        else map m | m in old(listeners) && m != n :: old(listeners)[m]
    {
      SweepPort(n, canClose);
      all := all0[n := SweptView(all0[n], currentVersion, canClose)];
    }

    method CloseUnused(canClose: set<int>, ghost views0: Views, ghost footprint: set<PortListener>)
      returns (ghost all: Views)
      requires Apart(listeners) && Shows(listeners, views0) && forall n | n in views0 :: ViewOK(views0[n])
      requires forall n | n in listeners :: listeners[n] in footprint
      modifies this`listeners, footprint
      ensures AllSwept(views0, all, {}, currentVersion, canClose)
      ensures Apart(listeners) && Shows(listeners, Kept(views0, all, currentVersion, canClose))
      ensures forall n | n in listeners :: listeners[n] == old(listeners)[n]
      ensures forall n | n in old(listeners) && n !in listeners ::
        old(listeners)[n].Snapshot() == Stopped(views0[n], true)
    {
      ghost var before, version := listeners, currentVersion;
      all := views0;
      var todo := listeners.Keys;
      assert before == Remaining(before, views0, todo, version, canClose);
      while exists n :: n in todo
        invariant todo <= before.Keys && currentVersion == version
        invariant Shows(before, all) && AllSwept(views0, all, todo, version, canClose)
        invariant listeners == Remaining(before, views0, todo, version, canClose)
        decreases todo
      {
        var n :| n in todo;
        SweptOneMore(views0, all, todo, n, version, canClose);
        RemainingOneMore(before, views0, todo, n, version, canClose);
        all := SweepShown(n, n in canClose, before, all);
        todo := todo - {n};
      }
      assert todo == {};
      ShowsSwept(before, views0, all, version, canClose);
    }
  }
}
