/** The secret database of one server: a last-writer-wins store with tombstones, and the merge
    with the entries of a peer. */
module Secrets {
  import opened Results

  datatype Entry = Entry(key: string, value: string, modified: int, author: string, deleted: bool)

  type Entries = map<string, Entry>

  predicate WellKeyed(db: Entries) {
    forall k | k in db :: db[k].key == k
  }

  // -- the merge ------------------------------------------------------------

  predicate Later(a: Entries, b: Entries, k: string)
    requires k in a
  {
    k !in b || b[k].modified < a[k].modified
  }

  /** What a database holds after merging `other`: per key the later entry, its own on a tie. */
  function Join(mine: Entries, other: Entries): Entries {
    map k | k in mine.Keys + other.Keys :: if k in other && Later(other, mine, k) then other[k] else mine[k]
  }

  /** The reply to a peer that sent `other`: the entries it lacks or holds strictly older. */
  function Delta(mine: Entries, other: Entries): Entries {
    map k | k in mine && Later(mine, other, k) :: mine[k]
  }

  /** `a` holds every key of `b`, with an entry that is not older. */
  ghost predicate Covers(a: Entries, b: Entries) {
    forall k | k in b :: k in a && b[k].modified <= a[k].modified
  }

  // -- the stored objects ---------------------------------------------------

  /** A stored secret. A deletion changes it in place, so a reply that refers to it changes
      too until it is sent. */
  class Secret {
    const key: string
    var value: string
    var modified: int
    var author: string
    var deleted: bool

    constructor (key: string, value: string, modified: int, author: string, deleted: bool)
      ensures this.key == key
      ensures View() == Entry(key, value, modified, author, deleted)
    {
      this.key := key;
      this.value := value;
      this.modified := modified;
      this.author := author;
      this.deleted := deleted;
    }

    function View(): Entry
      reads this
    {
      Entry(key, value, modified, author, deleted)
    }
  }

  ghost function Views(secrets: map<string, Secret>): Entries
    reads secrets.Values
  {
    map k | k in secrets :: secrets[k].View()
  }

  class SecretDatabase {
    var db: map<string, Secret>

    constructor ()
      ensures Valid() && db == map[]
    {
      db := map[];
    }

    /** Secrets are stored under their own key; so no two keys share an object. */
    ghost predicate Valid()
      reads this
    {
      forall k | k in db :: db[k].key == k
    }

    ghost function Contents(): Entries
      reads this, db.Values
    {
      Views(db)
    }

    /** Get finds exactly the keys whose entry is no tombstone, and the object that holds the entry. */
    method Get(key: string) returns (r: Option<Secret>)
      ensures r.Some? <==> key in Contents() && !Contents()[key].deleted
      ensures r.Some? ==> r.value.View() == Contents()[key] && r.value in db.Values
    {
      r := if key in db && !db[key].deleted then Some(db[key]) else None;
    }

    /** Stores a new object: the previous one, which a pending reply may hold, is unchanged. */
    method Set(key: string, value: string, author: string, now: int)
      requires Valid()
      modifies this
      ensures Valid()
      ensures key in db && fresh(db[key])
      ensures Contents() == old(Contents())[key := Entry(key, value, now, author, false)]
    {
      var secret := new Secret(key, value, now, author, false);
      db := db[key := secret];
    }

    /** Turns the stored object into a tombstone, in place. */
    method Delete(key: string, author: string, now: int) returns (ok: bool)
      requires Valid()
      modifies if key in db then {db[key]} else {}
      ensures Valid()
      ensures ok == (key in db && !old(if key in db then db[key].deleted else true))
      ensures ok ==> Contents() == old(Contents())[key := Entry(key, "", now, author, true)]
      ensures !ok ==> Contents() == old(Contents())
    {
      if key !in db || db[key].deleted {
        return false;
      }
      var secret := db[key];
      secret.value := "";
      secret.deleted := true;
      secret.modified := now;
      secret.author := author;
      assert forall k | k in db && k != key :: db[k] != secret;
      return true;
    }

    /** SyncWithDatabase: merges the entries of a peer, in any order, and returns those of its
        own that the peer lacks or holds older. Objects are stored and returned, not copied. */
    method SyncWithDatabase(other: map<string, Secret>) returns (newer: map<string, Secret>)
      requires Valid() && forall k | k in other :: other[k].key == k
      modifies this`db
      ensures Valid()
      ensures Contents() == Join(old(Contents()), old(Views(other)))
      ensures Views(newer) == Delta(old(Contents()), old(Views(other)))
      ensures forall k | k in newer :: k in db && newer[k] == db[k]
    {
      var merged;
      merged, newer := MergeSecrets(db, other);
      label merging:
      db := merged;
      assert Views(merged) == old@merging(Views(merged));
      assert Views(newer) == old@merging(Views(newer));
    }
  }

  /** The objects of the merged database, and those of `mine` to send back. */
  method MergeSecrets(mine: map<string, Secret>, other: map<string, Secret>)
    returns (merged: map<string, Secret>, newer: map<string, Secret>)
    requires forall k | k in mine :: mine[k].key == k
    requires forall k | k in other :: other[k].key == k
    ensures forall k | k in merged :: merged[k].key == k
    ensures Views(merged) == Join(Views(mine), Views(other))
    ensures Views(newer) == Delta(Views(mine), Views(other))
    ensures forall k | k in newer :: k in merged && newer[k] == merged[k]
  {
    var responseKeys;
    merged, responseKeys := MergeEntries(mine, other);
    newer := map k | k in responseKeys :: merged[k];
    MergedViews(mine, other, merged);
    NewerViews(mine, other, newer);
  }

  lemma MergedViews(mine: map<string, Secret>, other: map<string, Secret>, merged: map<string, Secret>)
    requires merged.Keys == mine.Keys + other.Keys
    requires forall k | k in merged :: merged[k] == Chosen(mine, other, k)
    ensures Views(merged) == Join(Views(mine), Views(other))
  {
  }

  lemma NewerViews(mine: map<string, Secret>, other: map<string, Secret>, newer: map<string, Secret>)
    requires newer.Keys == set k | k in mine && Keeps(mine, other, k)
    requires forall k | k in newer :: newer[k] == mine[k]
    ensures Views(newer) == Delta(Views(mine), Views(other))
  {
  }

  /** The loop of SyncWithDatabase: the merged objects, and the keys of `mine` to send back. */
  method MergeEntries(mine: map<string, Secret>, other: map<string, Secret>)
    returns (merged: map<string, Secret>, responseKeys: set<string>)
    requires forall k | k in mine :: mine[k].key == k
    requires forall k | k in other :: other[k].key == k
    ensures merged.Keys == mine.Keys + other.Keys
    ensures forall k | k in merged :: merged[k] == Chosen(mine, other, k)
    ensures responseKeys == set k | k in mine && Keeps(mine, other, k)
  {
    merged, responseKeys := mine, mine.Keys;
    var todo := other.Keys;
    while todo != {}
      invariant todo <= other.Keys
      invariant merged.Keys == mine.Keys + (other.Keys - todo)
      invariant forall k | k in merged :: merged[k] == if k in todo then mine[k] else Chosen(mine, other, k)
      invariant responseKeys == set k | k in mine && (k in todo || Keeps(mine, other, k))
    {
      var key :| key in todo;
      todo := todo - {key};
      var entry := other[key];
      var my := if entry.key in merged then Some(merged[entry.key]) else None;
      if my.None? || my.value.modified < entry.modified {
        merged := merged[entry.key := entry];
        responseKeys := responseKeys - {entry.key};
      }
      if my.Some? && !(entry.modified < my.value.modified) {
        responseKeys := responseKeys - {entry.key};
      }
    }
  }

  /** True if the peer's side of `k` is absent or strictly older. */
  predicate Keeps(mine: map<string, Secret>, other: map<string, Secret>, k: string)
    requires k in mine
    reads if k in other then {mine[k], other[k]} else {}
  {
    k !in other || other[k].modified < mine[k].modified
  }

  function Chosen(mine: map<string, Secret>, other: map<string, Secret>, k: string): Secret
    requires k in mine || k in other
    reads if k in mine && k in other then {mine[k], other[k]} else {}
  {
    if k !in other then mine[k]
    else if k !in mine || mine[k].modified < other[k].modified then other[k]
    else mine[k]
  }

  // -- properties of the merge ----------------------------------------------

  lemma JoinCovers(a: Entries, b: Entries)
    ensures Covers(Join(a, b), a) && Covers(Join(a, b), b)
    ensures WellKeyed(a) && WellKeyed(b) ==> WellKeyed(Join(a, b))
  {
  }

  /** Per key, a join has the later of both entries, the own one if neither is later; and the reply to a
      peer has what the peer lacks or holds older. */
  lemma JoinMeaning(mine: Entries, other: Entries, k: string)
    ensures k in Join(mine, other) <==> k in mine || k in other
    ensures k in mine && (k !in other || other[k].modified <= mine[k].modified) ==> Join(mine, other)[k] == mine[k]
    ensures k in other && (k !in mine || mine[k].modified < other[k].modified) ==> Join(mine, other)[k] == other[k]
    ensures k in Delta(mine, other) <==> k in mine && (k !in other || other[k].modified < mine[k].modified)
    ensures k in Delta(mine, other) ==> Delta(mine, other)[k] == mine[k]
  {
  }

  /** When a pusher merges the reply to its snapshot, it gets what merging the whole database of
      the peer would give, exactly when it has not fallen behind an entry that the peer held
      back because the snapshot had it. */
  lemma DeltaIsEnough(pusher: Entries, snapshot: Entries, peer: Entries)
    ensures Join(pusher, Delta(peer, snapshot)) == Join(pusher, peer)
      <==> forall k | k in peer && !Later(peer, snapshot, k) :: k in pusher && !Later(peer, pusher, k)
  {
    var a, b := Join(pusher, Delta(peer, snapshot)), Join(pusher, peer);
    if a == b {
      forall k | k in peer && !Later(peer, snapshot, k) ensures k in pusher && !Later(peer, pusher, k) {
        assert k in b && k in a;
        assert a[k] == b[k];
      }
    }
    if forall k | k in peer && !Later(peer, snapshot, k) :: k in pusher && !Later(peer, pusher, k) {
      assert a.Keys == b.Keys;
    }
  }

  /** However the pusher's database changed between its snapshot and the reply, the delta loses
      nothing as long as no entry of it went back in time. */
  lemma DeltaLosesNothing(pusher: Entries, snapshot: Entries, peer: Entries)
    requires Covers(pusher, snapshot)
    ensures Join(pusher, Delta(peer, snapshot)) == Join(pusher, peer)
  {
  }

  /** One complete call: the peer merges the pusher's database, the pusher merges the reply. */
  function RoundTrip(pusher: Entries, peer: Entries): (Entries, Entries) {
    (Join(pusher, Delta(peer, pusher)), Join(peer, pusher))
  }

  /** A call makes both sides equal exactly when they hold no two different entries for a key
      with one modification time: such a tie is never resolved. */
  lemma CallConverges(a: Entries, b: Entries)
    ensures var (a', b') := RoundTrip(a, b);
      a' == b' <==> forall k | k in a && k in b && a[k].modified == b[k].modified :: a[k] == b[k]
  {
    DeltaLosesNothing(a, a, b);
    var (a', b') := RoundTrip(a, b);
    assert a' == Join(a, b) && b' == Join(b, a);
    assert a'.Keys == b'.Keys;
    if a' == b' {
      forall k | k in a && k in b && a[k].modified == b[k].modified ensures a[k] == b[k] {
        assert a'[k] == a[k] && b'[k] == b[k];
      }
    }
  }
}
