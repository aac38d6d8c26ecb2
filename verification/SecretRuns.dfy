/** Any number of servers that write secrets and exchange them: calls are not atomic, so writes
    and other calls happen between a snapshot, its merge by the peer and the merge of the reply,
    and any message may be lost, delayed or overtaken. */
module SecretRuns {
  import opened Secrets

  /** A server: its database and the set of writes that have reached it, directly or through
      the databases of its peers. */
  datatype Replica = Replica(db: Entries, reached: set<Entry>)

  /** A pushed snapshot, or the reply to one. `holder` is what the sender held: all of it is
      sent in a push, but only `Delta(holder.db, asked)` in a reply. */
  datatype Message =
    | Push(src: nat, holder: Replica)
    | Reply(src: nat, dst: nat, holder: Replica, asked: Entries)

  /** Messages are never removed, so they can be delivered late, in any order, or never. */
  datatype State = State(replicas: seq<Replica>, net: set<Message>, writes: set<Entry>)

  datatype Step =
    | Set(r: nat, entry: Entry)
    | Delete(r: nat, key: string, author: string, now: int)
    | Snapshot(r: nat)
    | Receive(r: nat, push: Message)
    | Merge(reply: Message)

  /** What a replica sends of itself in a message. */
  function Sent(m: Message): Entries {
    match m
    case Push(_, holder) => holder.db
    case Reply(_, _, holder, asked) => Delta(holder.db, asked)
  }

  function Write(a: Replica, e: Entry): Replica {
    Replica(a.db[e.key := e], a.reached + {e})
  }

  function Tombstone(key: string, author: string, now: int): Entry {
    Entry(key, "", now, author, true)
  }

  /** A reply that has not left its server yet refers to the stored secrets: deleting one of
      them in place changes the reply. */
  function Rewritten(m: Message, r: nat, before: Entry, after: Entry): Message {
    if m.Reply? && m.src == r && before.key in Sent(m) && Sent(m)[before.key] == before
    then m.(holder := Write(m.holder, after)) else m
  }

  /** Two distinct writes to a key never carry the same time, and a local write is later than
      what its server holds. */
  predicate Stamped(s: State, r: nat, e: Entry)
    requires r < |s.replicas|
  {
    && (forall w | w in s.writes && w.key == e.key :: w.modified != e.modified)
    && (e.key in s.replicas[r].db ==> s.replicas[r].db[e.key].modified < e.modified)
  }

  predicate Enabled(s: State, step: Step) {
    match step
    case Set(r, entry) => r < |s.replicas| && Stamped(s, r, entry)
    case Delete(r, key, author, now) =>
      r < |s.replicas| && key in s.replicas[r].db && !s.replicas[r].db[key].deleted
      && Stamped(s, r, Tombstone(key, author, now))
    case Snapshot(r) => r < |s.replicas|
    case Receive(r, push) => r < |s.replicas| && push in s.net && push.Push?
    case Merge(reply) => reply in s.net && reply.Reply? && reply.dst < |s.replicas|
  }

  function Next(s: State, step: Step): State
    requires Enabled(s, step)
  {
    match step
    case Set(r, entry) =>
      s.(replicas := s.replicas[r := Write(s.replicas[r], entry)], writes := s.writes + {entry})
    case Delete(r, key, author, now) =>
      var tombstone := Tombstone(key, author, now);
      var rewritten := set m | m in s.net :: Rewritten(m, r, s.replicas[r].db[key], tombstone);
      State(s.replicas[r := Write(s.replicas[r], tombstone)], s.net + rewritten, s.writes + {tombstone})
    case Snapshot(r) => s.(net := s.net + {Push(r, s.replicas[r])})
    case Receive(r, push) =>
      var mine := s.replicas[r];
      s.(replicas := s.replicas[r := Replica(Join(mine.db, Sent(push)), mine.reached + push.holder.reached)],
         net := s.net + {Reply(r, push.src, mine, push.holder.db)})
    case Merge(reply) =>
      var mine := s.replicas[reply.dst];
      s.(replicas := s.replicas[reply.dst := Replica(Join(mine.db, Sent(reply)), mine.reached + reply.holder.reached)])
  }

  // -- the invariant --------------------------------------------------------

  /** The writes to one key are told apart by their times. */
  ghost predicate Unique(writes: set<Entry>) {
    forall v, w | v in writes && w in writes && v.key == w.key && v.modified == w.modified :: v == w
  }

  /** `db` holds, for each key, the latest of the given writes to it. */
  ghost predicate Latest(db: Entries, writes: set<Entry>) {
    && (forall w | w in writes :: w.key in db && w.modified <= db[w.key].modified)
    && (forall k | k in db :: db[k].key == k && db[k] in writes)
  }

  ghost predicate Sound(a: Replica, writes: set<Entry>) {
    Latest(a.db, a.reached) && a.reached <= writes
  }

  ghost predicate SoundMessage(m: Message, s: State) {
    && Sound(m.holder, s.writes)
    && (m.Push? && m.src < |s.replicas| ==> Covers(s.replicas[m.src].db, m.holder.db))
    && (m.Reply? && m.dst < |s.replicas| ==> Covers(s.replicas[m.dst].db, m.asked))
  }

  ghost predicate AllSound(replicas: seq<Replica>, writes: set<Entry>) {
    forall i | 0 <= i < |replicas| :: Sound(replicas[i], writes)
  }

  ghost predicate Inv(s: State) {
    && Unique(s.writes)
    && AllSound(s.replicas, s.writes)
    && (forall m | m in s.net :: SoundMessage(m, s))
  }

  lemma JoinSound(replicas: seq<Replica>, r: nat, b: Replica, writes: set<Entry>)
    requires AllSound(replicas, writes) && r < |replicas| && Sound(b, writes)
    ensures AllSound(replicas[r := Replica(Join(replicas[r].db, b.db), replicas[r].reached + b.reached)], writes)
  {
  }

  lemma WriteLatest(a: Replica, e: Entry, writes: set<Entry>)
    requires Sound(a, writes) && (e.key in a.db ==> a.db[e.key].modified <= e.modified)
    ensures Sound(Write(a, e), writes + {e}) && Covers(Write(a, e).db, a.db)
  {
  }

  /** A stored entry only changes into a strictly later one, and is never forgotten. */
  ghost predicate Advances(before: Entries, after: Entries) {
    forall k | k in before :: k in after && (after[k] == before[k] || before[k].modified < after[k].modified)
  }

  lemma AdvancesCovers(a: Entries, b: Entries, c: Entries)
    requires Advances(a, b) && Covers(a, c)
    ensures Covers(b, c)
  {
  }

  lemma StepAdvances(s: State, step: Step)
    requires Enabled(s, step)
    ensures |Next(s, step).replicas| == |s.replicas|
    ensures forall i | 0 <= i < |s.replicas| :: Advances(s.replicas[i].db, Next(s, step).replicas[i].db)
  {
  }

  lemma OldMessagesStaySound(s: State, step: Step)
    requires Enabled(s, step) && Inv(s)
    ensures forall m | m in s.net :: SoundMessage(m, Next(s, step))
  {
    var t := Next(s, step);
    StepAdvances(s, step);
    forall m | m in s.net ensures SoundMessage(m, t) {
      assert s.writes <= t.writes;
      if m.Push? && m.src < |s.replicas| {
        AdvancesCovers(s.replicas[m.src].db, t.replicas[m.src].db, m.holder.db);
      } else if m.Reply? && m.dst < |s.replicas| {
        AdvancesCovers(s.replicas[m.dst].db, t.replicas[m.dst].db, m.asked);
      }
    }
  }

  lemma RewrittenStaysSound(m: Message, r: nat, before: Entry, e: Entry, s: State)
    requires SoundMessage(m, s) && e in s.writes && before.key == e.key && before.modified < e.modified
    ensures SoundMessage(Rewritten(m, r, before, e), s)
  {
  }

  lemma WriteStaysUnique(s: State, r: nat, e: Entry)
    requires Unique(s.writes) && r < |s.replicas| && Stamped(s, r, e)
    ensures Unique(s.writes + {e})
  {
  }

  /** A local write keeps what holds of the replicas. */
  lemma ReplicaWrites(s: State, r: nat, e: Entry)
    requires Inv(s) && r < |s.replicas| && Stamped(s, r, e)
    ensures AllSound(s.replicas[r := Write(s.replicas[r], e)], s.writes + {e})
  {
    WriteLatest(s.replicas[r], e, s.writes);
  }

  lemma DeleteKeepsInv(s: State, r: nat, key: string, author: string, now: int)
    requires Enabled(s, Delete(r, key, author, now)) && Inv(s)
    ensures Inv(Next(s, Delete(r, key, author, now)))
  {
    var t, e := Next(s, Delete(r, key, author, now)), Tombstone(key, author, now);
    var before := s.replicas[r].db[key];
    assert before.key == key by {
      assert Sound(s.replicas[r], s.writes);
    }
    OldMessagesStaySound(s, Delete(r, key, author, now));
    WriteStaysUnique(s, r, e);
    ReplicaWrites(s, r, e);
    forall m | m in t.net ensures SoundMessage(m, t) {
      if m !in s.net {
        var m0 :| m0 in s.net && m == Rewritten(m0, r, before, e);
        RewrittenStaysSound(m0, r, before, e, t);
      }
    }
  }

  /** The merge of a reply is the merge of all that the peer held. */
  lemma MergeIsFull(s: State, reply: Message)
    requires Inv(s) && Enabled(s, Merge(reply))
    ensures Join(s.replicas[reply.dst].db, Sent(reply)) == Join(s.replicas[reply.dst].db, reply.holder.db)
  {
    assert SoundMessage(reply, s);
    DeltaLosesNothing(s.replicas[reply.dst].db, reply.asked, reply.holder.db);
  }

  lemma ReceiveKeepsInv(s: State, r: nat, push: Message)
    requires Enabled(s, Receive(r, push)) && Inv(s)
    ensures Inv(Next(s, Receive(r, push)))
  {
    var mine, t := s.replicas[r], Next(s, Receive(r, push));
    OldMessagesStaySound(s, Receive(r, push));
    assert SoundMessage(push, s) && SoundMessage(push, t);
    JoinSound(s.replicas, r, push.holder, s.writes);
    assert SoundMessage(Reply(r, push.src, mine, push.holder.db), t);
  }

  lemma MergeKeepsInv(s: State, reply: Message)
    requires Enabled(s, Merge(reply)) && Inv(s)
    ensures Inv(Next(s, Merge(reply)))
  {
    OldMessagesStaySound(s, Merge(reply));
    assert SoundMessage(reply, s);
    MergeIsFull(s, reply);
    JoinSound(s.replicas, reply.dst, reply.holder, s.writes);
  }

  lemma StepKeepsInv(s: State, step: Step)
    requires Enabled(s, step) && Inv(s)
    ensures Inv(Next(s, step))
  {
    match step
    case Set(r, entry) =>
      OldMessagesStaySound(s, step);
      WriteStaysUnique(s, r, entry);
      ReplicaWrites(s, r, entry);
    case Delete(r, key, author, now) => DeleteKeepsInv(s, r, key, author, now);
    case Snapshot(r) => OldMessagesStaySound(s, step);
    case Receive(r, push) => ReceiveKeepsInv(s, r, push);
    case Merge(reply) => MergeKeepsInv(s, reply);
  }

  /** Each step changes a server as the methods of `SecretDatabase` change their contents: a write or a
      deletion puts one entry in place, and an exchange joins the other side. */
  lemma StepMeaning(s: State, step: Step)
    requires Enabled(s, step)
    ensures var t := Next(s, step);
      match step
      case Set(r, e) => t.replicas == s.replicas[r := t.replicas[r]] && t.replicas[r].db == s.replicas[r].db[e.key := e]
      case Delete(r, key, author, now) =>
        && t.replicas == s.replicas[r := t.replicas[r]]
        && t.replicas[r].db == s.replicas[r].db[key := Entry(key, "", now, author, true)]
      case Snapshot(r) => t.replicas == s.replicas && t.net == s.net + {Push(r, s.replicas[r])}
      case Receive(r, push) =>
        && t.replicas == s.replicas[r := t.replicas[r]]
        && t.replicas[r].db == Join(s.replicas[r].db, push.holder.db)
        && Reply(r, push.src, s.replicas[r], push.holder.db) in t.net
      case Merge(m) =>
        && t.replicas == s.replicas[m.dst := t.replicas[m.dst]]
        && t.replicas[m.dst].db == Join(s.replicas[m.dst].db, Delta(m.holder.db, m.asked))
  {
  }

  /** Deleting a secret in place rewrites each reply of that server that refers to it: it may from then on
      carry the tombstone. */
  lemma RewriteMeaning(s: State, r: nat, key: string, author: string, now: int, m: Message)
    requires Enabled(s, Delete(r, key, author, now)) && s.replicas[r].db[key].key == key
    requires m in s.net && m.Reply? && m.src == r && key in Delta(m.holder.db, m.asked)
    requires m.holder.db[key] == s.replicas[r].db[key]
    ensures var tombstone := Entry(key, "", now, author, true);
      Reply(r, m.dst, Replica(m.holder.db[key := tombstone], m.holder.reached + {tombstone}), m.asked)
        in Next(s, Delete(r, key, author, now)).net
  {
    var before, tombstone := s.replicas[r].db[key], Tombstone(key, author, now);
    assert Rewritten(m, r, before, tombstone) in Next(s, Delete(r, key, author, now)).net;
  }

  // -- whole runs -----------------------------------------------------------

  function Initial(n: nat): State {
    State(seq(n, i => Replica(map[], {})), {}, {})
  }

  predicate IsRun(s: State, steps: seq<Step>)
    decreases |steps|
  {
    steps == [] || (Enabled(s, steps[0]) && IsRun(Next(s, steps[0]), steps[1..]))
  }

  function After(s: State, steps: seq<Step>): State
    requires IsRun(s, steps)
    decreases |steps|
  {
    if steps == [] then s else After(Next(s, steps[0]), steps[1..])
  }

  lemma {:induction false} RunKeepsInv(s: State, steps: seq<Step>)
    requires Inv(s) && IsRun(s, steps)
    ensures Inv(After(s, steps)) && |After(s, steps).replicas| == |s.replicas|
    ensures forall i | 0 <= i < |s.replicas| :: Advances(s.replicas[i].db, After(s, steps).replicas[i].db)
    decreases |steps|
  {
    if steps != [] {
      var t := Next(s, steps[0]);
      StepKeepsInv(s, steps[0]);
      StepAdvances(s, steps[0]);
      RunKeepsInv(t, steps[1..]);
      forall i | 0 <= i < |s.replicas| ensures Advances(s.replicas[i].db, After(s, steps).replicas[i].db) {
        AdvancesTransitive(s.replicas[i].db, t.replicas[i].db, After(s, steps).replicas[i].db);
      }
    }
  }

  lemma AdvancesTransitive(a: Entries, b: Entries, c: Entries)
    requires Advances(a, b) && Advances(b, c)
    ensures Advances(a, c)
  {
  }

  /** After any run of any number of servers, each one holds for every key the latest of the
      writes that have reached it; two that were reached by the same writes are equal. */
  lemma EveryRunConverges(n: nat, steps: seq<Step>)
    requires IsRun(Initial(n), steps)
    ensures var s := After(Initial(n), steps);
      && (forall i | 0 <= i < |s.replicas| :: Latest(s.replicas[i].db, s.replicas[i].reached))
      && (forall i, j | 0 <= i < |s.replicas| && 0 <= j < |s.replicas| ::
            s.replicas[i].reached == s.replicas[j].reached ==> s.replicas[i].db == s.replicas[j].db)
  {
    RunKeepsInv(Initial(n), steps);
    var s := After(Initial(n), steps);
    forall i, j | 0 <= i < |s.replicas| && 0 <= j < |s.replicas| && s.replicas[i].reached == s.replicas[j].reached
      ensures s.replicas[i].db == s.replicas[j].db
    {
      assert Sound(s.replicas[i], s.writes) && Sound(s.replicas[j], s.writes);
      LatestIsUnique(s.replicas[i].db, s.replicas[j].db, s.replicas[i].reached);
    }
  }

  lemma LatestIsUnique(a: Entries, b: Entries, writes: set<Entry>)
    requires Unique(writes) && Latest(a, writes) && Latest(b, writes)
    ensures a == b
  {
  }

  /** Between any two moments of a run, a tombstone of a server stays, or is replaced by a
      strictly later write. */
  lemma TombstonesOnlyYieldToLaterWrites(n: nat, first: seq<Step>, rest: seq<Step>, i: nat, k: string)
    requires i < n && IsRun(Initial(n), first) && IsRun(After(Initial(n), first), rest)
    requires |After(Initial(n), first).replicas| == n
    requires var db := After(Initial(n), first).replicas[i].db; k in db && db[k].deleted
    ensures var s := After(Initial(n), first);
      var t := After(s, rest);
      |t.replicas| == n && k in t.replicas[i].db &&
      (t.replicas[i].db[k] == s.replicas[i].db[k] || s.replicas[i].db[k].modified < t.replicas[i].db[k].modified)
  {
    RunKeepsInv(Initial(n), first);
    RunKeepsInv(After(Initial(n), first), rest);
  }

  /** `set` and `delete` stamp with the local clock whatever the stored time is: the database
      keeps the latest write exactly when the clock is not behind the stored entry. */
  lemma WriteNeedsTheClock(a: Replica, e: Entry)
    requires Latest(a.db, a.reached)
    ensures Latest(Write(a, e).db, Write(a, e).reached) <==> (e.key in a.db ==> a.db[e.key].modified <= e.modified)
  {
  }

  /** A server whose clock is behind loses its own write: after one exchange with the peer that
      it got the stored entry from, both hold the older write. */
  lemma LateClockLosesWrite(k: string)
    ensures var old', mine := Entry(k, "old", 10, "a", false), Entry(k, "new", 5, "b", false);
      RoundTrip(map[k := old'][k := mine], map[k := old']) == (map[k := old'], map[k := old'])
  {
    var old', mine := Entry(k, "old", 10, "a", false), Entry(k, "new", 5, "b", false);
    var a, b := map[k := old'][k := mine], map[k := old'];
    assert Delta(b, a) == b;
    assert Join(a, b) == b && Join(b, a) == b;
  }
}
