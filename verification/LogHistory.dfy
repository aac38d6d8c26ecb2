/** The last messages of a server, in a doubly linked list of limited size. */
module LogHistory {
  newtype Byte = b: int | 0 <= b < 0x100

  type Bytes = seq<Byte>

  const MAX_MESSAGE_LEN := 256
  const ELLIPSIS: Bytes := [0xE2, 0x80, 0xA6]

  const NO_TARGET := ""
  const ALL_TARGETS := "*"

  datatype Message = Message(time: int, kind: string, target: string, text: Bytes) {
    /** Whether the message is for a target; an exact search leaves out messages without target. */
    predicate MatchTarget(wanted: string, exact: bool) {
      !(exact && wanted != target) && !(wanted != target && target != NO_TARGET && wanted != ALL_TARGETS)
    }

    function Truncated(): Message {
      if |text| > MAX_MESSAGE_LEN then this.(text := text[..MAX_MESSAGE_LEN] + ELLIPSIS) else this
    }
  }

  // -- specification --------------------------------------------------------

  function Suffix<T>(s: seq<T>, n: nat): seq<T> {
    if |s| <= n then s else s[|s| - n..]
  }

  predicate Wanted(m: Message, target: string) {
    target == ALL_TARGETS || m.target == target
  }

  function Filter(s: seq<Message>, target: string): seq<Message> {
    if s == [] then [] else (if Wanted(s[0], target) then [s[0]] else []) + Filter(s[1..], target)
  }

  function Truncate(s: seq<Message>): seq<Message> {
    if s == [] then [] else Truncate(s[..|s| - 1]) + [s[|s| - 1].Truncated()]
  }

  /** What a history of the given size holds after a series of pushes. */
  function Kept(pushed: seq<Message>, size: int): seq<Message> {
    Suffix(Truncate(pushed), if size < 1 then 1 else size)
  }

  /** The last pushes, as many as fit but at least one, in order. Each has its own time, kind and target, and
      its text, cut after 256 bytes and marked by an ellipsis (U+2026, in UTF-8) if it is longer. */
  lemma KeptMeaning(pushed: seq<Message>, size: int)
    ensures var kept, n := Kept(pushed, size), if size < 1 then 1 else size;
      && |kept| == (if |pushed| < n then |pushed| else n)
      && forall i | 0 <= i < |kept| ::
           var m := pushed[|pushed| - |kept| + i];
           && kept[i].time == m.time && kept[i].kind == m.kind && kept[i].target == m.target
           && kept[i].text == if |m.text| <= 256 then m.text else m.text[..256] + [0xE2, 0x80, 0xA6]
  {
    TruncateAll(pushed);
  }

  lemma {:induction false} TruncateAll(s: seq<Message>)
    ensures |Truncate(s)| == |s| && forall i | 0 <= i < |s| :: Truncate(s)[i] == s[i].Truncated()
  {
    if s != [] {
      TruncateAll(s[..|s| - 1]);
    }
  }

  lemma KeptOneMore(pushed: seq<Message>, size: int, m: Message)
    ensures var n := if size < 1 then 1 else size;
      Kept(pushed + [m], size) == Suffix(Kept(pushed, size) + [m.Truncated()], n)
  {
    assert (pushed + [m])[..|pushed|] == pushed;
  }

  lemma {:induction false} FilterConcat(a: seq<Message>, b: seq<Message>, target: string)
    ensures Filter(a + b, target) == Filter(a, target) + Filter(b, target)
  {
    if a == [] {
      assert a + b == b;
    } else {
      assert (a + b)[0] == a[0] && (a + b)[1..] == a[1..] + b;
      FilterConcat(a[1..], b, target);
      var first := if Wanted(a[0], target) then [a[0]] else [];
      assert Filter(a + b, target) == first + (Filter(a[1..], target) + Filter(b, target));
    }
  }

  /** The positions in `s` of the messages for a target, from some position on. */
  ghost function Positions(s: seq<Message>, target: string, from: nat): seq<nat>
    requires from <= |s|
    decreases |s| - from
  {
    if from == |s| then [] else (if Wanted(s[from], target) then [from] else []) + Positions(s, target, from + 1)
  }

  ghost predicate Increasing(p: seq<nat>) {
    forall i, j | 0 <= i < j < |p| :: p[i] < p[j]
  }

  /** Filtering picks the messages at exactly the positions of wanted ones, in order. */
  lemma {:induction false} FilterMeaning(s: seq<Message>, target: string, from: nat)
    requires from <= |s|
    ensures var p, f := Positions(s, target, from), Filter(s[from..], target);
      && |f| == |p| && Increasing(p)
      && (forall i | 0 <= i < |p| ::
            from <= p[i] < |s| && f[i] == s[p[i]] && (target == "*" || s[p[i]].target == target))
      && (forall j | from <= j < |s| && (target == "*" || s[j].target == target) :: j in p)
    decreases |s| - from
  {
    if from < |s| {
      FilterMeaning(s, target, from + 1);
      assert s[from..][1..] == s[from + 1..];
    }
  }

  ghost predicate Picks(p: seq<nat>, r: seq<Message>, s: seq<Message>, target: string) {
    && |p| == |r| && Increasing(p)
    && forall i | 0 <= i < |p| :: p[i] < |s| && Wanted(s[p[i]], target) && r[i] == s[p[i]]
  }

  /** What a search must return: the latest of the wanted messages, in the order they came. */
  ghost predicate IsLatest(r: seq<Message>, s: seq<Message>, target: string, limit: nat) {
    |r| <= limit && exists p: seq<nat> ::
      && Picks(p, r, s, target)
      && (forall j | 0 <= j < |s| && Wanted(s[j], target) && j !in p ::
            |r| == limit && forall i | 0 <= i < |p| :: j < p[i])
  }

  lemma SuffixIsLatest(s: seq<Message>, target: string, limit: nat)
    ensures IsLatest(Suffix(Filter(s, target), limit), s, target, limit)
  {
    FilterMeaning(s, target, 0);
    assert s[0..] == s;
    LatestOfPicked(s, target, limit, Positions(s, target, 0), Filter(s, target));
  }

  lemma LatestOfPicked(s: seq<Message>, target: string, limit: nat, all: seq<nat>, picked: seq<Message>)
    requires Picks(all, picked, s, target) && forall j | 0 <= j < |s| && Wanted(s[j], target) :: j in all
    ensures IsLatest(Suffix(picked, limit), s, target, limit)
  {
    var p := Suffix(all, limit);
    forall j | 0 <= j < |s| && Wanted(s[j], target) && j !in p
      ensures |p| == limit && forall i | 0 <= i < |p| :: j < p[i]
    {
      LeftOut(all, limit, j);
    }
    assert Picks(p, Suffix(picked, limit), s, target);
  }

  lemma LeftOut(all: seq<nat>, limit: nat, j: nat)
    requires Increasing(all) && j in all && j !in Suffix(all, limit)
    ensures |Suffix(all, limit)| == limit && forall i | 0 <= i < limit :: j < Suffix(all, limit)[i]
  {
  }

  // -- the list -------------------------------------------------------------

  class Slot {
    const payload: Message
    var older: Slot?
    var newer: Slot?

    constructor (payload: Message)
      ensures this.payload == payload && older == null && newer == null
    {
      this.payload := payload;
      older, newer := null, null;
    }
  }

  ghost predicate Carry(slots: seq<Slot>, messages: seq<Message>) {
    |slots| == |messages| && forall i | 0 <= i < |slots| :: slots[i].payload == messages[i]
  }

  /** The chain after a push, from the oldest slot to the newest. */
  ghost function Shifted(slots: seq<Slot>, curr: Slot, size: int): seq<Slot> {
    if slots != [] && |slots| + 1 > size then slots[1..] + [curr] else slots + [curr]
  }

  lemma ShiftedCarry(slots: seq<Slot>, curr: Slot, kept: seq<Message>, size: int)
    requires Carry(slots, kept) && |kept| <= if size < 1 then 1 else size
    ensures Carry(Shifted(slots, curr, size), Suffix(kept + [curr.payload], if size < 1 then 1 else size))
  {
  }

  lemma PushedSlots(slots: seq<Slot>, curr: Slot, pushed: seq<Message>, size: int, message: Message)
    requires Carry(slots, Kept(pushed, size)) && curr.payload == message.Truncated()
    ensures Carry(Shifted(slots, curr, size), Kept(pushed + [message], size))
  {
    KeptOneMore(pushed, size, message);
    ShiftedCarry(slots, curr, Kept(pushed, size), size);
  }

  ghost function At(slots: seq<Slot>, i: int): Slot? {
    if 0 <= i < |slots| then slots[i] else null
  }

  /** A doubly linked list, from the oldest slot to the newest, without cycle. */
  ghost predicate Chained(slots: seq<Slot>)
    reads slots
  {
    && (forall i, j | 0 <= i < j < |slots| :: slots[i] != slots[j])
    && (forall i, j | 0 <= i < j < |slots| && j == i + 1 :: slots[i].newer == slots[j] && slots[j].older == slots[i])
    && (|slots| > 0 ==> slots[0].older == null && slots[|slots| - 1].newer == null)
  }

  class LogHistory {
    const maxSize: int
    var currentSize: nat
    var oldest: Slot?
    var newest: Slot?
    ghost var slots: seq<Slot>
    ghost var pushed: seq<Message>

    ghost predicate Linked()
      reads this, slots
    {
      currentSize == |slots| && oldest == At(slots, 0) && newest == At(slots, |slots| - 1) && Chained(slots)
    }

    /** The chain holds the last messages that were pushed, one more than none at least. */
    ghost predicate Valid()
      reads this, slots
    {
      Linked() && Carry(slots, Kept(pushed, maxSize))
    }

    constructor (elems: int)
      ensures Valid() && fresh(this) && maxSize == elems && pushed == [] && slots == []
    {
      maxSize, currentSize, oldest, newest := elems, 0, null, null;
      slots, pushed := [], [];
    }

    method Push(message: Message) returns (ghost curr: Slot)
      requires Valid()
      modifies this, slots
      ensures Valid() && pushed == old(pushed) + [message]
      ensures curr.payload.time == message.time && curr.payload.kind == message.kind
      ensures curr.payload.target == message.target
      ensures curr.payload.text ==
        if |message.text| <= 256 then message.text else message.text[..256] + [0xE2, 0x80, 0xA6]
      ensures fresh(curr) && slots == Shifted(old(slots), curr, maxSize)
    {
      var localMsg := message.Truncated();
      var slot := new Slot(localMsg);
      ghost var shifted, after := Shifted(slots, slot, maxSize), pushed + [message];
      assert Carry(shifted, Kept(after, maxSize)) by {
        PushedSlots(slots, slot, pushed, maxSize, message);
      }
      pushed := after;
      Link(slot);
      assert slots == shifted;
      curr := slot;
    }

    method Link(curr: Slot)
      requires Linked() && curr !in slots && curr.newer == null && curr.older == null
      modifies this`currentSize, this`newest, this`oldest, this`slots, slots, curr
      ensures Linked() && slots == Shifted(old(slots), curr, maxSize)
    {
      if currentSize == 0 {
        newest := curr;
        oldest := curr;
        currentSize := currentSize + 1;
        slots := [curr];
        return;
      }
      PlaceInFront(curr);
      if currentSize > maxSize {
        DropOldest();
      }
    }

    method PlaceInFront(curr: Slot)
      requires Linked() && slots != [] && curr !in slots && curr.newer == null
      modifies this`currentSize, this`newest, this`slots, newest, curr
      ensures Linked() && slots == old(slots) + [curr]
    {
      newest.newer := curr;
      curr.older := newest;
      newest := curr;
      currentSize := currentSize + 1;
      slots := slots + [curr];
      assert forall i | 0 <= i < |slots| - 1 :: slots[i] == old(slots)[i] && slots[i] != curr;
    }

    method DropOldest()
      requires Linked() && |slots| > 1
      modifies this`currentSize, this`oldest, this`slots, slots
      ensures Linked() && slots == old(slots)[1..]
    {
      assert oldest.newer == slots[1];
      oldest := oldest.newer;
      oldest.older := null;
      currentSize := currentSize - 1;
      slots := slots[1..];
      assert forall i | 0 <= i < |slots| :: slots[i] == old(slots)[i + 1];
    }

    /** The latest messages for a target (for "*", all messages), up to a limit, in the order they
        were pushed. */
    method Search(maxMessages: nat, target: string) returns (messages: array<Message>)
      requires Valid()
      ensures fresh(messages)
      ensures messages[..] == Suffix(Filter(Kept(pushed, maxSize), target), maxMessages)
    {
      var reversed, count, latest := FindNewest(maxMessages, target);
      messages := new Message[count];
      for i := 0 to count
        invariant Reverses(reversed, count, latest)
        invariant forall j | 0 <= j < i :: messages[j] == latest[j]
      {
        messages[i] := reversed[count - i - 1];
      }
      assert messages[..] == latest;
    }

    lemma SlotAt(k: nat)
      requires Valid() && k < |slots|
      ensures |Kept(pushed, maxSize)| == |slots| && slots[k].payload == Kept(pushed, maxSize)[k]
      ensures slots[k].older == At(slots, k - 1)
    {
      var i := k - 1;
      assert k > 0 ==> slots[k].older == slots[i];
    }

    /** Walks the chain from the newest slot. */
    method FindNewest(maxMessages: nat, target: string)
      returns (reversed: array<Message>, count: nat, ghost latest: seq<Message>)
      requires Valid()
      ensures fresh(reversed)
      ensures latest == Suffix(Filter(Kept(pushed, maxSize), target), maxMessages) && Reverses(reversed, count, latest)
    {
      reversed := new Message[maxMessages];
      var exact := target != ALL_TARGETS;
      var curr := newest;
      count, latest := 0, [];
      ghost var all := Kept(pushed, maxSize);
      ghost var k := |slots|;
      while curr != null && count < maxMessages
        invariant 0 <= k <= |slots| && curr == At(slots, k - 1)
        invariant latest == Filter(all[k..], target)
        invariant reversed.Length == maxMessages && Reverses(reversed, count, latest)
        decreases k
      {
        k := k - 1;
        SlotAt(k);
        count, latest := Visit(curr.payload, target, exact, reversed, count, all, k, latest);
        curr := curr.older;
      }
      FoundAll(all, target, k, latest, maxMessages);
    }
  }

  ghost predicate Reverses(a: array<Message>, n: nat, s: seq<Message>)
    reads a
  {
    n == |s| <= a.Length && forall i | 0 <= i < n :: a[i] == s[n - 1 - i]
  }

  /** One slot of the walk. */
  method Visit(m: Message, target: string, exact: bool, reversed: array<Message>, count: nat,
               ghost all: seq<Message>, ghost k: nat, ghost latest: seq<Message>)
    returns (n: nat, ghost found: seq<Message>)
    requires exact == (target != ALL_TARGETS) && k < |all| && all[k] == m && latest == Filter(all[k + 1..], target)
    requires Reverses(reversed, count, latest) && count < reversed.Length
    modifies reversed
    ensures found == Filter(all[k..], target) && Reverses(reversed, n, found)
  {
    FilterOneMore(all, target, k + 1);
    n, found := count, latest;
    if m.MatchTarget(target, exact) {
      reversed[count] := m;
      n, found := count + 1, [m] + latest;
    }
  }

  lemma FilterOneMore(s: seq<Message>, target: string, k: nat)
    requires 0 < k <= |s|
    ensures Filter(s[k - 1..], target) == (if Wanted(s[k - 1], target) then [s[k - 1]] else []) + Filter(s[k..], target)
  {
  }

  lemma FoundAll(s: seq<Message>, target: string, k: nat, found: seq<Message>, limit: nat)
    requires k <= |s| && found == Filter(s[k..], target) && |found| <= limit && (k == 0 || |found| == limit)
    ensures found == Suffix(Filter(s, target), limit)
  {
    assert s == s[..k] + s[k..];
    FilterConcat(s[..k], s[k..], target);
  }
}
