/** Runs of one listener of the TCP proxy: reloads, connections and an attempt to close it may
    come in any order, and a reload may fall between the two halves of an accept. */
module PortRuns {
  import opened Results
  import opened PortTables
  import opened PortListeners

  /** An established forwarding holds the channel it was given. */
  datatype Conn = Conn(pair: Pair, channel: nat)

  /** `looked` holds what half-accepted connections read from the forward map. */
  datatype State = State(public: bool, forwards: Forwards, channels: ChannelTable, shut: bool,
                         looked: map<nat, Option<Target>>, conns: map<nat, Conn>)

  datatype Step =
    | Reload(forwards: Forwards)
    | Look(conn: nat, source: string)
    | Attach(conn: nat)
    | Shut
    | ShutFails

  /** What the second half of an accept does: without a channel for the key, the connection is
      closed. */
  function Attached(s: State, c: nat): map<nat, Conn>
    requires c in s.looked
  {
    var target := s.looked[c];
    if target.Some? && Key(target.value.pair) in s.channels.open
    then s.conns[c := Conn(target.value.pair, s.channels.open[Key(target.value.pair)])]
    else s.conns
  }

  ghost predicate Next(s: State, step: Step, t: State) {
    match step
    case Reload(m) =>
      && !s.shut && PlainSources(m) && Reconciled(s.channels, t.channels, KeysOf(m))
      && t == s.(forwards := m, channels := t.channels)
    case Look(c, source) =>
      && c !in s.looked && '-' !in source
      && t == s.(looked := s.looked[c := Decide(s.public, s.forwards, source)])
    case Attach(c) =>
      c in s.looked && c !in s.conns && t == s.(conns := Attached(s, c))
    case Shut =>
      !s.shut && t == s.(channels := Cut(s.channels, {}), shut := true)
    case ShutFails => t == s
  }

  ghost predicate IsRun(states: seq<State>, steps: seq<Step>) {
    |states| == |steps| + 1 && forall i, j | 0 <= i < |steps| && j == i + 1 :: Next(states[i], steps[i], states[j])
  }

  ghost predicate Inv(s: State) {
    && ChannelsOK(s.channels) && PlainSources(s.forwards)
    && s.channels.open.Keys == (if s.shut then {} else KeysOf(s.forwards))
    && (forall c | c in s.looked && s.looked[c].Some? :: '-' !in s.looked[c].value.pair.source)
    && (forall c | c in s.conns :: ConnOK(s, s.conns[c]))
  }

  /** A forwarding that goes on holds the open channel of its pair. */
  ghost predicate ConnOK(s: State, c: Conn) {
    && '-' !in c.pair.source && c.channel < s.channels.made
    && (c.channel !in s.channels.closed ==> Key(c.pair) in s.channels.open && s.channels.open[Key(c.pair)] == c.channel)
  }

  lemma DroppedIff(open: map<string, nat>, keys: set<string>, k: string)
    requires k in open && forall a, b | a in open && b in open && open[a] == open[b] :: a == b
    ensures open[k] in Dropped(open, keys) <==> k !in keys
  {
  }

  lemma StepKeepsConn(s: State, step: Step, t: State, c: Conn)
    requires Inv(s) && Next(s, step, t) && ConnOK(s, c)
    ensures ConnOK(t, c)
    ensures c.channel in t.channels.closed <==> c.channel in s.channels.closed || Cuts(step, c.pair)
  {
    if c.channel !in s.channels.closed {
      match step
      case Reload(m) =>
        KeyOfPair(m, c.pair);
        DroppedIff(s.channels.open, KeysOf(m), Key(c.pair));
      case Shut => CutAll(s.channels); assert s.channels.open[Key(c.pair)] in s.channels.open.Values;
      case _ =>
    }
  }

  /** In every reachable state the open channels are those of the pairs of the forward map, one
      each, until the listener is closed; and a channel that gets closed was open. */
  lemma StepKeepsInv(s: State, step: Step, t: State)
    requires Inv(s) && Next(s, step, t)
    ensures Inv(t)
    ensures (t.channels.closed - s.channels.closed) <= s.channels.open.Values
  {
    forall c | c in s.conns ensures ConnOK(t, s.conns[c]) {
      StepKeepsConn(s, step, t, s.conns[c]);
    }
  }

  lemma RunKeepsInv(states: seq<State>, steps: seq<Step>)
    requires IsRun(states, steps) && Inv(states[0])
    ensures forall i | 0 <= i < |states| :: Inv(states[i])
  {
    for n := 0 to |steps|
      invariant forall i | 0 <= i <= n :: Inv(states[i])
    {
      StepKeepsInv(states[n], steps[n], states[n + 1]);
    }
  }

  /** A step that ends the forwarding of a pair: a reload without it, or the listener closed. */
  ghost predicate Cuts(step: Step, p: Pair) {
    step.Shut? || (step.Reload? && p !in Pairs(step.forwards))
  }

  /** A connection is given an open channel, and stays in place. */
  lemma AttachedIsOpen(s: State, step: Step, t: State, c: nat)
    requires Inv(s) && Next(s, step, t) && step == Attach(c)
    ensures c in t.conns <==> s.looked[c].Some? && !s.shut && s.looked[c].value.pair in Pairs(s.forwards)
    ensures c in t.conns ==> t.conns[c].pair == s.looked[c].value.pair && t.conns[c].channel !in t.channels.closed
  {
    if s.looked[c].Some? {
      KeyOfPair(s.forwards, s.looked[c].value.pair);
    }
  }

  ghost predicate CutWithin(steps: seq<Step>, n: nat, p: Pair)
    requires n <= |steps|
  {
    exists i | 0 <= i < n :: Cuts(steps[i], p)
  }

  lemma CutWithinOneMore(steps: seq<Step>, n: nat, p: Pair)
    requires n < |steps|
    ensures CutWithin(steps, n + 1, p) <==> CutWithin(steps, n, p) || Cuts(steps[n], p)
  {
  }

  /** Over every sequence of reloads, accepts and closes: the channel of a forwarding is closed
      exactly when, since it was established, some reload dropped its pair or the listener was
      closed. */
  lemma ClosedIffCut(states: seq<State>, steps: seq<Step>, c: nat)
    requires IsRun(states, steps) && Inv(states[0]) && c in states[0].conns
    requires states[0].conns[c].channel !in states[0].channels.closed
    ensures var conn := states[0].conns[c];
      conn.channel in states[|steps|].channels.closed <==> exists i | 0 <= i < |steps| :: Cuts(steps[i], conn.pair)
  {
    RunKeepsInv(states, steps);
    var conn := states[0].conns[c];
    for n := 0 to |steps|
      invariant ConnOK(states[n], conn)
      invariant conn.channel in states[n].channels.closed <==> CutWithin(steps, n, conn.pair)
    {
      StepKeepsConn(states[n], steps[n], states[n + 1], conn);
      CutWithinOneMore(steps, n, conn.pair);
    }
  }

  // -- public and private listeners -----------------------------------------

  /** Whether a listener is public is settled when it is opened. After a later reload it decides
      like a listener opened with the new map, unless that map is of the other kind (for one
      outside port, or for clients); it then refuses connections that the map provides for. */
  lemma StaleKindIff(public: bool, m: Forwards)
    requires "*" in m ==> m.Keys == {"*"}
    ensures (forall source | source != "*" :: Decide(public, m, source) == Decide("*" in m, m, source)) <==>
      public == ("*" in m) || m == map[]
  {
    if public && "*" !in m && m != map[] {
      var source :| source in m.Keys;
      assert Decide(public, m, source) != Decide(false, m, source);
    } else if !public && "*" in m {
      assert Decide(public, m, "") != Decide(true, m, "");
    }
  }
}
