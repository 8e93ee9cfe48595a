/** The hub's event bus: publishing an agent's state takes the next number of one
    global sequence, replaces the agent's last state and offers the event to every
    subscriber's bounded queue. A subscriber's stream sends a snapshot of all last
    states, then its queued events, with heartbeats in between. */
module EventBus {

  const CAPACITY := 256

  datatype Event = Event(agent: string, number: nat, state: string)

  type Table = map<string, Event>

  datatype Frame = Snapshot(number: nat, table: Table) | Change(event: Event) | Heartbeat(number: nat)

  /** A subscriber's queue and the frames it was sent; `lost` notes the agents
      whose latest event the queue had no room for and that the frames cannot
      make up for. */
  datatype Subscriber = Subscriber(queue: seq<Event>, frames: seq<Frame>, lost: set<string>)

  datatype Bus = Bus(sequence: nat, table: Table, subscribers: map<nat, Subscriber>)

  datatype Action =
    | Publish(agent: string, state: string)
    | Subscribe(id: nat)
    | Start(id: nat)
    | Deliver(id: nat)
    | Beat(id: nat)
    | Disconnect(id: nat)

  predicate Started(s: Subscriber) {
    s.frames != []
  }

  function Agents(events: seq<Event>): set<string> {
    set e | e in events :: e.agent
  }

  /** An event is queued if there is room. */
  function Offer(s: Subscriber, e: Event): Subscriber {
    if |s.queue| < CAPACITY then s.(queue := s.queue + [e], lost := s.lost - {e.agent})
    else s.(lost := s.lost + {e.agent})
  }

  /** The stream begins after the subscription is made; events may be queued
      already. The snapshot makes up for what was lost unless an older event of
      the same agent is still queued behind it. */
  function Begin(s: Subscriber, number: nat, table: Table): Subscriber {
    s.(frames := [Snapshot(number, table)], lost := s.lost * Agents(s.queue))
  }

  function Send(s: Subscriber): Subscriber
    requires s.queue != []
  {
    s.(queue := s.queue[1..], frames := s.frames + [Change(s.queue[0])])
  }

  function Pulse(s: Subscriber, number: nat): Subscriber {
    s.(frames := s.frames + [Heartbeat(number)])
  }

  predicate Enabled(b: Bus, a: Action) {
    match a
    case Publish(_, _) => true
    case Subscribe(id) => id !in b.subscribers
    case Start(id) => id in b.subscribers && !Started(b.subscribers[id])
    case Deliver(id) => id in b.subscribers && Started(b.subscribers[id]) && b.subscribers[id].queue != []
    case Beat(id) => id in b.subscribers && Started(b.subscribers[id])
    case Disconnect(id) => id in b.subscribers
  }

  function Next(b: Bus, a: Action): Bus
    requires Enabled(b, a)
  {
    match a
    case Publish(agent, state) =>
      var e := Event(agent, b.sequence + 1, state);
      Bus(b.sequence + 1, b.table[agent := e], map id | id in b.subscribers :: Offer(b.subscribers[id], e))
    case Subscribe(id) => b.(subscribers := b.subscribers[id := Subscriber([], [], {})])
    case Start(id) =>
      b.(sequence := b.sequence + 1,
         subscribers := b.subscribers[id := Begin(b.subscribers[id], b.sequence + 1, b.table)])
    case Deliver(id) => b.(subscribers := b.subscribers[id := Send(b.subscribers[id])])
    case Beat(id) =>
      b.(sequence := b.sequence + 1, subscribers := b.subscribers[id := Pulse(b.subscribers[id], b.sequence + 1)])
    case Disconnect(id) => b.(subscribers := b.subscribers - {id})
  }

  const START := Bus(0, map[], map[])

  predicate Possible(b: Bus, run: seq<Action>)
    decreases |run|
  {
    run == [] || (Enabled(b, run[0]) && Possible(Next(b, run[0]), run[1..]))
  }

  function After(b: Bus, run: seq<Action>): Bus
    requires Possible(b, run)
    decreases |run|
  {
    if run == [] then b else After(Next(b, run[0]), run[1..])
  }

  // ---------- What is published ----------

  /** The state that the last publication of an agent in a run gave, if there is one. */
  function LastPublished(run: seq<Action>, agent: string): seq<string>
    decreases |run|
  {
    if run == [] then []
    else
      match run[|run| - 1]
      case Publish(a, state) => if a == agent then [state] else LastPublished(run[..|run| - 1], agent)
      case _ => LastPublished(run[..|run| - 1], agent)
  }

  lemma {:induction false} AfterBack(b: Bus, run: seq<Action>)
    requires Possible(b, run) && run != []
    ensures Possible(b, run[..|run| - 1]) && Enabled(After(b, run[..|run| - 1]), run[|run| - 1])
    ensures After(b, run) == Next(After(b, run[..|run| - 1]), run[|run| - 1])
    decreases |run|
  {
    hide Next, Enabled;
    if |run| > 1 {
      AfterBack(Next(b, run[0]), run[1..]);
      assert run[1..][..|run| - 2] == run[..|run| - 1][1..];
    } else {
      assert run[..0] == [] && run[1..] == [];
    }
  }

  /** The table holds for each agent the state it published last, under the number of
      that publication, and nothing for agents that published none. */
  lemma {:induction false} TableHoldsLastPublished(run: seq<Action>, agent: string)
    requires Possible(START, run)
    ensures var table := After(START, run).table;
            && (agent in table <==> LastPublished(run, agent) != [])
            && (agent in table ==> table[agent].agent == agent && LastPublished(run, agent) == [table[agent].state])
    decreases |run|
  {
    if run != [] {
      AfterBack(START, run);
      TableHoldsLastPublished(run[..|run| - 1], agent);
    }
  }

  /** A queue takes an event exactly when fewer than 256 are queued, at its end. */
  lemma QueueTakes(s: Subscriber, e: Event)
    ensures Offer(s, e).queue == s.queue + [e] <==> |s.queue| < 256
    ensures |s.queue| >= 256 ==> Offer(s, e).queue == s.queue && e.agent in Offer(s, e).lost
  {
    assert |s.queue + [e]| == |s.queue| + 1;
  }

  // ---------- What a subscriber knows ----------

  function Apply(t: Table, events: seq<Event>): Table
    decreases |events|
  {
    if events == [] then t else Apply(t[events[0].agent := events[0]], events[1..])
  }

  /** The state a client holds after applying its frames in order. */
  function View(frames: seq<Frame>): Table
    decreases |frames|
  {
    if frames == [] then map[]
    else
      match frames[|frames| - 1]
      case Snapshot(_, t) => t
      case Change(e) => View(frames[..|frames| - 1])[e.agent := e]
      case Heartbeat(_) => View(frames[..|frames| - 1])
  }

  predicate SameAt(t: Table, u: Table, g: string) {
    (g in t <==> g in u) && (g in t ==> t[g] == u[g])
  }

  /** What the client will hold once its queue is drained. */
  function Settled(table: Table, s: Subscriber): Table {
    Apply(if Started(s) then View(s.frames) else table, s.queue)
  }

  function Wrong(s: Subscriber): set<string> {
    if Started(s) then s.lost else s.lost * Agents(s.queue)
  }

  ghost predicate UpTo(t: Table, n: nat) {
    forall g :: g in t ==> t[g].number <= n
  }

  /** The client will hold the last state of an agent exactly when it is not lost. */
  ghost predicate Informed(table: Table, n: nat, s: Subscriber) {
    && UpTo(Settled(table, s), n)
    && (forall g :: SameAt(Settled(table, s), table, g) <==> g !in Wrong(s))
  }

  ghost predicate AllInformed(b: Bus) {
    UpTo(b.table, b.sequence) && forall id :: id in b.subscribers ==> Informed(b.table, b.sequence, b.subscribers[id])
  }

  lemma {:induction false} ApplyBack(t: Table, events: seq<Event>, e: Event)
    ensures Apply(t, events + [e]) == Apply(t, events)[e.agent := e]
    decreases |events|
  {
    if events == [] {
      assert [e][1..] == [] && events + [e] == [e];
    } else {
      assert (events + [e])[1..] == events[1..] + [e];
      ApplyBack(t[events[0].agent := events[0]], events[1..], e);
    }
  }

  /** Applying events leaves the other agents alone, and what it sets does not
      depend on the table. */
  lemma {:induction false} ApplyAt(t: Table, u: Table, events: seq<Event>, g: string)
    ensures g !in Agents(events) ==> SameAt(Apply(t, events), t, g)
    ensures g in Agents(events) ==> SameAt(Apply(t, events), Apply(u, events), g)
    ensures SameAt(t, u, g) ==> SameAt(Apply(t, events), Apply(u, events), g)
    decreases |events|
  {
    if events != [] {
      var e := events[0];
      assert events == [e] + events[1..];
      assert Agents(events) == {e.agent} + Agents(events[1..]);
      ApplyAt(t[e.agent := e], u[e.agent := e], events[1..], g);
    }
  }

  lemma OfferInforms(table: Table, n: nat, s: Subscriber, e: Event)
    requires UpTo(table, n) && Informed(table, n, s) && e.number == n + 1
    ensures Informed(table[e.agent := e], n + 1, Offer(s, e))
  {
    var table', s' := table[e.agent := e], Offer(s, e);
    var base := if Started(s) then View(s.frames) else table;
    var base' := if Started(s) then View(s.frames) else table';
    if |s.queue| < CAPACITY {
      ApplyBack(base', s.queue, e);
      assert Agents(s'.queue) == Agents(s.queue) + {e.agent};
    }
    forall g
      ensures g in Settled(table', s') ==> Settled(table', s')[g].number <= n + 1
      ensures SameAt(Settled(table', s'), table', g) <==> g !in Wrong(s')
    {
      ApplyAt(base', base, s.queue, g);
      assert SameAt(Settled(table, s), table, g) <==> g !in Wrong(s);
    }
  }

  lemma BeginInforms(table: Table, n: nat, s: Subscriber)
    requires Informed(table, n, s) && !Started(s)
    ensures Informed(table, n + 1, Begin(s, n + 1, table))
  {
    var s' := Begin(s, n + 1, table);
    assert View(s'.frames) == table;
    assert Settled(table, s') == Settled(table, s) && Wrong(s') == Wrong(s);
    forall g ensures SameAt(Settled(table, s'), table, g) <==> g !in Wrong(s') {
      assert SameAt(Settled(table, s), table, g) <==> g !in Wrong(s);
    }
  }

  lemma SendInforms(table: Table, n: nat, s: Subscriber)
    requires Informed(table, n, s) && Started(s) && s.queue != []
    ensures Informed(table, n, Send(s))
  {
    var s' := Send(s);
    assert s'.frames[..|s'.frames| - 1] == s.frames;
    assert Settled(table, s') == Settled(table, s);
    forall g ensures SameAt(Settled(table, s'), table, g) <==> g !in Wrong(s') {
      assert SameAt(Settled(table, s), table, g) <==> g !in Wrong(s);
    }
  }

  lemma PulseInforms(table: Table, n: nat, s: Subscriber)
    requires Informed(table, n, s) && Started(s)
    ensures Informed(table, n + 1, Pulse(s, n + 1))
  {
    var s' := Pulse(s, n + 1);
    assert s'.frames[..|s'.frames| - 1] == s.frames;
    assert Settled(table, s') == Settled(table, s);
    forall g ensures SameAt(Settled(table, s'), table, g) <==> g !in Wrong(s') {
      assert SameAt(Settled(table, s), table, g) <==> g !in Wrong(s);
    }
  }

  /** Neither a queued event nor a heartbeat changes what the client will hold. */
  lemma SameInTheEnd(table: Table, s: Subscriber, n: nat)
    requires Started(s)
    ensures s.queue != [] ==> Settled(table, Send(s)) == Settled(table, s)
    ensures Settled(table, Pulse(s, n)) == Settled(table, s) && View(Pulse(s, n).frames) == View(s.frames)
  {
    var p := Pulse(s, n);
    assert p.frames[..|p.frames| - 1] == s.frames;
    if s.queue != [] {
      var q := Send(s);
      assert q.frames[..|q.frames| - 1] == s.frames;
    }
  }

  lemma LaterInforms(table: Table, n: nat, s: Subscriber)
    requires Informed(table, n, s)
    ensures Informed(table, n + 1, s)
  {
    forall g ensures SameAt(Settled(table, s), table, g) <==> g !in Wrong(s) {}
  }

  lemma NewIsInformed(table: Table, n: nat)
    requires UpTo(table, n)
    ensures Informed(table, n, Subscriber([], [], {}))
  {
  }

  lemma StepInforms(b: Bus, a: Action)
    requires AllInformed(b) && Enabled(b, a)
    ensures AllInformed(Next(b, a))
  {
    hide Informed, Offer, Begin, Send, Pulse;
    var b' := Next(b, a);
    forall id | id in b'.subscribers ensures Informed(b'.table, b'.sequence, b'.subscribers[id]) {
      match a
      case Publish(agent, state) =>
        OfferInforms(b.table, b.sequence, b.subscribers[id], Event(agent, b.sequence + 1, state));
      case Subscribe(new_) =>
        NewIsInformed(b.table, b.sequence);
      case Start(k) =>
        if id == k { BeginInforms(b.table, b.sequence, b.subscribers[id]); }
        else { LaterInforms(b.table, b.sequence, b.subscribers[id]); }
      case Deliver(k) =>
        if id == k { SendInforms(b.table, b.sequence, b.subscribers[id]); }
      case Beat(k) =>
        if id == k { PulseInforms(b.table, b.sequence, b.subscribers[id]); }
        else { LaterInforms(b.table, b.sequence, b.subscribers[id]); }
      case Disconnect(k) =>
    }
  }

  lemma {:induction false} RunInforms(b: Bus, run: seq<Action>)
    requires AllInformed(b) && Possible(b, run)
    ensures AllInformed(After(b, run))
    decreases |run|
  {
    hide AllInformed, Next;
    if run != [] {
      StepInforms(b, run[0]);
      RunInforms(Next(b, run[0]), run[1..]);
    }
  }

  lemma SameEverywhere(t: Table, u: Table)
    requires forall g :: SameAt(t, u, g)
    ensures t == u
  {
    forall g ensures g in t <==> g in u {
      assert SameAt(t, u, g);
    }
    forall g | g in t ensures t[g] == u[g] {
      assert SameAt(t, u, g);
    }
  }

  /** Over every run, a started subscriber with an empty queue holds an agent's
      last state exactly when the agent's latest event was not lost to it. */
  lemma DrainedViewIsCurrent(run: seq<Action>, id: nat)
    requires Possible(START, run) && id in After(START, run).subscribers
    requires var s := After(START, run).subscribers[id]; Started(s) && s.queue == []
    ensures var b := After(START, run); var s := b.subscribers[id];
            && (forall g :: SameAt(View(s.frames), b.table, g) <==> g !in s.lost)
            && (s.lost == {} ==> View(s.frames) == b.table)
  {
    RunInforms(START, run);
    var b := After(START, run);
    var s := b.subscribers[id];
    assert Informed(b.table, b.sequence, s);
    forall g ensures SameAt(View(s.frames), b.table, g) <==> g !in s.lost {
      assert SameAt(Settled(b.table, s), b.table, g) <==> g !in Wrong(s);
    }
    if s.lost == {} { SameEverywhere(View(s.frames), b.table); }
  }

  /** No event was published while this subscriber's queue was full. */
  predicate NeverFull(b: Bus, run: seq<Action>, id: nat)
    requires Possible(b, run)
    decreases |run|
  {
    run == [] || (
      && (run[0].Publish? && id in b.subscribers ==> |b.subscribers[id].queue| < CAPACITY)
      && NeverFull(Next(b, run[0]), run[1..], id))
  }

  ghost predicate NothingLost(b: Bus, id: nat) {
    id in b.subscribers ==> b.subscribers[id].lost == {}
  }

  lemma {:induction false} NothingIsLost(b: Bus, run: seq<Action>, id: nat)
    requires Possible(b, run) && NeverFull(b, run, id) && NothingLost(b, id)
    ensures NothingLost(After(b, run), id)
    decreases |run|
  {
    if run != [] {
      assert NothingLost(Next(b, run[0]), id);
      NothingIsLost(Next(b, run[0]), run[1..], id);
    }
  }

  /** A subscriber whose queue never overflowed holds, once drained, exactly the
      last state of every agent, also when events were queued before its snapshot. */
  lemma DrainedViewIsExact(run: seq<Action>, id: nat)
    requires Possible(START, run) && NeverFull(START, run, id) && id in After(START, run).subscribers
    requires var s := After(START, run).subscribers[id]; Started(s) && s.queue == []
    ensures View(After(START, run).subscribers[id].frames) == After(START, run).table
  {
    NothingIsLost(START, run, id);
    DrainedViewIsCurrent(run, id);
  }

  // ---------- The order of frames ----------

  function Numbers(frames: seq<Frame>): (r: seq<nat>)
    ensures |r| == |frames|
  {
    seq(|frames|, i requires 0 <= i < |frames| =>
      match frames[i] case Snapshot(n, _) => n case Change(e) => e.number case Heartbeat(n) => n)
  }

  function EventNumbers(events: seq<Event>): (r: seq<nat>)
    ensures |r| == |events|
  {
    seq(|events|, i requires 0 <= i < |events| => events[i].number)
  }

  predicate Increasing(ns: seq<nat>) {
    forall i, j :: 0 <= i < j < |ns| ==> ns[i] < ns[j]
  }

  predicate AtMost(ns: seq<nat>, n: nat) {
    forall i :: 0 <= i < |ns| ==> ns[i] <= n
  }

  /** The events among the frames. */
  function Changes(frames: seq<Frame>): seq<Event>
    decreases |frames|
  {
    if frames == [] then []
    else
      var f := frames[|frames| - 1];
      Changes(frames[..|frames| - 1]) + if f.Change? then [f.event] else []
  }

  /** The numbers of the frames after the snapshot, then those still queued. */
  function Line(s: Subscriber): seq<nat> {
    (if Started(s) then Numbers(s.frames[1..]) else []) + EventNumbers(s.queue)
  }

  function EventLine(s: Subscriber): seq<nat> {
    EventNumbers(Changes(s.frames)) + EventNumbers(s.queue)
  }

  predicate EventsInOrder(n: nat, s: Subscriber) {
    Increasing(EventLine(s)) && AtMost(EventLine(s), n)
  }

  predicate FramesInOrder(n: nat, s: Subscriber) {
    Increasing(Line(s)) && AtMost(Line(s), n)
  }

  lemma OfferOrders(n: nat, s: Subscriber, e: Event)
    requires e.number == n + 1
    ensures EventsInOrder(n, s) ==> EventsInOrder(n + 1, Offer(s, e))
    ensures FramesInOrder(n, s) ==> FramesInOrder(n + 1, Offer(s, e))
  {
    hide Increasing, AtMost;
    if |s.queue| < CAPACITY {
      assert EventNumbers(s.queue + [e]) == EventNumbers(s.queue) + [n + 1];
      assert EventLine(Offer(s, e)) == EventLine(s) + [n + 1];
      assert Line(Offer(s, e)) == Line(s) + [n + 1];
    }
    OneMoreInOrder(EventLine(s), n);
    OneMoreInOrder(Line(s), n);
  }

  lemma OneMoreInOrder(ns: seq<nat>, n: nat)
    ensures AtMost(ns, n) ==> AtMost(ns, n + 1) && AtMost(ns + [n + 1], n + 1)
    ensures AtMost(ns, n) && Increasing(ns) ==> Increasing(ns + [n + 1])
  {
  }

  lemma BeginOrders(n: nat, s: Subscriber, t: Table)
    requires !Started(s)
    ensures EventsInOrder(n, s) ==> EventsInOrder(n + 1, Begin(s, n + 1, t))
    ensures FramesInOrder(n, s) ==> FramesInOrder(n + 1, Begin(s, n + 1, t))
  {
    var s' := Begin(s, n + 1, t);
    assert s'.frames[..0] == [] && s'.frames[1..] == [];
    assert Changes(s'.frames) == [] && Changes(s.frames) == [];
    assert EventLine(s') == EventLine(s) && Line(s') == Line(s);
  }

  lemma SendOrders(s: Subscriber)
    requires Started(s) && s.queue != []
    ensures EventLine(Send(s)) == EventLine(s) && Line(Send(s)) == Line(s)
  {
    var s' := Send(s);
    assert s'.frames[..|s'.frames| - 1] == s.frames;
    assert Changes(s'.frames) == Changes(s.frames) + [s.queue[0]];
    assert EventNumbers(Changes(s'.frames)) == EventNumbers(Changes(s.frames)) + [s.queue[0].number];
    assert EventNumbers(s.queue) == [s.queue[0].number] + EventNumbers(s.queue[1..]);
    assert s'.frames[1..] == s.frames[1..] + [Change(s.queue[0])];
    assert Numbers(s'.frames[1..]) == Numbers(s.frames[1..]) + [s.queue[0].number];
  }

  /** A heartbeat keeps all frames in order exactly when no event is queued
      behind it. */
  lemma PulseOrders(n: nat, s: Subscriber)
    requires Started(s)
    ensures EventsInOrder(n, s) ==> EventsInOrder(n + 1, Pulse(s, n + 1))
    ensures FramesInOrder(n, s) ==> (FramesInOrder(n + 1, Pulse(s, n + 1)) <==> s.queue == [])
  {
    var s' := Pulse(s, n + 1);
    assert s'.frames[..|s'.frames| - 1] == s.frames;
    assert Changes(s'.frames) == Changes(s.frames);
    assert s'.frames[1..] == s.frames[1..] + [Heartbeat(n + 1)];
    var ns := Numbers(s.frames[1..]);
    assert Numbers(s'.frames[1..]) == ns + [n + 1];
    assert Line(s') == ns + [n + 1] + EventNumbers(s.queue);
    if FramesInOrder(n, s) && s.queue != [] {
      assert Line(s)[|ns|] == s.queue[0].number;
      assert Line(s')[|ns|] == n + 1 && Line(s')[|ns| + 1] == s.queue[0].number;
    }
    if FramesInOrder(n, s) && s.queue == [] {
      assert Line(s) == ns && Line(s') == ns + [n + 1];
    }
  }

  ghost predicate AllEventsInOrder(b: Bus) {
    forall id :: id in b.subscribers ==> EventsInOrder(b.sequence, b.subscribers[id])
  }

  ghost predicate AllFramesInOrder(b: Bus) {
    forall id :: id in b.subscribers ==> FramesInOrder(b.sequence, b.subscribers[id])
  }

  /** A heartbeat is sent while no event is queued. */
  predicate OnTime(b: Bus, a: Action)
    requires Enabled(b, a)
  {
    a.Beat? ==> b.subscribers[a.id].queue == []
  }

  lemma StepOrdersOne(b: Bus, a: Action, id: nat)
    requires Enabled(b, a) && id in b.subscribers && id in Next(b, a).subscribers
    ensures EventsInOrder(b.sequence, b.subscribers[id]) ==> EventsInOrder(Next(b, a).sequence, Next(b, a).subscribers[id])
    ensures FramesInOrder(b.sequence, b.subscribers[id]) ==>
              (FramesInOrder(Next(b, a).sequence, Next(b, a).subscribers[id]) <==> OnTime(b, a) || a.id != id)
  {
    hide Offer, Begin, Send, Pulse, Increasing, Line, EventLine;
    var s := b.subscribers[id];
    match a
    case Publish(agent, state) => OfferOrders(b.sequence, s, Event(agent, b.sequence + 1, state));
    case Start(k) => if id == k { BeginOrders(b.sequence, s, b.table); }
    case Deliver(k) => if id == k { SendOrders(s); }
    case Beat(k) => if id == k { PulseOrders(b.sequence, s); }
    case Subscribe(k) =>
    case Disconnect(k) =>
  }

  lemma NewIsInOrder(n: nat)
    ensures EventsInOrder(n, Subscriber([], [], {})) && FramesInOrder(n, Subscriber([], [], {}))
  {
  }

  lemma StepOrders(b: Bus, a: Action)
    requires Enabled(b, a)
    ensures AllEventsInOrder(b) ==> AllEventsInOrder(Next(b, a))
    ensures AllFramesInOrder(b) ==> (AllFramesInOrder(Next(b, a)) <==> OnTime(b, a))
  {
    hide EventsInOrder, FramesInOrder, Offer, Begin, Send, Pulse;
    var b' := Next(b, a);
    NewIsInOrder(b.sequence);
    forall id | id in b.subscribers && id in b'.subscribers
      ensures EventsInOrder(b.sequence, b.subscribers[id]) ==> EventsInOrder(b'.sequence, b'.subscribers[id])
      ensures FramesInOrder(b.sequence, b.subscribers[id]) ==>
                (FramesInOrder(b'.sequence, b'.subscribers[id]) <==> OnTime(b, a) || a.id != id)
    {
      StepOrdersOne(b, a, id);
    }
  }

  predicate AllOnTime(b: Bus, run: seq<Action>)
    requires Possible(b, run)
    decreases |run|
  {
    run == [] || (OnTime(b, run[0]) && AllOnTime(Next(b, run[0]), run[1..]))
  }

  lemma {:induction false} RunOrders(b: Bus, run: seq<Action>)
    requires Possible(b, run)
    ensures AllEventsInOrder(b) ==> AllEventsInOrder(After(b, run))
    ensures AllFramesInOrder(b) && AllOnTime(b, run) ==> AllFramesInOrder(After(b, run))
    decreases |run|
  {
    hide AllEventsInOrder, AllFramesInOrder, OnTime, Next;
    if run != [] {
      StepOrders(b, run[0]);
      RunOrders(Next(b, run[0]), run[1..]);
    }
  }

  /** Over every run the events a subscriber is sent have increasing numbers; so
      do all its frames after the snapshot if heartbeats find no event queued. */
  lemma FramesIncrease(run: seq<Action>, id: nat)
    requires Possible(START, run) && id in After(START, run).subscribers
    ensures Increasing(EventNumbers(Changes(After(START, run).subscribers[id].frames)))
    ensures AllOnTime(START, run) && Started(After(START, run).subscribers[id]) ==>
              Increasing(Numbers(After(START, run).subscribers[id].frames[1..]))
  {
    RunOrders(START, run);
    var b := After(START, run);
    var s := b.subscribers[id];
    assert EventsInOrder(b.sequence, s);
    var changes := EventNumbers(Changes(s.frames));
    assert forall i :: 0 <= i < |changes| ==> changes[i] == EventLine(s)[i];
    if AllOnTime(START, run) && Started(s) {
      assert FramesInOrder(b.sequence, s);
      var numbers := Numbers(s.frames[1..]);
      assert forall i :: 0 <= i < |numbers| ==> numbers[i] == Line(s)[i];
    }
  }

  /** The snapshot comes before everything sent after it exactly when no event is
      queued when the stream begins. */
  lemma SnapshotOrders(n: nat, s: Subscriber, t: Table)
    requires !Started(s) && EventsInOrder(n, s)
    ensures Increasing(Numbers(Begin(s, n + 1, t).frames) + EventNumbers(s.queue)) <==> s.queue == []
  {
    var numbers := Numbers(Begin(s, n + 1, t).frames);
    assert numbers == [n + 1] && Changes(s.frames) == [];
    if s.queue != [] {
      assert EventLine(s)[0] == s.queue[0].number <= n;
      assert (numbers + EventNumbers(s.queue))[0] == n + 1 && (numbers + EventNumbers(s.queue))[1] == s.queue[0].number;
    }
  }

  lemma InsertKeepsDisorder(a: seq<nat>, x: nat, b: seq<nat>)
    ensures Increasing(a + [x] + b) ==> Increasing(a + b)
  {
    if Increasing(a + [x] + b) {
      var c, d := a + b, a + [x] + b;
      forall i, j | 0 <= i < j < |c| ensures c[i] < c[j] {
        var i', j' := if i < |a| then i else i + 1, if j < |a| then j else j + 1;
        assert c[i] == d[i'] && c[j] == d[j'];
      }
    }
  }

  lemma AppendKeepsDisorder(a: seq<nat>, x: nat)
    ensures Increasing(a + [x]) ==> Increasing(a)
  {
    assert a + [] == a && a + [x] + [] == a + [x];
    InsertKeepsDisorder(a, x, []);
  }

  /** Frames out of order stay out of order. */
  lemma DisorderStays(b: Bus, a: Action, id: nat)
    requires Enabled(b, a) && id in b.subscribers && id in Next(b, a).subscribers
    ensures Increasing(Line(Next(b, a).subscribers[id])) ==> Increasing(Line(b.subscribers[id]))
  {
    hide Increasing;
    var s, s' := b.subscribers[id], Next(b, a).subscribers[id];
    match a
    case Publish(agent, state) =>
      var e := Event(agent, b.sequence + 1, state);
      assert EventNumbers(s.queue + [e]) == EventNumbers(s.queue) + [e.number];
      if |s.queue| < CAPACITY { assert Line(s') == Line(s) + [e.number]; }
      AppendKeepsDisorder(Line(s), e.number);
    case Start(k) =>
      if k == id {
        assert s'.frames[1..] == [];
        assert Line(s') == Line(s);
      }
    case Deliver(k) => if k == id { SendOrders(s); }
    case Beat(k) =>
      if k == id {
        assert s'.frames[1..] == s.frames[1..] + [Heartbeat(b.sequence + 1)];
        assert Numbers(s'.frames[1..]) == Numbers(s.frames[1..]) + [b.sequence + 1];
        InsertKeepsDisorder(Numbers(s.frames[1..]), b.sequence + 1, EventNumbers(s.queue));
      }
    case Subscribe(k) =>
    case Disconnect(k) =>
  }

  /** The heartbeats of one subscriber find no event queued. */
  predicate OnTimeFor(b: Bus, run: seq<Action>, id: nat)
    requires Possible(b, run)
    decreases |run|
  {
    run == [] || ((run[0] == Beat(id) ==> OnTime(b, run[0])) && OnTimeFor(Next(b, run[0]), run[1..], id))
  }

  lemma {:induction false} DisorderLasts(b: Bus, run: seq<Action>, id: nat)
    requires Possible(b, run) && Disconnect(id) !in run && id in b.subscribers
    ensures id in After(b, run).subscribers
    ensures Increasing(Line(After(b, run).subscribers[id])) ==> Increasing(Line(b.subscribers[id]))
    decreases |run|
  {
    hide Line, Increasing;
    if run != [] {
      DisorderStays(b, run[0], id);
      DisorderLasts(Next(b, run[0]), run[1..], id);
    }
  }

  /** For a subscriber that stays, all frames after the snapshot are in order
      exactly when none of its heartbeats finds an event queued. */
  lemma {:induction false} FramesIncreaseExactly(b: Bus, run: seq<Action>, id: nat)
    requires Possible(b, run) && Disconnect(id) !in run && id in b.subscribers
    requires FramesInOrder(b.sequence, b.subscribers[id])
    ensures id in After(b, run).subscribers
    ensures FramesInOrder(After(b, run).sequence, After(b, run).subscribers[id]) <==> OnTimeFor(b, run, id)
    decreases |run|
  {
    hide Line, Increasing, AtMost, Next, Enabled;
    if run != [] {
      StaysSubscribed(b, run[0], id);
      StepOrdersOne(b, run[0], id);
      var b' := Next(b, run[0]);
      if run[0] == Beat(id) ==> OnTime(b, run[0]) {
        FramesIncreaseExactly(b', run[1..], id);
      } else {
        DisorderLasts(b', run[1..], id);
        LateBeatBreaks(b, id);
      }
    }
  }

  lemma StaysSubscribed(b: Bus, a: Action, id: nat)
    requires Enabled(b, a) && a != Disconnect(id) && id in b.subscribers
    ensures id in Next(b, a).subscribers && (OnTime(b, a) || a.id != id <==> (a == Beat(id) ==> OnTime(b, a)))
  {
  }

  lemma LateBeatBreaks(b: Bus, id: nat)
    requires Enabled(b, Beat(id)) && !OnTime(b, Beat(id)) && FramesInOrder(b.sequence, b.subscribers[id])
    ensures !Increasing(Line(Next(b, Beat(id)).subscribers[id]))
  {
    var s := b.subscribers[id];
    var s' := Pulse(s, b.sequence + 1);
    var ns := Numbers(s.frames[1..]);
    assert s'.frames[1..] == s.frames[1..] + [Heartbeat(b.sequence + 1)];
    assert Numbers(s'.frames[1..]) == ns + [b.sequence + 1];
    assert Line(s)[|ns|] == s.queue[0].number;
    assert Line(s')[|ns|] == b.sequence + 1 && Line(s')[|ns| + 1] == s.queue[0].number;
  }

  /** An event published between a timeout and its heartbeat is sent after the
      heartbeat with a smaller number; one queued before the snapshot is sent
      after the snapshot with a smaller number. */
  lemma LateEventIsOutOfOrder(agent: string, state: string)
    ensures var b := Next(Next(START, Subscribe(0)), Start(0));
            var b' := Next(Next(Next(b, Publish(agent, state)), Beat(0)), Deliver(0));
            b'.subscribers[0].frames == [Snapshot(1, map[]), Heartbeat(3), Change(Event(agent, 2, state))]
    ensures var b := Next(Next(START, Subscribe(0)), Publish(agent, state));
            var b' := Next(Next(b, Start(0)), Deliver(0));
            b'.subscribers[0].frames == [Snapshot(2, map[agent := Event(agent, 1, state)]), Change(Event(agent, 1, state))]
  {
  }

  lemma OfferIs(s: Subscriber, e: Event)
    ensures Offer(s, e) == if |s.queue| < 256 then s.(queue := s.queue + [e], lost := s.lost - {e.agent})
                           else s.(lost := s.lost + {e.agent})
  {
  }

  // ---------- The hub ----------

  class Hub {
    var sequence: nat
    var table: Table
    var subscribers: map<nat, Subscriber>

    ghost function Now(): Bus
      reads this
    {
      Bus(sequence, table, subscribers)
    }

    constructor ()
      ensures Now() == START
    {
      sequence, table, subscribers := 0, map[], map[];
    }

    method NextSequence() returns (n: nat)
      modifies this`sequence
      ensures n == sequence == old(sequence) + 1
    {
      sequence := sequence + 1;
      n := sequence;
    }

    method PublishAgentState(agent: string, state: string) returns (e: Event)
      modifies this
      ensures Now() == Next(old(Now()), Publish(agent, state))
      ensures e == table[agent] && e.number == sequence
    {
      hide Offer;
      var n := NextSequence();
      e := Event(agent, n, state);
      table := table[agent := e];
      ghost var before := subscribers;
      var todo := subscribers.Keys;
      while todo != {}
        invariant todo <= before.Keys == subscribers.Keys && table == old(table)[agent := e] && sequence == n
        invariant forall id :: id in before ==> subscribers[id] == if id in todo then before[id] else Offer(before[id], e)
      {
        var id :| id in todo;
        var s := subscribers[id];
        OfferIs(s, e);
        if |s.queue| < 256 {
          subscribers := subscribers[id := s.(queue := s.queue + [e], lost := s.lost - {e.agent})];
        } else {
          subscribers := subscribers[id := s.(lost := s.lost + {e.agent})];
        }
        todo := todo - {id};
      }
      assert subscribers == map id | id in before :: Offer(before[id], e);
    }

    method Open(id: nat)
      requires Enabled(Now(), Subscribe(id))
      modifies this`subscribers
      ensures Now() == Next(old(Now()), Subscribe(id))
    {
      subscribers := subscribers[id := Subscriber([], [], {})];
    }

    /** The stream's first frame: the client then holds all last states. */
    method SendSnapshot(id: nat)
      requires Enabled(Now(), Start(id))
      modifies this`sequence, this`subscribers
      ensures Now() == Next(old(Now()), Start(id))
      ensures id in subscribers && View(subscribers[id].frames) == table
    {
      var n := NextSequence();
      subscribers := subscribers[id := Begin(subscribers[id], n, table)];
    }

    /** One turn of the stream's loop: a queued event, or a heartbeat after a timeout.
        What the client holds in the end stays the same. */
    method SendNext(id: nat, timedOut: bool)
      requires Enabled(Now(), if timedOut then Beat(id) else Deliver(id))
      modifies this`sequence, this`subscribers
      ensures Now() == Next(old(Now()), if timedOut then Beat(id) else Deliver(id))
      ensures id in subscribers && Settled(table, subscribers[id]) == old(Settled(table, subscribers[id]))
      ensures timedOut ==> View(subscribers[id].frames) == old(View(subscribers[id].frames))
    {
      SameInTheEnd(table, subscribers[id], sequence + 1);
      if timedOut {
        var n := NextSequence();
        subscribers := subscribers[id := Pulse(subscribers[id], n)];
      } else {
        subscribers := subscribers[id := Send(subscribers[id])];
      }
    }

    method Close(id: nat)
      requires Enabled(Now(), Disconnect(id))
      modifies this`subscribers
      ensures Now() == Next(old(Now()), Disconnect(id))
    {
      subscribers := subscribers - {id};
    }
  }
}
