/** The broker that carries messages between the windows of one tab: a bounded queue, at most one
    goroutine draining it, and generations that make older windows unreachable. */
module WindowBroker {
  import opened Options

  const MAX_WINDOW_MESSAGE_BYTES: nat := 0x10_0000
  const MAX_PENDING_MESSAGES: nat := 256

  datatype Key = Key(id: nat, generation: nat)

  datatype Window = Window(key: Key, origin: string)

  type Runtime = nat

  /** To whom a message may be shown: anyone, the sender's own origin, or one named origin, which
      is absent when the given text is not a bare origin. */
  datatype Filter = Anyone | SameOrigin | Only(origin: Option<string>)

  datatype Message = Message(source: Window, target: Window, filter: Filter, payload: string)

  datatype Broker = Broker(
    contexts: map<Key, Window>, runtimes: map<Key, Runtime>, latest: map<nat, nat>,
    queue: seq<Message>, draining: bool, closed: bool)

  datatype Delivery = Delivery(message: Message, source: Window, target: Window, runtime: Runtime)

  function Latest(b: Broker, id: nat): nat {
    if id in b.latest then b.latest[id] else 0
  }

  predicate Stale(b: Broker, k: Key) {
    Latest(b, k.id) > k.generation
  }

  predicate OriginMatches(filter: Filter, source: string, target: string) {
    match filter
    case Anyone => true
    case SameOrigin => source != "null" && source == target
    case Only(origin) => target != "null" && origin == Some(target)
  }

  /** An opaque origin is reached only by a message to anyone. */
  lemma OpaqueNeedsAnyone(filter: Filter, source: string)
    ensures OriginMatches(filter, source, "null") <==> filter.Anyone?
  {
  }

  // ---------------------------------------------------------------- what each section does

  function Woken(b: Broker): Broker {
    b.(draining := b.draining || (!b.closed && b.queue != []))
  }

  function Defined(b: Broker, w: Window): Broker {
    if b.closed then b else
      b.(contexts := b.contexts[w.key := w],
         latest := if Latest(b, w.key.id) < w.key.generation then b.latest[w.key.id := w.key.generation] else b.latest)
  }

  function Registered(b: Broker, w: Window, r: Runtime): Broker {
    if b.closed then b else Woken(Defined(b, w).(runtimes := b.runtimes[w.key := r]))
  }

  function Unregistered(b: Broker, k: Key): Broker {
    b.(runtimes := b.runtimes - {k})
  }

  predicate MayPost(b: Broker, source: Key, target: Key, filter: Filter, payload: string) {
    && |payload| <= MAX_WINDOW_MESSAGE_BYTES && !b.closed
    && source in b.contexts && target in b.contexts && !Stale(b, source) && !Stale(b, target)
    && OriginMatches(filter, b.contexts[source].origin, b.contexts[target].origin)
    && |b.queue| < MAX_PENDING_MESSAGES
  }

  function Posted(b: Broker, source: Key, target: Key, filter: Filter, payload: string): Broker
    requires MayPost(b, source, target, filter, payload)
  {
    Woken(b.(queue := b.queue + [Message(b.contexts[source], b.contexts[target], filter, payload)]))
  }

  /** The head of the queue can never be delivered: its window is gone or has a newer generation. */
  predicate Hopeless(b: Broker, m: Message) {
    m.target.key !in b.contexts || Stale(b, m.target.key)
  }

  predicate Stops(b: Broker) {
    b.closed || b.queue == [] || (!Hopeless(b, b.queue[0]) && b.queue[0].target.key !in b.runtimes)
  }

  /** One round of the drainer: it stops, or takes the head off the queue. */
  function Round(b: Broker): Broker {
    if Stops(b) then b.(draining := false) else b.(queue := b.queue[1..])
  }

  /** What that round hands to a runtime. */
  function Outcome(b: Broker): Option<Delivery> {
    if Stops(b) || Hopeless(b, b.queue[0]) then None else
      var m := b.queue[0];
      if m.source.key in b.contexts
         && OriginMatches(m.filter, b.contexts[m.source.key].origin, b.contexts[m.target.key].origin)
      then Some(Delivery(m, b.contexts[m.source.key], b.contexts[m.target.key], b.runtimes[m.target.key])) else None
  }

  function Closed(b: Broker): Broker {
    b.(closed := true, queue := [], contexts := map[], runtimes := map[])
  }

  /** What a drainer that nobody disturbs leaves and hands over. */
  function Drained(b: Broker): Broker
    decreases |b.queue|
  {
    if Stops(b) then Round(b) else Drained(Round(b))
  }

  function Outcomes(b: Broker): seq<Delivery>
    decreases |b.queue|
  {
    if Stops(b) then [] else
      (if Outcome(b).Some? then [Outcome(b).value] else []) + Outcomes(Round(b))
  }

  /** A drainer is one round and then the drainer of what that leaves. */
  lemma OneRound(b: Broker)
    ensures if Stops(b) then Drained(b) == Round(b) && Outcomes(b) == [] && Outcome(b) == None
            else && |Round(b).queue| < |b.queue| && Drained(b) == Drained(Round(b))
                 && Outcomes(b) == (if Outcome(b).Some? then [Outcome(b).value] else []) + Outcomes(Round(b))
  {
  }

  class Registry {
    var contexts: map<Key, Window>
    var runtimes: map<Key, Runtime>
    var latest: map<nat, nat>
    var queue: seq<Message>
    var draining: bool
    var closed: bool

    ghost function View(): Broker
      reads this
    {
      Broker(contexts, runtimes, latest, queue, draining, closed)
    }

    constructor ()
      ensures View() == Broker(map[], map[], map[], [], false, false)
    {
      contexts, runtimes, latest, queue, draining, closed := map[], map[], map[], [], false, false;
    }

    /** Whether a new drainer has to be started. */
    method StartDrainLocked() returns (spawn: bool)
      modifies `draining
      ensures View() == Woken(old(View())) && spawn == (draining && !old(draining))
    {
      if draining || closed || |queue| == 0 {
        return false;
      }
      draining := true;
      spawn := true;
    }

    method Note(w: Window)
      requires !closed
      modifies `contexts, `latest
      ensures View() == Defined(old(View()), w)
    {
      contexts := contexts[w.key := w];
      if w.key.generation > (if w.key.id in latest then latest[w.key.id] else 0) {
        latest := latest[w.key.id := w.key.generation];
      }
    }

    method Define(w: Window)
      modifies `contexts, `latest
      ensures View() == Defined(old(View()), w)
      ensures contexts == if closed then old(contexts) else old(contexts)[w.key := w]
      ensures !closed ==> w.key.generation <= Latest(View(), w.key.id)
      ensures forall id ::
        || Latest(View(), id) == old(Latest(View(), id))
        || (id == w.key.id && Latest(View(), id) == w.key.generation > old(Latest(View(), id)))
    {
      if !closed {
        Note(w);
      }
    }

    method Register(w: Window, runtime: Runtime) returns (spawn: bool)
      modifies this
      ensures View() == Registered(old(View()), w, runtime) && spawn == (draining && !old(draining))
      ensures runtimes == if closed then old(runtimes) else old(runtimes)[w.key := runtime]
      ensures queue == old(queue) && closed == old(closed)
    {
      if closed {
        return false;
      }
      Note(w);
      runtimes := runtimes[w.key := runtime];
      spawn := StartDrainLocked();
    }

    method Unregister(key: Key)
      modifies `runtimes
      ensures View() == Unregistered(old(View()), key)
      ensures runtimes.Keys == old(runtimes.Keys) - {key}
      ensures forall k | k in runtimes :: runtimes[k] == old(runtimes)[k]
    {
      runtimes := runtimes - {key};
    }

    method Post(source: Key, target: Key, filter: Filter, payload: string) returns (ok: bool, spawn: bool)
      modifies this
      ensures ok <==> MayPost(old(View()), source, target, filter, payload)
      ensures ok <==>
        && |payload| <= MAX_WINDOW_MESSAGE_BYTES && !old(closed) && |old(queue)| < MAX_PENDING_MESSAGES
        && source in old(contexts) && target in old(contexts)
        && (source.id in old(latest) ==> old(latest)[source.id] <= source.generation)
        && (target.id in old(latest) ==> old(latest)[target.id] <= target.generation)
        && var from, to := old(contexts)[source].origin, old(contexts)[target].origin;
           (filter.SameOrigin? ==> from == to != "null") && (filter.Only? ==> filter.origin == Some(to) && to != "null")
      ensures queue ==
        if ok then old(queue) + [Message(old(contexts)[source], old(contexts)[target], filter, payload)] else old(queue)
      ensures View() == if ok then Posted(old(View()), source, target, filter, payload) else old(View())
      ensures spawn == (draining && !old(draining))
    {
      ok, spawn := false, false;
      if |payload| > MAX_WINDOW_MESSAGE_BYTES || closed || source !in contexts || target !in contexts {
        return;
      }
      if (source.id in latest && latest[source.id] > source.generation)
        || (target.id in latest && latest[target.id] > target.generation) {
        return;
      }
      if !OriginMatches(filter, contexts[source].origin, contexts[target].origin) || |queue| >= MAX_PENDING_MESSAGES {
        return;
      }
      queue := queue + [Message(contexts[source], contexts[target], filter, payload)];
      spawn := StartDrainLocked();
      ok := true;
    }

    /** The locked part of one round of the drainer. */
    method DrainRound() returns (more: bool, delivery: Option<Delivery>)
      modifies `queue, `draining
      ensures View() == Round(old(View())) && more == !Stops(old(View())) && delivery == Outcome(old(View()))
    {
      delivery := None;
      if closed || |queue| == 0 {
        draining := false;
        return false, None;
      }
      var message := queue[0];
      var key := message.target.key;
      if key !in contexts || (key.id in latest && latest[key.id] > key.generation) {
        queue := queue[1..];
        return true, None;
      }
      if key !in runtimes {
        draining := false;
        return false, None;
      }
      queue := queue[1..];
      more := true;
      if message.source.key in contexts
         && OriginMatches(message.filter, contexts[message.source.key].origin, contexts[key].origin) {
        delivery := Some(Delivery(message, contexts[message.source.key], contexts[key], runtimes[key]));
      }
    }

    /** The whole drain loop, when nothing else happens meanwhile. */
    method Drain() returns (log: seq<Delivery>)
      modifies `queue, `draining
      ensures View() == Drained(old(View())) && log == Outcomes(old(View()))
    {
      hide Drained, Outcomes, Stops, Round, Outcome;
      log := [];
      var more := true;
      while more
        invariant more ==> Drained(View()) == Drained(old(View())) && log + Outcomes(View()) == Outcomes(old(View()))
        invariant !more ==> View() == Drained(old(View())) && log == Outcomes(old(View()))
        decreases more, |queue|
      {
        var delivery;
        OneRound(View());
        more, delivery := DrainRound();
        if delivery.Some? {
          log := log + [delivery.value];
        }
      }
    }

    method Close()
      modifies this
      ensures View() == Closed(old(View())) && closed
    {
      closed := true;
      queue, contexts, runtimes := [], map[], map[];
    }
  }

  /** An undisturbed drainer leaves exactly the part of the queue that begins with the first
      message whose window is current but has no runtime. */
  lemma {:induction false} DrainedStops(b: Broker)
    ensures var d := Drained(b);
            && Stops(d) && !d.draining && d == b.(queue := d.queue, draining := false) && |d.queue| <= |b.queue|
            && d.queue == b.queue[|b.queue| - |d.queue|..]
    ensures !b.closed ==> forall i :: 0 <= i < |b.queue| - |Drained(b).queue| ==>
      Hopeless(b, b.queue[i]) || b.queue[i].target.key in b.runtimes
    decreases |b.queue|
  {
    if !Stops(b) {
      var c := Round(b);
      DrainedStops(c);
      forall i | 0 <= i < |b.queue| - |Drained(b).queue|
        ensures Hopeless(b, b.queue[i]) || b.queue[i].target.key in b.runtimes
      {
        if i > 0 {
          assert c.queue[i - 1] == b.queue[i];
          assert Hopeless(c, c.queue[i - 1]) || c.queue[i - 1].target.key in c.runtimes;
        }
      }
    }
  }

  // ---------------------------------------------------------------- runs

  /** The broker with its drainers, those about to take the lock and those dispatching, everything
      posted so far, the numbers of what has been delivered, and what was handed over. */
  datatype World = World(
    b: Broker, waiting: nat, dispatching: nat, posted: seq<Message>, delivered: seq<nat>, handed: seq<Delivery>)

  datatype Action =
    | Define(w: Window)
    | Register(w: Window, runtime: Runtime)
    | Unregister(key: Key)
    | Post(source: Key, target: Key, filter: Filter, payload: string)
    | DrainRound
    | Dispatched
    | Close

  predicate Enabled(w: World, a: Action) {
    match a
    case DrainRound => w.waiting > 0
    case Dispatched => w.dispatching > 0
    case _ => true
  }

  function Spawned(b: Broker, c: Broker): nat {
    if c.draining && !b.draining then 1 else 0
  }

  function Do(w: World, a: Action): World
    requires Enabled(w, a)
  {
    match a
    case Define(x) => w.(b := Defined(w.b, x))
    case Register(x, r) => w.(b := Registered(w.b, x, r), waiting := w.waiting + Spawned(w.b, Registered(w.b, x, r)))
    case Unregister(k) => w.(b := Unregistered(w.b, k))
    case Post(s, t, f, p) =>
      if !MayPost(w.b, s, t, f, p) then w else
        var c := Posted(w.b, s, t, f, p);
        var m := Message(w.b.contexts[s], w.b.contexts[t], f, p);
        w.(b := c, waiting := w.waiting + Spawned(w.b, c), posted := w.posted + [m])
    case DrainRound =>
      var v := w.(b := Round(w.b));
      if Stops(w.b) then v.(waiting := w.waiting - 1)
      else if Outcome(w.b).None? then v
      else v.(waiting := w.waiting - 1, dispatching := w.dispatching + 1,
              delivered := w.delivered + [Head(w)], handed := w.handed + [Outcome(w.b).value])
    case Dispatched => w.(waiting := w.waiting + 1, dispatching := w.dispatching - 1)
    case Close => w.(b := Closed(w.b))
  }

  /** The number of the message at the head of the queue. */
  function Head(w: World): nat {
    if |w.b.queue| <= |w.posted| then |w.posted| - |w.b.queue| else 0
  }

  /** What the queue, the drainers and the deliveries have to do with each other. */
  ghost predicate Ordered(w: World) {
    && w.waiting + w.dispatching == (if w.b.draining then 1 else 0)
    && |w.b.queue| <= |w.posted| && w.b.queue == w.posted[Head(w)..]
    && |w.b.queue| <= MAX_PENDING_MESSAGES
    && (forall i :: 0 <= i < |w.delivered| ==> w.delivered[i] < Head(w))
    && (forall i, j :: 0 <= i < j < |w.delivered| ==> w.delivered[i] < w.delivered[j])
    && (!w.b.closed && w.b.queue != [] && !w.b.draining ==> w.b.queue[0].target.key !in w.b.runtimes)
  }

  /** What the broker knows of its windows. */
  ghost predicate Known(b: Broker) {
    && (forall k | k in b.contexts :: k.generation <= Latest(b, k.id) && b.contexts[k].key == k)
    && (b.closed ==> b.queue == [] && b.contexts == map[] && b.runtimes == map[])
    && (!b.closed ==> forall m | m in b.queue :: m.target.key in b.contexts && m.source.key in b.contexts)
  }

  /** What has been handed over: messages that were posted, between the windows they name, with
      origins that the filter asks for. */
  ghost predicate Permitted(w: World) {
    && |w.handed| == |w.delivered|
    && forall i :: 0 <= i < |w.handed| ==>
         && w.delivered[i] < |w.posted| && w.handed[i].message == w.posted[w.delivered[i]]
         && Suits(w.handed[i])
  }

  ghost predicate Suits(d: Delivery) {
    && d.source.key == d.message.source.key && d.target.key == d.message.target.key
    && (d.message.filter.SameOrigin? ==> d.source.origin == d.target.origin != "null")
    && (d.message.filter.Only? ==> d.message.filter.origin == Some(d.target.origin) && d.target.origin != "null")
  }

  ghost predicate Inv(w: World) {
    Ordered(w) && Known(w.b) && Permitted(w)
  }

  function Initial(): World {
    World(Broker(map[], map[], map[], [], false, false), 0, 0, [], [], [])
  }

  lemma DefinedKeeps(b: Broker, w: Window)
    requires forall k | k in b.contexts :: k.generation <= Latest(b, k.id) && b.contexts[k].key == k
    ensures forall k | k in Defined(b, w).contexts ::
      k.generation <= Latest(Defined(b, w), k.id) && Defined(b, w).contexts[k].key == k
    ensures forall id :: Latest(b, id) <= Latest(Defined(b, w), id)
  {
  }

  lemma StepInv(w: World, a: Action)
    requires Inv(w) && Enabled(w, a)
    ensures Inv(Do(w, a))
  {
    hide Inv, Do;
    match a
    case Define(x) => DefineInv(w, x);
    case Register(x, r) => RegisterInv(w, x, r);
    case Post(s, t, f, p) => PostInv(w, s, t, f, p);
    case DrainRound => RoundInv(w);
    case _ => OtherInv(w, a);
  }

  lemma DefineInv(w: World, x: Window)
    requires Inv(w)
    ensures Inv(Do(w, Define(x)))
  {
    DefinedKeeps(w.b, x);
  }

  lemma RegisterInv(w: World, x: Window, r: Runtime)
    requires Inv(w)
    ensures Inv(Do(w, Register(x, r)))
  {
    DefinedKeeps(w.b, x);
  }

  lemma OtherInv(w: World, a: Action)
    requires Inv(w) && Enabled(w, a) && (a.Unregister? || a.Dispatched? || a.Close?)
    ensures Inv(Do(w, a))
  {
  }

  lemma PostInv(w: World, source: Key, target: Key, filter: Filter, payload: string)
    requires Inv(w)
    ensures Inv(Do(w, Post(source, target, filter, payload)))
  {
    if MayPost(w.b, source, target, filter, payload) {
      PostOrdered(w, source, target, filter, payload);
      PostKnown(w.b, source, target, filter, payload);
    }
  }

  lemma PostOrdered(w: World, source: Key, target: Key, filter: Filter, payload: string)
    requires Ordered(w) && MayPost(w.b, source, target, filter, payload)
    ensures Ordered(Do(w, Post(source, target, filter, payload)))
  {
    hide OriginMatches, Stale;
    var v := Do(w, Post(source, target, filter, payload));
    var m := Message(w.b.contexts[source], w.b.contexts[target], filter, payload);
    assert v.b.queue == w.b.queue + [m] && v.posted == w.posted + [m];
    assert Head(v) == Head(w) && v.posted[Head(v)..] == w.posted[Head(w)..] + [m];
    assert v.b.draining;
  }

  lemma PostKnown(b: Broker, source: Key, target: Key, filter: Filter, payload: string)
    requires Known(b) && MayPost(b, source, target, filter, payload)
    ensures Known(Posted(b, source, target, filter, payload))
  {
  }

  lemma RoundInv(w: World)
    requires Inv(w) && w.waiting > 0
    ensures Inv(Do(w, DrainRound))
  {
    if !Stops(w.b) {
      var v := Do(w, DrainRound);
      assert v.b.queue == w.posted[Head(w) + 1..];
      assert Head(v) == Head(w) + 1;
    }
  }

  predicate Runs(w: World, actions: seq<Action>)
    decreases |actions|
  {
    actions == [] || (Enabled(w, actions[0]) && Runs(Do(w, actions[0]), actions[1..]))
  }

  function After(w: World, actions: seq<Action>): World
    requires Runs(w, actions)
    decreases |actions|
  {
    if actions == [] then w else After(Do(w, actions[0]), actions[1..])
  }

  lemma {:induction false} RunInv(w: World, actions: seq<Action>)
    requires Inv(w) && Runs(w, actions)
    ensures Inv(After(w, actions))
    decreases |actions|
  {
    if actions != [] {
      StepInv(w, actions[0]);
      RunInv(Do(w, actions[0]), actions[1..]);
    }
  }

  /** At most one drainer; a bounded queue; messages delivered in the order of posting and none
      twice, each between the windows it names, with the origins that its filter asks for; and an
      open broker whose queue nobody drains waits for the runtime of the first message's window. */
  ghost predicate Orderly(w: World) {
    && w.waiting + w.dispatching <= 1 && |w.b.queue| <= MAX_PENDING_MESSAGES
    && (forall i, j :: 0 <= i < j < |w.delivered| ==> w.delivered[i] < w.delivered[j])
    && |w.handed| == |w.delivered|
    && (forall i :: 0 <= i < |w.delivered| ==>
          && w.delivered[i] < |w.posted|
          && var d, m := w.handed[i], w.posted[w.delivered[i]];
             && d.message == m && d.source.key == m.source.key && d.target.key == m.target.key
             && (m.filter.SameOrigin? ==> d.source.origin == d.target.origin != "null")
             && (m.filter.Only? ==> m.filter.origin == Some(d.target.origin) && d.target.origin != "null"))
    && (!w.b.closed && w.b.queue != [] && w.waiting + w.dispatching == 0 ==>
          w.b.queue[0].target.key !in w.b.runtimes)
  }

  lemma InvOrderly(w: World)
    requires Inv(w)
    ensures Orderly(w)
  {
    assert Head(w) <= |w.posted|;
  }

  /** So it is in every state the broker can reach. */
  lemma Reachable(actions: seq<Action>)
    requires Runs(Initial(), actions)
    ensures Orderly(After(Initial(), actions))
  {
    InitialInv();
    RunInv(Initial(), actions);
    InvOrderly(After(Initial(), actions));
  }

  lemma InitialInv()
    ensures Inv(Initial())
  {
    hide Latest;
    assert Initial().posted[Head(Initial())..] == [];
  }

  /** In an idle open broker with messages, a drainer would find something to do exactly when the
      first message has become undeliverable; otherwise its window still waits for a runtime. */
  lemma IdleExactly(w: World)
    requires Inv(w) && !w.b.closed && w.b.queue != [] && !w.b.draining
    ensures Stops(w.b) <==> !Hopeless(w.b, w.b.queue[0])
  {
  }

  predicate Idle(b: Broker) {
    !b.closed && b.queue != [] && !b.draining && !Hopeless(b, b.queue[0])
  }

  /** Only a newer generation of its window, merely defined, makes the first message of an idle
      broker undeliverable without waking a drainer: the messages behind it then wait for the next
      post or registration. */
  lemma IdleEndsExactly(w: World, a: Action)
    requires Inv(w) && Enabled(w, a) && Idle(w.b)
    ensures var c := Do(w, a).b;
            (!c.closed && c.queue != [] && !c.draining && Hopeless(c, c.queue[0])
             <==> a.Define? && a.w.key.id == w.b.queue[0].target.key.id && a.w.key.generation > Latest(w.b, a.w.key.id))
  {
  }

  lemma {:induction false} RunsMore(w: World, xs: seq<Action>, a: Action)
    requires Runs(w, xs) && Enabled(After(w, xs), a)
    ensures Runs(w, xs + [a]) && After(w, xs + [a]) == Do(After(w, xs), a)
    decreases |xs|
  {
    if xs == [] {
      assert (xs + [a])[1..] == [];
    } else {
      assert (xs + [a])[1..] == xs[1..] + [a];
      RunsMore(Do(w, xs[0]), xs[1..], a);
    }
  }

  /** Windows of three different ids. */
  predicate Apart(sender: Window, target: Window, other: Window) {
    && sender.key.id != target.key.id && sender.key.id != other.key.id && target.key.id != other.key.id
    && sender.key.generation > 0 && target.key.generation > 0 && other.key.generation > 0
  }

  /** Three windows, one of them with a runtime, and some messages that a drainer is about to look
      at, or nobody. */
  function Waiting(sender: Window, target: Window, other: Window, runtime: Runtime, queue: seq<Message>,
                   draining: bool): World {
    World(Broker(map[sender.key := sender, target.key := target, other.key := other], map[other.key := runtime],
                 map[sender.key.id := sender.key.generation, target.key.id := target.key.generation,
                     other.key.id := other.key.generation], queue, draining, false),
          if draining then 1 else 0, 0, queue, [], [])
  }

  lemma ThreeWindows(sender: Window, target: Window, other: Window, runtime: Runtime) returns (actions: seq<Action>)
    requires Apart(sender, target, other)
    ensures Runs(Initial(), actions) && After(Initial(), actions) == Waiting(sender, target, other, runtime, [], false)
  {
    var w := Initial();
    actions := [];
    RunsMore(w, actions, Define(sender));
    actions := actions + [Define(sender)];
    RunsMore(w, actions, Define(target));
    actions := actions + [Define(target)];
    RunsMore(w, actions, Register(other, runtime));
    actions := actions + [Register(other, runtime)];
  }

  lemma PostWakes(sender: Window, target: Window, other: Window, runtime: Runtime, queue: seq<Message>, draining: bool,
                  to: Window)
    requires Apart(sender, target, other) && (to == target || to == other) && |queue| < MAX_PENDING_MESSAGES
    ensures Do(Waiting(sender, target, other, runtime, queue, draining), Post(sender.key, to.key, Anyone, ""))
         == Waiting(sender, target, other, runtime, queue + [Message(sender, to, Anyone, "")], true)
  {
  }

  /** The drainer stops in front of a message for the window without a runtime. */
  lemma RoundStops(sender: Window, target: Window, other: Window, runtime: Runtime, queue: seq<Message>)
    requires Apart(sender, target, other) && queue != [] && queue[0].target == target
    ensures Enabled(Waiting(sender, target, other, runtime, queue, true), DrainRound)
    ensures Do(Waiting(sender, target, other, runtime, queue, true), DrainRound)
         == Waiting(sender, target, other, runtime, queue, false)
  {
  }

  /** A message waits for its window's runtime, and the window is replaced: the message can never
      be delivered, no drainer drops it, and the message behind it, which a drainer would deliver
      at once, waits too. */
  lemma Stranded(sender: Window, target: Window, newer: Window, other: Window, runtime: Runtime)
    returns (actions: seq<Action>)
    requires Apart(sender, target, other)
    requires newer.key.id == target.key.id && newer.key.generation > target.key.generation
    ensures Runs(Initial(), actions)
    ensures var w := After(Initial(), actions);
      && !w.b.closed && !w.b.draining && w.waiting + w.dispatching == 0
      && |w.b.queue| == 2 && Hopeless(w.b, w.b.queue[0])
      && Outcome(w.b.(queue := w.b.queue[1..]))
         == Some(Delivery(Message(sender, other, Anyone, ""), sender, other, runtime))
  {
    actions := ThreeWindows(sender, target, other, runtime);
    actions := Queued(actions, sender, target, other, runtime);
    RunsMore(Initial(), actions, Define(newer));
    actions := actions + [Define(newer)];
  }

  lemma Queued(before: seq<Action>, sender: Window, target: Window, other: Window, runtime: Runtime)
    returns (actions: seq<Action>)
    requires Apart(sender, target, other)
    requires Runs(Initial(), before) && After(Initial(), before) == Waiting(sender, target, other, runtime, [], false)
    ensures Runs(Initial(), actions)
    ensures After(Initial(), actions) ==
      Waiting(sender, target, other, runtime,
              [Message(sender, target, Anyone, ""), Message(sender, other, Anyone, "")], false)
  {
    hide Runs, After, Do, Waiting, Apart;
    var w := Initial();
    var first, second := Post(sender.key, target.key, Anyone, ""), Post(sender.key, other.key, Anyone, "");
    var message := Message(sender, target, Anyone, "");
    PostWakes(sender, target, other, runtime, [], false, target);
    RunsMore(w, before, first);
    PostWakes(sender, target, other, runtime, [] + [message], true, other);
    RunsMore(w, before + [first], second);
    RoundStops(sender, target, other, runtime, [message, Message(sender, other, Anyone, "")]);
    assert [] + [message] + [Message(sender, other, Anyone, "")] == [message, Message(sender, other, Anyone, "")];
    RunsMore(w, before + [first] + [second], DrainRound);
    actions := before + [first] + [second] + [DrainRound];
  }

  /** A post or a registration always wakes a drainer while something is queued. */
  lemma WakesAgain(w: World, a: Action)
    requires Enabled(w, a) && !w.b.closed && w.b.queue != []
    requires a.Register? || (a.Post? && MayPost(w.b, a.source, a.target, a.filter, a.payload))
    ensures Do(w, a).b.draining
  {
  }

  /** Whatever is handed over is the oldest queued message; its window is the latest generation
      at that moment, and the filter admits it for the origins as they are then. */
  lemma DeliveredToLatest(w: World)
    requires Inv(w) && w.waiting > 0 && Outcome(w.b).Some?
    ensures var d := Outcome(w.b).value;
            && Head(w) < |w.posted| && d.message == w.posted[Head(w)]
            && Do(w, DrainRound).delivered == w.delivered + [Head(w)]
            && d.target.key.generation <= Latest(w.b, d.target.key.id)
            && Latest(w.b, d.message.target.key.id) == d.message.target.key.generation
            && OriginMatches(d.message.filter, d.source.origin, d.target.origin)
            && w.b.runtimes[d.message.target.key] == d.runtime
  {
  }

  /** A round hands the oldest message over exactly when its window is current and has a runtime,
      the sender is still known, and the filter admits the origins as they are now. */
  lemma DeliversExactly(w: World)
    requires Inv(w) && !w.b.closed && w.b.queue != []
    ensures var m, b := w.b.queue[0], w.b;
      Outcome(b).Some? <==>
        && m.target.key in b.contexts && m.target.key in b.runtimes && m.source.key in b.contexts
        && (m.target.key.id in b.latest ==> b.latest[m.target.key.id] <= m.target.key.generation)
        && var from, to := b.contexts[m.source.key].origin, b.contexts[m.target.key].origin;
           && (m.filter.SameOrigin? ==> from == to != "null")
           && (m.filter.Only? ==> m.filter.origin == Some(to) && to != "null")
    ensures Outcome(w.b).Some? ==>
      var m := w.b.queue[0];
      Outcome(w.b).value
      == Delivery(m, w.b.contexts[m.source.key], w.b.contexts[m.target.key], w.b.runtimes[m.target.key])
  {
  }

  lemma StaleStep(w: World, a: Action, k: Key)
    requires Enabled(w, a) && Inv(w) && Stale(w.b, k)
    ensures Stale(Do(w, a).b, k)
  {
    match a
    case Define(x) => DefinedKeeps(w.b, x);
    case Register(x, _) => DefinedKeeps(w.b, x);
    case _ =>
  }

  /** A message whose window has been superseded before delivery is never delivered. */
  lemma {:induction false} StaleNeverDelivered(w: World, actions: seq<Action>, n: nat)
    requires Inv(w) && Runs(w, actions) && n < |w.posted| && n !in w.delivered && Stale(w.b, w.posted[n].target.key)
    ensures n !in After(w, actions).delivered
    decreases |actions|
  {
    if actions != [] {
      var v := Do(w, actions[0]);
      StepInv(w, actions[0]);
      StaleStep(w, actions[0], w.posted[n].target.key);
      if actions[0].DrainRound? && Outcome(w.b).Some? { DeliveredToLatest(w); }
      assert v.posted[n] == w.posted[n] && n !in v.delivered;
      StaleNeverDelivered(v, actions[1..], n);
    }
  }

  // ---------------------------------------------------------------- what ends deliveries

  /** While a message is being drained, a drainer can always go on. */
  lemma DrainerGoesOn(w: World)
    requires Inv(w)
    ensures w.b.draining <==> Enabled(w, DrainRound) || Enabled(w, Dispatched)
  {
  }

  lemma {:induction false} GoneStays(w: World, actions: seq<Action>, k: Key)
    requires Inv(w) && Runs(w, actions) && k !in w.b.runtimes
    requires forall a <- actions :: a.Register? ==> a.w.key != k
    ensures var v := After(w, actions);
      && k !in v.b.runtimes && w.handed <= v.handed
      && forall i :: |w.handed| <= i < |v.handed| ==> v.handed[i].target.key != k
    decreases |actions|
  {
    hide Inv, Do, Enabled;
    if actions != [] {
      StepInv(w, actions[0]);
      GoneStep(w, actions[0], k);
      GoneStays(Do(w, actions[0]), actions[1..], k);
    }
  }

  lemma GoneStep(w: World, a: Action, k: Key)
    requires Inv(w) && Enabled(w, a) && k !in w.b.runtimes && (a.Register? ==> a.w.key != k)
    ensures k !in Do(w, a).b.runtimes
    ensures var v := Do(w, a); v.handed == w.handed || exists d :: v.handed == w.handed + [d] && d.target.key != k
  {
    hide Ordered, Permitted;
    if a.DrainRound? && Outcome(w.b).Some? {
      assert Do(w, a).handed == w.handed + [Outcome(w.b).value];
    }
  }

  /** After its runtime is taken off, a window gets nothing until it is registered again. */
  lemma UnregisteredGetsNothing(w: World, k: Key, actions: seq<Action>)
    requires Inv(w) && Runs(w, [Unregister(k)] + actions)
    requires forall a <- actions :: a.Register? ==> a.w.key != k
    ensures var v := After(w, [Unregister(k)] + actions);
      && w.handed <= v.handed && forall i :: |w.handed| <= i < |v.handed| ==> v.handed[i].target.key != k
  {
    assert ([Unregister(k)] + actions)[1..] == actions;
    StepInv(w, Unregister(k));
    GoneStays(Do(w, Unregister(k)), actions, k);
  }

  lemma {:induction false} ClosedStays(w: World, actions: seq<Action>)
    requires Inv(w) && Runs(w, actions) && w.b.closed
    ensures var v := After(w, actions); v.b.closed && v.posted == w.posted && v.handed == w.handed
    decreases |actions|
  {
    if actions != [] {
      StepInv(w, actions[0]);
      ClosedStays(Do(w, actions[0]), actions[1..]);
    }
  }

  /** After it is closed, the broker takes nothing in and hands nothing over, whatever happens. */
  lemma CloseEnds(w: World, actions: seq<Action>)
    requires Inv(w) && Runs(w, [Close] + actions)
    ensures var v := After(w, [Close] + actions); v.b.closed && v.posted == w.posted && v.handed == w.handed
  {
    assert ([Close] + actions)[1..] == actions;
    StepInv(w, Close);
    ClosedStays(Do(w, Close), actions);
  }
}
