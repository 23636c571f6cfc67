/**
  Subscriber channels of a stream: subscribe, unsubscribe, broadcast and shutdown
  (backend/internal/api/log_stream_hub.go, logStream; backend/internal/api/app_stream_pool.go,
  appStream).

  Each of these holds the stream's mutex, so each is one step.  A Go channel panics when it is
  closed twice or sent to after closing; `panicked` records that.  Subscriber ids are clock
  readings in the source and nothing here assumes that they are distinct: a second subscriber
  with an id already in use takes over its map entry.
 */
module Fanout {
  import opened Subsequences

  // `offered` is everything a broadcast tried to send while the channel was registered.
  datatype Chan<T> = Chan(queue: seq<T>, received: seq<T>, dropped: nat, offered: seq<T>, closed: bool)

  datatype State<T> = State(subscribers: map<string, nat>, chans: seq<Chan<T>>, panicked: bool)

  datatype Event<T> =
    | Subscribe(id: string)
    | Unsubscribe(id: string)
    | Broadcast(item: T)
    | Receive(c: nat)
    | Shutdown

  function Fresh<T>(): Chan<T> {
    Chan([], [], 0, [], false)
  }

  // select with default: the item is queued if there is room and counted as dropped otherwise.
  function Offer<T>(cap: nat, ch: Chan<T>, item: T): Chan<T> {
    var tried := ch.(offered := ch.offered + [item]);
    if |ch.queue| < cap then tried.(queue := ch.queue + [item]) else tried.(dropped := ch.dropped + 1)
  }

  function Pop<T>(ch: Chan<T>): Chan<T>
    requires ch.queue != []
  {
    ch.(queue := ch.queue[1..], received := ch.received + [ch.queue[0]])
  }

  // The channels `which` after one of them, all of them or none of them changed.
  function OfferTo<T>(cap: nat, chans: seq<Chan<T>>, which: set<nat>, item: T): seq<Chan<T>> {
    seq(|chans|, c requires 0 <= c < |chans| => if c in which then Offer(cap, chans[c], item) else chans[c])
  }

  function Close<T>(chans: seq<Chan<T>>, which: set<nat>): seq<Chan<T>> {
    seq(|chans|, c requires 0 <= c < |chans| => if c in which then chans[c].(closed := true) else chans[c])
  }

  predicate AnyClosed<T>(chans: seq<Chan<T>>, which: set<nat>) {
    exists c :: 0 <= c < |chans| && c in which && chans[c].closed
  }

  function Doomed<T>(s: State<T>, e: Event<T>): set<nat> {
    match e
    case Unsubscribe(id) => if id in s.subscribers then {s.subscribers[id]} else {}
    case Shutdown => s.subscribers.Values
    case _ => {}
  }

  function Apply<T>(cap: nat, s: State<T>, e: Event<T>): State<T> {
    match e
    case Subscribe(id) => s.(subscribers := s.subscribers[id := |s.chans|], chans := s.chans + [Fresh()])
    case Unsubscribe(id) =>
      State(s.subscribers - {id}, Close(s.chans, Doomed(s, e)), s.panicked || AnyClosed(s.chans, Doomed(s, e)))
    case Broadcast(item) =>
      var live := s.subscribers.Values;
      s.(chans := OfferTo(cap, s.chans, live, item), panicked := s.panicked || AnyClosed(s.chans, live))
    case Receive(c) =>
      if c < |s.chans| && s.chans[c].queue != [] then s.(chans := s.chans[c := Pop(s.chans[c])]) else s
    case Shutdown =>
      State(map[], Close(s.chans, Doomed(s, e)), s.panicked || AnyClosed(s.chans, Doomed(s, e)))
  }

  function Init<T>(): State<T> {
    State(map[], [], false)
  }

  function Exec<T>(cap: nat, es: seq<Event<T>>): State<T> {
    if es == [] then Init() else Apply(cap, Exec(cap, es[..|es| - 1]), es[|es| - 1])
  }

  lemma ExecSnoc<T>(cap: nat, es: seq<Event<T>>, e: Event<T>)
    ensures Exec(cap, es + [e]) == Apply(cap, Exec(cap, es), e)
  {
    assert (es + [e])[..|es|] == es;
  }

  // ---- What every channel and the registry keep ----

  ghost predicate Conserved<T>(cap: nat, ch: Chan<T>) {
    && |ch.queue| <= cap
    && |ch.offered| == |ch.received| + |ch.queue| + ch.dropped
    && Sub(ch.received + ch.queue, ch.offered)
  }

  ghost predicate Registry<T>(s: State<T>) {
    && !s.panicked
    && (forall id :: id in s.subscribers ==> s.subscribers[id] < |s.chans| && !s.chans[s.subscribers[id]].closed)
    && (forall id, id' :: id in s.subscribers && id' in s.subscribers && id != id' ==>
          s.subscribers[id] != s.subscribers[id'])
  }

  ghost predicate Inv<T>(cap: nat, s: State<T>) {
    Registry(s) && forall c :: 0 <= c < |s.chans| ==> Conserved(cap, s.chans[c])
  }

  lemma OfferConserves<T>(cap: nat, ch: Chan<T>, item: T)
    requires Conserved(cap, ch)
    ensures Conserved(cap, Offer(cap, ch, item))
  {
    if |ch.queue| < cap {
      SubKeep(ch.received + ch.queue, ch.offered, item);
      assert ch.received + (ch.queue + [item]) == (ch.received + ch.queue) + [item];
    } else {
      SubSkip(ch.received + ch.queue, ch.offered, item);
    }
  }

  lemma PopConserves<T>(cap: nat, ch: Chan<T>)
    requires Conserved(cap, ch) && ch.queue != []
    ensures Conserved(cap, Pop(ch))
  {
    assert (ch.received + [ch.queue[0]]) + ch.queue[1..] == ch.received + ch.queue;
  }

  lemma ChannelsStayConserved<T>(cap: nat, s: State<T>, e: Event<T>, c: nat)
    requires Inv(cap, s) && c < |Apply(cap, s, e).chans|
    ensures Conserved(cap, Apply(cap, s, e).chans[c])
  {
    if c < |s.chans| {
      assert Conserved(cap, s.chans[c]);
      if e.Broadcast? {
        OfferConserves(cap, s.chans[c], e.item);
      } else if e.Receive? && s.chans[c].queue != [] {
        PopConserves(cap, s.chans[c]);
      }
    }
  }

  // A step that registers nobody, and closes only channels that it takes off the registry.
  lemma RegistryShrinks<T>(s: State<T>, t: State<T>)
    requires Registry(s) && !t.panicked && |t.chans| == |s.chans|
    requires forall id :: id in t.subscribers ==> id in s.subscribers && t.subscribers[id] == s.subscribers[id]
    requires forall id :: id in t.subscribers ==>
               var c := t.subscribers[id]; c < |t.chans| && t.chans[c].closed == s.chans[c].closed
    ensures Registry(t)
  {
  }

  lemma NoPanic<T>(s: State<T>)
    requires Registry(s)
    ensures !AnyClosed(s.chans, s.subscribers.Values)
    ensures forall id :: id in s.subscribers ==> !AnyClosed(s.chans, {s.subscribers[id]})
  {
  }

  lemma RegistryStaysSound<T>(cap: nat, s: State<T>, e: Event<T>)
    requires Inv(cap, s)
    ensures Registry(Apply(cap, s, e))
  {
    if e.Subscribe? {
      SubscribeRegisters(s, Apply(cap, s, e), e.id);
    } else {
      NoPanic(s);
      RegistryShrinks(s, Apply(cap, s, e));
    }
  }

  lemma SubscribeRegisters<T>(s: State<T>, t: State<T>, id: string)
    requires Registry(s) && t == s.(subscribers := s.subscribers[id := |s.chans|], chans := s.chans + [Fresh()])
    ensures Registry(t)
  {
  }

  lemma {:induction false} StepKeepsInv<T>(cap: nat, s: State<T>, e: Event<T>)
    requires Inv(cap, s)
    ensures Inv(cap, Apply(cap, s, e))
  {
    RegistryStaysSound(cap, s, e);
    forall c | 0 <= c < |Apply(cap, s, e).chans| ensures Conserved(cap, Apply(cap, s, e).chans[c]) {
      ChannelsStayConserved(cap, s, e, c);
    }
  }

  // Main result: over every run nothing is closed twice or sent after closing, no queue exceeds
  // its capacity, and every offered item was received, is queued or was counted as dropped.
  lemma {:induction false} RunsAreSafe<T>(cap: nat, es: seq<Event<T>>)
    ensures Inv(cap, Exec(cap, es))
  {
    if es != [] {
      RunsAreSafe(cap, es[..|es| - 1]);
      StepKeepsInv(cap, Exec(cap, es[..|es| - 1]), es[|es| - 1]);
    }
  }

  // A channel that counted no drop delivers exactly what it was offered.
  lemma NoDropMeansEverything<T>(cap: nat, ch: Chan<T>)
    requires Conserved(cap, ch)
    ensures ch.dropped == 0 <==> ch.received + ch.queue == ch.offered
  {
    SubLength(ch.received + ch.queue, ch.offered);
  }

  // Once a channel is closed, no later event offers it anything or changes its drop count.
  lemma ClosedIsFinal<T>(cap: nat, s: State<T>, e: Event<T>, c: nat)
    requires Inv(cap, s) && c < |s.chans| && s.chans[c].closed
    ensures c < |Apply(cap, s, e).chans|
    ensures var ch := Apply(cap, s, e).chans[c];
            ch.closed && ch.offered == s.chans[c].offered && ch.dropped == s.chans[c].dropped
  {
    assert c !in s.subscribers.Values;
  }

  // ---- What each step does to a channel, and what a run leaves in it ----

  // Registered under some id.
  predicate Live<T>(s: State<T>, c: nat) {
    c in s.subscribers.Values
  }

  // A broadcast queues the item in every registered channel with room, counts a drop for every other
  // registered channel, and leaves the rest alone.
  lemma BroadcastReaches<T>(cap: nat, s: State<T>, item: T, c: nat)
    requires Inv(cap, s) && c < |s.chans|
    ensures var t := Apply(cap, s, Broadcast(item));
            && |t.chans| == |s.chans| && t.subscribers == s.subscribers
            && (!Live(s, c) ==> t.chans[c] == s.chans[c])
            && (Live(s, c) && |s.chans[c].queue| < cap ==>
                  t.chans[c].queue == s.chans[c].queue + [item] && t.chans[c].dropped == s.chans[c].dropped)
            && (Live(s, c) && |s.chans[c].queue| == cap ==>
                  t.chans[c].queue == s.chans[c].queue && t.chans[c].dropped == s.chans[c].dropped + 1)
            && t.chans[c].received == s.chans[c].received && t.chans[c].closed == s.chans[c].closed
  {
  }

  // A new subscriber gets a channel of its own that is empty and open.
  lemma SubscribeOpens<T>(cap: nat, s: State<T>, id: string)
    ensures var t := Apply(cap, s, Subscribe(id));
            && t.subscribers == s.subscribers[id := |s.chans|] && |t.chans| == |s.chans| + 1
            && (forall c :: 0 <= c < |s.chans| ==> t.chans[c] == s.chans[c])
            && t.chans[|s.chans|].queue == [] == t.chans[|s.chans|].received && !t.chans[|s.chans|].closed
  {
  }

  // Unsubscribing closes the channel of the id, if it has one, and no other; shutting down closes
  // every registered channel.  Neither takes anything out of a queue.
  lemma LeavingCloses<T>(cap: nat, s: State<T>, e: Event<T>, c: nat)
    requires (e.Unsubscribe? || e.Shutdown?) && c < |s.chans|
    ensures var t := Apply(cap, s, e);
            && t.subscribers == (if e.Shutdown? then map[] else s.subscribers - {e.id}) && |t.chans| == |s.chans|
            && t.chans[c].queue == s.chans[c].queue && t.chans[c].received == s.chans[c].received
            && (t.chans[c].closed <==>
                  s.chans[c].closed
                  || (if e.Shutdown? then Live(s, c) else e.id in s.subscribers && s.subscribers[e.id] == c))
  {
  }

  // A receive takes the oldest queued item of that channel and of no other.
  lemma ReceiveTakesOldest<T>(cap: nat, s: State<T>, c: nat, d: nat)
    requires c < |s.chans| && d < |s.chans|
    ensures var t := Apply(cap, s, Receive(c));
            && t.subscribers == s.subscribers && |t.chans| == |s.chans|
            && (d != c || s.chans[c].queue == [] ==> t.chans[d] == s.chans[d])
            && (d == c && s.chans[c].queue != [] ==>
                  t.chans[c].received + t.chans[c].queue == s.chans[c].received + s.chans[c].queue
                  && |t.chans[c].received| == |s.chans[c].received| + 1
                  && t.chans[c].dropped == s.chans[c].dropped && t.chans[c].closed == s.chans[c].closed)
  {
    if c == d && s.chans[c].queue != [] {
      assert s.chans[c].queue == [s.chans[c].queue[0]] + s.chans[c].queue[1..];
    }
  }

  // The items broadcast while the channel was registered: all of them, and those that found room.
  ghost function Sent<T>(cap: nat, es: seq<Event<T>>, c: nat): seq<T> {
    if es == [] then []
    else
      var n := |es| - 1;
      Sent(cap, es[..n], c) + if es[n].Broadcast? && Live(Exec(cap, es[..n]), c) then [es[n].item] else []
  }

  ghost predicate HasRoom<T>(cap: nat, s: State<T>, c: nat) {
    c < |s.chans| && |s.chans[c].queue| < cap
  }

  ghost function Fitting<T>(cap: nat, es: seq<Event<T>>, c: nat): seq<T> {
    if es == [] then []
    else
      var n := |es| - 1;
      var s := Exec(cap, es[..n]);
      Fitting(cap, es[..n], c) + if es[n].Broadcast? && Live(s, c) && HasRoom(cap, s, c) then [es[n].item] else []
  }

  // How many of those broadcasts found the queue at its capacity.
  ghost function Overflows<T>(cap: nat, es: seq<Event<T>>, c: nat): nat {
    if es == [] then 0
    else
      var n := |es| - 1;
      var s := Exec(cap, es[..n]);
      Overflows(cap, es[..n], c) + if es[n].Broadcast? && Live(s, c) && !HasRoom(cap, s, c) then 1 else 0
  }

  lemma ChannelStep<T>(cap: nat, s: State<T>, e: Event<T>, c: nat)
    requires Inv(cap, s) && c < |s.chans|
    ensures var t, hit := Apply(cap, s, e), e.Broadcast? && Live(s, c);
            && c < |t.chans|
            && t.chans[c].offered == s.chans[c].offered + (if hit then [e.item] else [])
            && t.chans[c].received + t.chans[c].queue ==
                 s.chans[c].received + s.chans[c].queue + (if hit && HasRoom(cap, s, c) then [e.item] else [])
            && t.chans[c].dropped == s.chans[c].dropped + (if hit && !HasRoom(cap, s, c) then 1 else 0)
  {
    var x := s.chans[c].received + s.chans[c].queue;
    assert x + [] == x && s.chans[c].offered + [] == s.chans[c].offered;
    match e {
      case Broadcast(item) =>
        assert Conserved(cap, s.chans[c]);
        BroadcastReaches(cap, s, item, c);
        assert s.chans[c].received + (s.chans[c].queue + [item]) == x + [item];
      case Receive(d) =>
        if d < |s.chans| {
          ReceiveTakesOldest(cap, s, d, c);
        }
      case Subscribe(id) => SubscribeOpens(cap, s, id);
      case _ => LeavingCloses(cap, s, e, c);
    }
  }

  lemma {:induction false} NotYetThere<T>(cap: nat, es: seq<Event<T>>, c: nat)
    requires c >= |Exec(cap, es).chans|
    ensures Sent(cap, es, c) == [] && Fitting(cap, es, c) == [] && Overflows(cap, es, c) == 0
  {
    if es != [] {
      var n := |es| - 1;
      RunsAreSafe(cap, es[..n]);
      ChannelsStay(cap, Exec(cap, es[..n]), es[n]);
      NotYetThere(cap, es[..n], c);
    }
  }

  lemma ChannelsStay<T>(cap: nat, s: State<T>, e: Event<T>)
    ensures |Apply(cap, s, e).chans| == |s.chans| + if e.Subscribe? then 1 else 0
    ensures e.Subscribe? ==> Apply(cap, s, e).chans[|s.chans|] == Chan([], [], 0, [], false)
  {
  }

  // Main result: in every run, a channel was offered exactly the items broadcast while it was
  // registered; those that found room were received or are queued, in order; and the drop count is
  // the number of those that found the queue at its capacity.
  lemma {:induction false} ChannelHistory<T>(cap: nat, es: seq<Event<T>>, c: nat)
    requires c < |Exec(cap, es).chans|
    ensures var ch := Exec(cap, es).chans[c];
            && ch.offered == Sent(cap, es, c)
            && ch.received + ch.queue == Fitting(cap, es, c)
            && ch.dropped == Overflows(cap, es, c)
  {
    var n := |es| - 1;
    var s, e := Exec(cap, es[..n]), es[n];
    RunsAreSafe(cap, es[..n]);
    ChannelsStay(cap, s, e);
    if c < |s.chans| {
      ChannelHistory(cap, es[..n], c);
      ChannelStep(cap, s, e, c);
    } else {
      NotYetThere(cap, es[..n], c);
      assert !Live(s, c);
    }
  }

  // ---- The methods of the two stream types ----

  class Stream<T> {
    const cap: nat
    var state: State<T>

    ghost predicate Valid()
      reads this
    {
      Inv(cap, state)
    }

    constructor (cap: nat)
      ensures Valid() && this.cap == cap && state == Init()
    {
      this.cap := cap;
      state := Init();
    }

    method Subscribe(id: string) returns (c: nat)
      requires Valid()
      modifies this
      ensures Valid() && state == Apply(cap, old(state), Event.Subscribe(id))
      ensures c < |state.chans| && id in state.subscribers && state.subscribers[id] == c
    {
      StepKeepsInv(cap, state, Event.Subscribe(id));
      c := |state.chans|;
      state := state.(subscribers := state.subscribers[id := c], chans := state.chans + [Fresh()]);
    }

    method Unsubscribe(id: string)
      requires Valid()
      modifies this
      ensures Valid() && state == Apply(cap, old(state), Event.Unsubscribe(id))
    {
      StepKeepsInv(cap, state, Event.Unsubscribe(id));
      ghost var after := Apply(cap, state, Event.Unsubscribe(id));
      if id in state.subscribers {
        var c := state.subscribers[id];
        var chans := state.chans[c := state.chans[c].(closed := true)];
        assert chans == after.chans;
        state := state.(subscribers := state.subscribers - {id}, chans := chans);
      } else {
        assert state.subscribers - {id} == state.subscribers;
        assert after.chans == state.chans;
      }
    }

    // The map is visited in an arbitrary order, as Go does.
    method Broadcast(item: T)
      requires Valid()
      modifies this
      ensures Valid() && state == Apply(cap, old(state), Event.Broadcast(item))
    {
      StepKeepsInv(cap, state, Event.Broadcast(item));
      var chans := state.chans;
      var todo := state.subscribers.Keys;
      ghost var done := {};
      assert chans == OfferTo(cap, state.chans, done, item);
      while todo != {}
        invariant todo <= state.subscribers.Keys && state == old(state) && Valid()
        invariant done == Targets(state.subscribers, state.subscribers.Keys - todo)
        invariant chans == OfferTo(cap, state.chans, done, item)
      {
        var id :| id in todo;
        VisitNext(state, todo, id);
        var c := state.subscribers[id];
        OfferOneMore(cap, state.chans, done, c, item);
        chans := chans[c := Offer(cap, chans[c], item)];
        done := done + {c};
        todo := todo - {id};
      }
      AllVisited(state);
      state := state.(chans := chans);
    }

    method Shutdown()
      requires Valid()
      modifies this
      ensures Valid() && state == Apply(cap, old(state), Event.Shutdown)
    {
      StepKeepsInv(cap, state, Event.Shutdown);
      var chans := state.chans;
      var todo := state.subscribers.Keys;
      ghost var done := {};
      assert chans == Close(state.chans, done);
      while todo != {}
        invariant todo <= state.subscribers.Keys && state == old(state) && Valid()
        invariant done == Targets(state.subscribers, state.subscribers.Keys - todo)
        invariant chans == Close(state.chans, done)
      {
        var id :| id in todo;
        VisitNext(state, todo, id);
        var c := state.subscribers[id];
        CloseOneMore(state.chans, done, c);
        chans := chans[c := chans[c].(closed := true)];
        done := done + {c};
        todo := todo - {id};
      }
      AllVisited(state);
      state := State(map[], chans, state.panicked);
    }
  }

  // ---- Visiting the subscriber map entry by entry ----

  ghost function Targets(subscribers: map<string, nat>, ids: set<string>): set<nat> {
    set id | id in ids && id in subscribers :: subscribers[id]
  }

  lemma VisitNext<T>(s: State<T>, todo: set<string>, id: string)
    requires Registry(s) && todo <= s.subscribers.Keys && id in todo
    ensures var done := Targets(s.subscribers, s.subscribers.Keys - todo);
            && s.subscribers[id] < |s.chans| && s.subscribers[id] !in done
            && Targets(s.subscribers, s.subscribers.Keys - (todo - {id})) == done + {s.subscribers[id]}
  {
    assert s.subscribers.Keys - (todo - {id}) == (s.subscribers.Keys - todo) + {id};
  }

  lemma AllVisited<T>(s: State<T>)
    requires Registry(s)
    ensures Targets(s.subscribers, s.subscribers.Keys - {}) == s.subscribers.Values
    ensures !AnyClosed(s.chans, s.subscribers.Values)
  {
    assert s.subscribers.Keys - {} == s.subscribers.Keys;
  }

  lemma OfferOneMore<T>(cap: nat, chans: seq<Chan<T>>, done: set<nat>, c: nat, item: T)
    requires c < |chans| && c !in done
    ensures var some := OfferTo(cap, chans, done, item);
            OfferTo(cap, chans, done + {c}, item) == some[c := Offer(cap, some[c], item)]
  {
  }

  lemma CloseOneMore<T>(chans: seq<Chan<T>>, done: set<nat>, c: nat)
    requires c < |chans|
    ensures var some := Close(chans, done);
            Close(chans, done + {c}) == some[c := some[c].(closed := true)]
  {
  }
}
