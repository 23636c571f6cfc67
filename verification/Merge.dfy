/**
  Merging the consumers of an app's pods into one stream
  (backend/internal/api/app_stream_pool.go: consumePodStream, run, broadcastEvent).

  Every consumer first emits its replay and then what it receives from its channel of the pod's
  stream into one bounded queue, which drops silently when it is full.  The app stream's goroutine
  forwards the queue to the subscriber channels, between heartbeats, statistics and markers.
 */
module Merge {
  import opened LogEntries
  import opened Subsequences
  import opened Wrappers
  import F = Fanout

  const LOG_BUFFER: nat := 512
  const SUBSCRIBER_BUFFER: nat := 256

  // `source` says which consumer emitted the entry; a consumer is one run of consumePodStream.
  datatype Item = FromPod(source: nat, entry: LogEntry) | Notice(text: string)

  // `pod` is the consumer's channel of the pod's stream, with room for `cap` entries; `out` is
  // everything the consumer tried to put on the shared queue.
  datatype Consumer = Consumer(replay: seq<LogEntry>, cap: nat, pod: F.Chan<LogEntry>, out: seq<LogEntry>)

  // `forwarded` is everything the goroutine broadcast so far.
  datatype State = State(consumers: seq<Consumer>, logCh: seq<Item>, forwarded: seq<Item>, fan: F.State<Item>)

  datatype Event =
    | Spawn(replay: seq<LogEntry>, cap: nat)
    | PodOffers(c: nat, entry: LogEntry)
    | EmitReplay(c: nat)
    | EmitLive(c: nat)
    | Forward
    | Announce(text: string)
    | Subscribe(id: string)
    | Unsubscribe(id: string)
    | Receive(ch: nat)
    | Shutdown

  // The non-blocking send of the consumers.
  function Enqueue(logCh: seq<Item>, item: Item): seq<Item> {
    if |logCh| < LOG_BUFFER then logCh + [item] else logCh
  }

  function SetPod(s: State, c: nat, pod: F.Chan<LogEntry>): State
    requires c < |s.consumers|
  {
    s.(consumers := s.consumers[c := s.consumers[c].(pod := pod)])
  }

  // The consumer emits an entry, which leaves its channel as `pod`.
  function Emit(s: State, c: nat, entry: LogEntry, pod: F.Chan<LogEntry>): State
    requires c < |s.consumers|
  {
    var k := s.consumers[c];
    s.(consumers := s.consumers[c := k.(out := k.out + [entry], pod := pod)],
       logCh := Enqueue(s.logCh, FromPod(c, entry)))
  }

  function FanStep(s: State, e: F.Event<Item>): State {
    s.(fan := F.Apply(SUBSCRIBER_BUFFER, s.fan, e))
  }

  function BroadcastItem(s: State, item: Item): State {
    FanStep(s, F.Broadcast(item)).(forwarded := s.forwarded + [item])
  }

  predicate Enabled(s: State, e: Event) {
    match e
    case PodOffers(c, _) => c < |s.consumers|
    case EmitReplay(c) => c < |s.consumers| && |s.consumers[c].out| < |s.consumers[c].replay|
    case EmitLive(c) =>
      c < |s.consumers| && |s.consumers[c].out| >= |s.consumers[c].replay| && s.consumers[c].pod.queue != []
    case Forward => s.logCh != []
    case _ => true
  }

  // An event that cannot happen now changes nothing.
  function Apply(s: State, e: Event): State {
    if !Enabled(s, e) then s else
    match e
    case Spawn(replay, cap) => s.(consumers := s.consumers + [Consumer(replay, cap, F.Fresh(), [])])
    case PodOffers(c, entry) => SetPod(s, c, F.Offer(s.consumers[c].cap, s.consumers[c].pod, entry))
    case EmitReplay(c) => Emit(s, c, s.consumers[c].replay[|s.consumers[c].out|], s.consumers[c].pod)
    case EmitLive(c) => Emit(s, c, s.consumers[c].pod.queue[0], F.Pop(s.consumers[c].pod))
    case Forward => BroadcastItem(s.(logCh := s.logCh[1..]), s.logCh[0])
    case Announce(text) => BroadcastItem(s, Notice(text))
    case Subscribe(id) => FanStep(s, F.Subscribe(id))
    case Unsubscribe(id) => FanStep(s, F.Unsubscribe(id))
    case Receive(ch) => FanStep(s, F.Receive(ch))
    case Shutdown => FanStep(s, F.Shutdown)
  }

  const INIT: State := State([], [], [], F.Init())

  function Exec(es: seq<Event>): State {
    if es == [] then INIT else Apply(Exec(es[..|es| - 1]), es[|es| - 1])
  }

  // ---- What one consumer contributed ----

  function EntriesOf(items: seq<Item>, c: nat): seq<LogEntry> {
    if items == [] then []
    else EntriesOf(items[..|items| - 1], c) + Contribution(items[|items| - 1], c)
  }

  function Contribution(item: Item, c: nat): seq<LogEntry> {
    if item.FromPod? && item.source == c then [item.entry] else []
  }

  lemma EntriesSnoc(items: seq<Item>, item: Item, c: nat)
    ensures EntriesOf(items + [item], c) == EntriesOf(items, c) + Contribution(item, c)
  {
    assert (items + [item])[..|items|] == items;
  }

  lemma {:induction false} EntriesAppend(a: seq<Item>, b: seq<Item>, c: nat)
    ensures EntriesOf(a + b, c) == EntriesOf(a, c) + EntriesOf(b, c)
    decreases |b|
  {
    if b == [] {
      assert a + b == a;
    } else {
      var n := |b| - 1;
      assert a + b == (a + b[..n]) + [b[n]];
      EntriesSnoc(a + b[..n], b[n], c);
      EntriesAppend(a, b[..n], c);
      Assoc(EntriesOf(a, c), EntriesOf(b[..n], c), Contribution(b[n], c));
    }
  }

  lemma EntriesHead(items: seq<Item>, c: nat)
    requires items != []
    ensures EntriesOf(items, c) == Contribution(items[0], c) + EntriesOf(items[1..], c)
  {
    var x, rest := items[0], items[1..];
    EntriesAppend([x], rest, c);
    assert [x] + rest == items && [x][..0] == [];
    assert EntriesOf([x], c) == [] + Contribution(x, c) == Contribution(x, c);
  }

  lemma {:induction false} EntriesSub(a: seq<Item>, b: seq<Item>, c: nat)
    requires Sub(a, b)
    ensures Sub(EntriesOf(a, c), EntriesOf(b, c))
    decreases |b|
  {
    if a != [] {
      var x := b[|b| - 1];
      assert EntriesOf(b, c) == EntriesOf(Front(b), c) + Contribution(x, c);
      SubRefl(Contribution(x, c));
      if Sub(a, Front(b)) {
        EntriesSub(a, Front(b), c);
        SubConcat(EntriesOf(a, c), EntriesOf(Front(b), c), [], Contribution(x, c));
        assert EntriesOf(a, c) + [] == EntriesOf(a, c);
      } else {
        EntriesSub(Front(a), Front(b), c);
        SubConcat(EntriesOf(Front(a), c), EntriesOf(Front(b), c), Contribution(x, c), Contribution(x, c));
      }
    }
  }

  lemma {:induction false} NothingFromOthers(items: seq<Item>, c: nat)
    requires Sourced(items, c)
    ensures EntriesOf(items, c) == []
  {
    if items != [] {
      NothingFromOthers(items[..|items| - 1], c);
    }
  }

  // ---- What every run keeps ----

  ghost predicate Sourced(items: seq<Item>, n: nat) {
    forall k :: 0 <= k < |items| && items[k].FromPod? ==> items[k].source < n
  }

  // What consumer `c` got through the queue, or has in it, is in the order in which it emitted it.
  ghost predicate InOrder(s: State, c: nat)
    requires c < |s.consumers|
  {
    Sub(EntriesOf(s.forwarded, c) + EntriesOf(s.logCh, c), s.consumers[c].out)
  }

  // The consumer emits its replay, then what it received from the pod's stream, and nothing else.
  ghost predicate ReplayFirst(k: Consumer) {
    F.Conserved(k.cap, k.pod) &&
    if k.pod.received == [] then k.out <= k.replay else k.out == k.replay + k.pod.received
  }

  ghost predicate Inv(s: State) {
    && |s.logCh| <= LOG_BUFFER
    && F.Inv(SUBSCRIBER_BUFFER, s.fan)
    && Sourced(s.forwarded, |s.consumers|) && Sourced(s.logCh, |s.consumers|)
    && (forall c :: 0 <= c < |s.consumers| ==> InOrder(s, c) && ReplayFirst(s.consumers[c]))
    && (forall ch :: 0 <= ch < |s.fan.chans| ==> Sub(s.fan.chans[ch].offered, s.forwarded))
  }

  // Emitting one more entry, whether or not the queue has room for it.
  lemma EmitKeepsOrder(s: State, c: nat, entry: LogEntry, pod: F.Chan<LogEntry>, d: nat)
    requires Inv(s) && c < |s.consumers| && d < |s.consumers|
    ensures InOrder(Emit(s, c, entry, pod), d)
  {
    assert InOrder(s, d);
    var f, q, out := EntriesOf(s.forwarded, d), EntriesOf(s.logCh, d), s.consumers[d].out;
    EntriesSnoc(s.logCh, FromPod(c, entry), d);
    if c != d {
      assert q + [] == q;
    } else if |s.logCh| < LOG_BUFFER {
      SubKeep(f + q, out, entry);
      Assoc(f, q, [entry]);
    } else {
      SubSkip(f + q, out, entry);
    }
  }

  lemma EmitKeepsInv(s: State, c: nat, entry: LogEntry, pod: F.Chan<LogEntry>)
    requires Inv(s) && c < |s.consumers| && ReplayFirst(Emit(s, c, entry, pod).consumers[c])
    ensures Inv(Emit(s, c, entry, pod))
  {
    var t := Emit(s, c, entry, pod);
    forall d | 0 <= d < |t.consumers| ensures InOrder(t, d) && ReplayFirst(t.consumers[d]) {
      EmitKeepsOrder(s, c, entry, pod, d);
      assert ReplayFirst(s.consumers[d]);
    }
  }

  lemma EmitReplayKeepsFirst(k: Consumer)
    requires ReplayFirst(k) && |k.out| < |k.replay|
    ensures ReplayFirst(k.(out := k.out + [k.replay[|k.out|]]))
  {
    assert k.out + [k.replay[|k.out|]] == k.replay[..|k.out| + 1];
  }

  lemma EmitLiveKeepsFirst(k: Consumer)
    requires ReplayFirst(k) && |k.out| >= |k.replay| && k.pod.queue != []
    ensures ReplayFirst(k.(out := k.out + [k.pod.queue[0]], pod := F.Pop(k.pod)))
  {
    F.PopConserves(k.cap, k.pod);
    assert k.out == k.replay + k.pod.received;
    Assoc(k.replay, k.pod.received, [k.pod.queue[0]]);
  }

  lemma PodOffersKeepsInv(s: State, c: nat, entry: LogEntry)
    requires Inv(s) && c < |s.consumers|
    ensures Inv(Apply(s, PodOffers(c, entry)))
  {
    var t := Apply(s, PodOffers(c, entry));
    F.OfferConserves(s.consumers[c].cap, s.consumers[c].pod, entry);
    forall d | 0 <= d < |t.consumers| ensures InOrder(t, d) && ReplayFirst(t.consumers[d]) {
      assert InOrder(s, d) && ReplayFirst(s.consumers[d]);
    }
  }

  lemma SpawnKeepsInv(s: State, replay: seq<LogEntry>, cap: nat)
    requires Inv(s)
    ensures Inv(Apply(s, Spawn(replay, cap)))
  {
    var t := Apply(s, Spawn(replay, cap));
    forall d | 0 <= d < |t.consumers| ensures InOrder(t, d) && ReplayFirst(t.consumers[d]) {
      if d < |s.consumers| {
        assert InOrder(s, d) && ReplayFirst(s.consumers[d]);
      } else {
        NothingFromOthers(s.forwarded, d);
        NothingFromOthers(s.logCh, d);
      }
    }
  }

  lemma OffersStayForwarded(s: State, item: Item, ch: nat)
    requires Inv(s) && ch < |s.fan.chans|
    ensures ch < |BroadcastItem(s, item).fan.chans|
    ensures Sub(BroadcastItem(s, item).fan.chans[ch].offered, s.forwarded + [item])
  {
    var offered := s.fan.chans[ch].offered;
    assert Sub(offered, s.forwarded);
    SubKeep(offered, s.forwarded, item);
    SubSkip(offered, s.forwarded, item);
  }

  // Moving the head of the queue to what was forwarded leaves the order alone.
  lemma MoveKeepsEntries(forwarded: seq<Item>, logCh: seq<Item>, d: nat)
    requires logCh != []
    ensures EntriesOf(forwarded + [logCh[0]], d) + EntriesOf(logCh[1..], d) ==
              EntriesOf(forwarded, d) + EntriesOf(logCh, d)
  {
    EntriesSnoc(forwarded, logCh[0], d);
    EntriesHead(logCh, d);
    Assoc(EntriesOf(forwarded, d), Contribution(logCh[0], d), EntriesOf(logCh[1..], d));
  }

  lemma ForwardKeepsOrder(s: State, d: nat)
    requires Inv(s) && s.logCh != [] && d < |s.consumers|
    ensures InOrder(Apply(s, Forward), d)
  {
    assert InOrder(s, d);
    MoveKeepsEntries(s.forwarded, s.logCh, d);
    var t := Apply(s, Forward);
    assert t.consumers == s.consumers && t.forwarded == s.forwarded + [s.logCh[0]] && t.logCh == s.logCh[1..];
  }

  lemma ForwardKeepsInv(s: State)
    requires Inv(s) && s.logCh != []
    ensures Inv(Apply(s, Forward))
  {
    var t := Apply(s, Forward);
    var mid := s.(logCh := s.logCh[1..]);
    F.StepKeepsInv(SUBSCRIBER_BUFFER, s.fan, F.Broadcast(s.logCh[0]));
    forall d | 0 <= d < |t.consumers| ensures InOrder(t, d) && ReplayFirst(t.consumers[d]) {
      ForwardKeepsOrder(s, d);
      assert ReplayFirst(s.consumers[d]);
    }
    forall ch | 0 <= ch < |t.fan.chans| ensures Sub(t.fan.chans[ch].offered, t.forwarded) {
      OffersStayForwarded(s, s.logCh[0], ch);
      assert t.fan == BroadcastItem(s, s.logCh[0]).fan;
    }
  }

  lemma AnnounceKeepsInv(s: State, text: string)
    requires Inv(s)
    ensures Inv(Apply(s, Announce(text)))
  {
    var t := Apply(s, Announce(text));
    F.StepKeepsInv(SUBSCRIBER_BUFFER, s.fan, F.Broadcast(Notice(text)));
    forall d | 0 <= d < |t.consumers| ensures InOrder(t, d) && ReplayFirst(t.consumers[d]) {
      assert InOrder(s, d) && ReplayFirst(s.consumers[d]);
      EntriesSnoc(s.forwarded, Notice(text), d);
      assert EntriesOf(s.forwarded, d) + [] == EntriesOf(s.forwarded, d);
    }
    forall ch | 0 <= ch < |t.fan.chans| ensures Sub(t.fan.chans[ch].offered, t.forwarded) {
      OffersStayForwarded(s, Notice(text), ch);
    }
  }

  lemma FanStepKeepsInv(s: State, e: F.Event<Item>)
    requires Inv(s) && !e.Broadcast?
    ensures Inv(FanStep(s, e))
  {
    var t := FanStep(s, e);
    F.StepKeepsInv(SUBSCRIBER_BUFFER, s.fan, e);
    forall d | 0 <= d < |t.consumers| ensures InOrder(t, d) && ReplayFirst(t.consumers[d]) {
      assert InOrder(s, d) && ReplayFirst(s.consumers[d]);
    }
    forall ch | 0 <= ch < |t.fan.chans| ensures Sub(t.fan.chans[ch].offered, t.forwarded) {
      if ch < |s.fan.chans| {
        assert Sub(s.fan.chans[ch].offered, s.forwarded);
        assert t.fan.chans[ch].offered == s.fan.chans[ch].offered;
      }
    }
  }

  lemma StepKeepsInv(s: State, e: Event)
    requires Inv(s)
    ensures Inv(Apply(s, e))
  {
    if Enabled(s, e) {
      match e {
        case Spawn(replay, cap) => SpawnKeepsInv(s, replay, cap);
        case PodOffers(c, entry) => PodOffersKeepsInv(s, c, entry);
        case EmitReplay(c) =>
          EmitReplayKeepsFirst(s.consumers[c]);
          EmitKeepsInv(s, c, s.consumers[c].replay[|s.consumers[c].out|], s.consumers[c].pod);
        case EmitLive(c) =>
          EmitLiveKeepsFirst(s.consumers[c]);
          EmitKeepsInv(s, c, s.consumers[c].pod.queue[0], F.Pop(s.consumers[c].pod));
        case Forward => ForwardKeepsInv(s);
        case Announce(text) => AnnounceKeepsInv(s, text);
        case Subscribe(id) => FanStepKeepsInv(s, F.Subscribe(id));
        case Unsubscribe(id) => FanStepKeepsInv(s, F.Unsubscribe(id));
        case Receive(ch) => FanStepKeepsInv(s, F.Receive(ch));
        case Shutdown => FanStepKeepsInv(s, F.Shutdown);
      }
    }
  }

  lemma {:induction false} RunsKeepInv(es: seq<Event>)
    ensures Inv(Exec(es))
  {
    if es != [] {
      RunsKeepInv(es[..|es| - 1]);
      StepKeepsInv(Exec(es[..|es| - 1]), es[|es| - 1]);
    }
  }

  // ---- Main results ----

  lemma OrderInState(s: State, ch: nat, c: nat)
    requires Inv(s) && ch < |s.fan.chans| && c < |s.consumers|
    ensures Sub(EntriesOf(s.fan.chans[ch].received + s.fan.chans[ch].queue, c), s.consumers[c].out)
  {
    var chan := s.fan.chans[ch];
    var got := chan.received + chan.queue;
    assert F.Conserved(SUBSCRIBER_BUFFER, chan) && InOrder(s, c);
    SubTransitive(got, chan.offered, s.forwarded);
    EntriesSub(got, s.forwarded, c);
    SubRefl(EntriesOf(s.forwarded, c));
    SubConcat(EntriesOf(s.forwarded, c), EntriesOf(s.forwarded, c), [], EntriesOf(s.logCh, c));
    assert EntriesOf(s.forwarded, c) + [] == EntriesOf(s.forwarded, c);
    SubTransitive(EntriesOf(s.forwarded, c), EntriesOf(s.forwarded, c) + EntriesOf(s.logCh, c), s.consumers[c].out);
    SubTransitive(EntriesOf(got, c), EntriesOf(s.forwarded, c), s.consumers[c].out);
  }

  // In every run, what a subscriber gets from one consumer is an in-order subsequence of what that
  // consumer emitted, which is its replay followed by what it received from the pod's stream so far,
  // whatever either queue dropped.
  lemma MergeKeepsSourceOrder(es: seq<Event>, ch: nat, c: nat)
    requires ch < |Exec(es).fan.chans| && c < |Exec(es).consumers|
    ensures var s := Exec(es); var k := s.consumers[c];
            && Sub(EntriesOf(s.fan.chans[ch].received + s.fan.chans[ch].queue, c), k.out)
            && k.out <= k.replay + k.pod.received
            && (k.pod.received != [] ==> k.out == k.replay + k.pod.received)
  {
    RunsKeepInv(es);
    OrderInState(Exec(es), ch, c);
    assert ReplayFirst(Exec(es).consumers[c]);
  }

  // What a consumer emitted is part of its replay followed by what its channel was offered.
  lemma OutputFromReplayAndPod(k: Consumer)
    requires ReplayFirst(k)
    ensures Sub(k.out, k.replay + k.pod.offered)
  {
    var got := k.pod.received + k.pod.queue;
    PrefixSub(k.pod.received, got);
    SubTransitive(k.pod.received, got, k.pod.offered);
    SubRefl(k.replay);
    SubConcat(k.replay, k.replay, k.pod.received, k.pod.offered);
    PrefixSub(k.out, k.replay + k.pod.received);
    SubTransitive(k.out, k.replay + k.pod.received, k.replay + k.pod.offered);
  }

  // End to end, over all three bounded queues: in every run, what a subscriber received from one
  // consumer is an in-order part of its replay followed by what the pod's stream offered it.
  lemma EndToEndOrder(es: seq<Event>, ch: nat, c: nat)
    requires ch < |Exec(es).fan.chans| && c < |Exec(es).consumers|
    ensures var s := Exec(es);
            Sub(EntriesOf(s.fan.chans[ch].received, c), s.consumers[c].replay + s.consumers[c].pod.offered)
  {
    RunsKeepInv(es);
    EndToEndInState(Exec(es), ch, c);
  }

  lemma EndToEndInState(s: State, ch: nat, c: nat)
    requires Inv(s) && ch < |s.fan.chans| && c < |s.consumers|
    ensures Sub(EntriesOf(s.fan.chans[ch].received, c), s.consumers[c].replay + s.consumers[c].pod.offered)
  {
    OrderInState(s, ch, c);
    var k, chan := s.consumers[c], s.fan.chans[ch];
    assert ReplayFirst(k);
    OutputFromReplayAndPod(k);
    PrefixSub(chan.received, chan.received + chan.queue);
    EntriesSub(chan.received, chan.received + chan.queue, c);
    SubTransitive(EntriesOf(chan.received, c), EntriesOf(chan.received + chan.queue, c), k.out);
    SubTransitive(EntriesOf(chan.received, c), k.out, k.replay + k.pod.offered);
  }

  // ---- Nothing is lost but at a full queue ----

  // What a step emits, and what it does to the subscriber channels.
  function Emitted(s: State, e: Event): Option<Item> {
    if !Enabled(s, e) then None else
    match e
    case EmitReplay(c) => Some(FromPod(c, s.consumers[c].replay[|s.consumers[c].out|]))
    case EmitLive(c) => Some(FromPod(c, s.consumers[c].pod.queue[0]))
    case _ => None
  }

  function FanEvent(s: State, e: Event): Option<F.Event<Item>> {
    match e
    case Forward => if s.logCh == [] then None else Some(F.Broadcast(s.logCh[0]))
    case Announce(text) => Some(F.Broadcast(Notice(text)))
    case Subscribe(id) => Some(F.Subscribe(id))
    case Unsubscribe(id) => Some(F.Unsubscribe(id))
    case Receive(ch) => Some(F.Receive(ch))
    case Shutdown => Some(F.Shutdown)
    case _ => None
  }

  function Listed<T>(o: Option<T>): seq<T> {
    if o.Some? then [o.value] else []
  }

  // Everything emitted, what found room in the shared queue, and the operations on the channels.
  ghost function AllEmitted(es: seq<Event>): seq<Item> {
    if es == [] then []
    else AllEmitted(es[..|es| - 1]) + Listed(Emitted(Exec(es[..|es| - 1]), es[|es| - 1]))
  }

  ghost function Admitted(es: seq<Event>): seq<Item> {
    if es == [] then []
    else
      var s := Exec(es[..|es| - 1]);
      Admitted(es[..|es| - 1]) + if |s.logCh| < LOG_BUFFER then Listed(Emitted(s, es[|es| - 1])) else []
  }

  ghost function FanEvents(es: seq<Event>): seq<F.Event<Item>> {
    if es == [] then []
    else FanEvents(es[..|es| - 1]) + Listed(FanEvent(Exec(es[..|es| - 1]), es[|es| - 1]))
  }

  function PodItems(items: seq<Item>): seq<Item> {
    if items == [] then []
    else PodItems(items[..|items| - 1]) + if items[|items| - 1].FromPod? then [items[|items| - 1]] else []
  }

  lemma PodItemsSnoc(items: seq<Item>, item: Item)
    ensures PodItems(items + [item]) == PodItems(items) + if item.FromPod? then [item] else []
  {
    assert (items + [item])[..|items|] == items;
  }

  ghost predicate OnlyPods(items: seq<Item>) {
    forall k :: 0 <= k < |items| ==> items[k].FromPod?
  }

  // The queue gets what is emitted if it has room, and gives its oldest item to the channels.
  lemma QueueStep(s: State, e: Event)
    requires OnlyPods(s.logCh) && |s.logCh| <= LOG_BUFFER
    ensures var t := Apply(s, e);
            && OnlyPods(t.logCh)
            && PodItems(t.forwarded) + t.logCh ==
                 PodItems(s.forwarded) + s.logCh + (if |s.logCh| < LOG_BUFFER then Listed(Emitted(s, e)) else [])
  {
    var t := Apply(s, e);
    var all := PodItems(s.forwarded) + s.logCh;
    assert all + [] == all;
    if e.Forward? && s.logCh != [] {
      PodItemsSnoc(s.forwarded, s.logCh[0]);
      assert s.logCh == [s.logCh[0]] + s.logCh[1..];
      Assoc(PodItems(s.forwarded), [s.logCh[0]], s.logCh[1..]);
    } else if e.Announce? {
      PodItemsSnoc(s.forwarded, Notice(e.text));
      assert PodItems(s.forwarded) + [] == PodItems(s.forwarded);
    } else if Emitted(s, e).Some? && |s.logCh| < LOG_BUFFER {
      Assoc(PodItems(s.forwarded), s.logCh, [Emitted(s, e).value]);
    }
  }

  // In every run, what was emitted while the shared queue had room was forwarded or is queued, all of
  // it and in order.
  lemma {:induction false} AdmittedIsForwarded(es: seq<Event>)
    ensures PodItems(Exec(es).forwarded) + Exec(es).logCh == Admitted(es) && OnlyPods(Exec(es).logCh)
  {
    if es != [] {
      AdmittedIsForwarded(es[..|es| - 1]);
      RunsKeepInv(es[..|es| - 1]);
      QueueStep(Exec(es[..|es| - 1]), es[|es| - 1]);
    }
  }

  lemma OutStep(s: State, e: Event, c: nat)
    requires c < |s.consumers|
    ensures var t, more := Apply(s, e), Emitted(s, e);
            && c < |t.consumers| && t.consumers[c].replay == s.consumers[c].replay
            && t.consumers[c].out == s.consumers[c].out + (if more.Some? then Contribution(more.value, c) else [])
  {
  }

  // The pod's stream puts an entry into the consumer's channel if it has room, and a consumer takes the
  // oldest one out when it emits it; nothing else touches the channel.
  lemma PodChannelStep(s: State, e: Event, c: nat)
    requires Inv(s) && c < |s.consumers|
    ensures var k, k' := s.consumers[c], Apply(s, e).consumers[c];
            var offered := e.PodOffers? && e.c == c;
            var took := e.EmitLive? && e.c == c && Enabled(s, e);
            && k'.cap == k.cap
            && k'.pod.offered == k.pod.offered + (if offered then [e.entry] else [])
            && k'.pod.received == k.pod.received + (if took then [k.pod.queue[0]] else [])
            && k'.pod.queue == (if offered && |k.pod.queue| < k.cap then k.pod.queue + [e.entry]
                                else if took then k.pod.queue[1..] else k.pod.queue)
            && k'.pod.dropped == k.pod.dropped + (if offered && |k.pod.queue| == k.cap then 1 else 0)
  {
    assert ReplayFirst(s.consumers[c]);
    assert s.consumers[c].pod.offered + [] == s.consumers[c].pod.offered;
    assert s.consumers[c].pod.received + [] == s.consumers[c].pod.received;
  }

  lemma {:induction false} NobodyYet(es: seq<Event>, c: nat)
    requires c >= |Exec(es).consumers|
    ensures EntriesOf(AllEmitted(es), c) == []
  {
    if es != [] {
      var s, e := Exec(es[..|es| - 1]), es[|es| - 1];
      ConsumersStay(s, e);
      NobodyYet(es[..|es| - 1], c);
      if Emitted(s, e).Some? {
        EntriesSnoc(AllEmitted(es[..|es| - 1]), Emitted(s, e).value, c);
      } else {
        assert AllEmitted(es) == AllEmitted(es[..|es| - 1]);
      }
    }
  }

  lemma ConsumersStay(s: State, e: Event)
    ensures |Apply(s, e).consumers| == |s.consumers| + if e.Spawn? then 1 else 0
    ensures e.Spawn? ==> Apply(s, e).consumers[|s.consumers|] == Consumer(e.replay, e.cap, F.Fresh(), [])
  {
  }

  // What a consumer put out is exactly what was emitted on its behalf.
  lemma {:induction false} OutIsEmitted(es: seq<Event>, c: nat)
    requires c < |Exec(es).consumers|
    ensures Exec(es).consumers[c].out == EntriesOf(AllEmitted(es), c)
  {
    var s, e := Exec(es[..|es| - 1]), es[|es| - 1];
    ConsumersStay(s, e);
    var before := AllEmitted(es[..|es| - 1]);
    if Emitted(s, e).Some? {
      EntriesSnoc(before, Emitted(s, e).value, c);
    } else {
      assert AllEmitted(es) == before;
    }
    if c < |s.consumers| {
      OutIsEmitted(es[..|es| - 1], c);
      OutStep(s, e, c);
    } else {
      NobodyYet(es[..|es| - 1], c);
    }
  }

  // The subscriber channels see the forwarded items and nothing else as broadcasts.
  function Broadcasts(fs: seq<F.Event<Item>>): seq<Item> {
    if fs == [] then []
    else Broadcasts(fs[..|fs| - 1]) + if fs[|fs| - 1].Broadcast? then [fs[|fs| - 1].item] else []
  }

  lemma FanEventIsStep(s: State, e: Event)
    ensures var t, f := Apply(s, e), FanEvent(s, e);
            && t.fan == (if f.None? then s.fan else F.Apply(SUBSCRIBER_BUFFER, s.fan, f.value))
            && t.forwarded == s.forwarded + (if f.Some? && f.value.Broadcast? then [f.value.item] else [])
  {
  }

  lemma {:induction false} FanIsRun(es: seq<Event>)
    ensures Exec(es).fan == F.Exec(SUBSCRIBER_BUFFER, FanEvents(es))
    ensures Exec(es).forwarded == Broadcasts(FanEvents(es))
  {
    if es != [] {
      FanIsRun(es[..|es| - 1]);
      var s, e := Exec(es[..|es| - 1]), es[|es| - 1];
      FanEventIsStep(s, e);
      var before := FanEvents(es[..|es| - 1]);
      if FanEvent(s, e).Some? {
        F.ExecSnoc(SUBSCRIBER_BUFFER, before, FanEvent(s, e).value);
        assert (before + [FanEvent(s, e).value])[..|before|] == before;
      } else {
        assert before + [] == before;
      }
    }
  }

  // So a subscriber's channel drops an item exactly when it is forwarded while the channel is
  // registered and its queue is at capacity.
  lemma DropsAreOverflows(es: seq<Event>, ch: nat)
    requires ch < |Exec(es).fan.chans|
    ensures var chan, fs := Exec(es).fan.chans[ch], FanEvents(es);
            && chan.received + chan.queue == F.Fitting(SUBSCRIBER_BUFFER, fs, ch)
            && chan.dropped == F.Overflows(SUBSCRIBER_BUFFER, fs, ch)
  {
    FanIsRun(es);
    F.ChannelHistory(SUBSCRIBER_BUFFER, FanEvents(es), ch);
  }
}
