/**
  Markers on their way through the subscriber channels of an app stream
  (backend/internal/api/app_stream_pool.go: run, emitPodMarkers, broadcastMarkerLocked, subscribe).

  A reconcile emits its markers while it holds the stream's mutex, so it is one step here, and
  subscribers come and go between the steps.  Events other than markers share the channels.
 */
module MarkerStream {
  import opened Markers
  import opened Wrappers
  import F = Fanout

  datatype AppEvent = Mark(marker: Marker) | Other(payload: string)

  // What happened since a channel was registered: the states remembered then, whether the initial
  // reconcile was still to come, and every reconcile with its markers.
  datatype Info = Info(base: States, initial: bool, obs: seq<States>, batches: seq<seq<Marker>>)

  // `untried` until the initial reconcile was tried.
  datatype State = State(podStates: States, untried: bool, fan: F.State<AppEvent>, infos: seq<Info>)

  datatype Event =
    | Reconcile(desired: States, batch: seq<Marker>)
    | ReconcileFails(payload: string)
    | Send(payload: string)
    | Subscribe(id: string)
    | Unsubscribe(id: string)
    | Receive(c: nat)
    | Shutdown

  function BroadcastAll(cap: nat, fan: F.State<AppEvent>, batch: seq<Marker>): F.State<AppEvent> {
    if batch == [] then fan
    else F.Apply(cap, BroadcastAll(cap, fan, batch[..|batch| - 1]), F.Broadcast(Mark(batch[|batch| - 1])))
  }

  // The bookkeeping of the channels that are registered while a reconcile emits its markers.
  function Witnessed(fan: F.State<AppEvent>, infos: seq<Info>, desired: States, batch: seq<Marker>): seq<Info> {
    seq(|infos|, c requires 0 <= c < |infos| =>
      if c in fan.subscribers.Values
      then infos[c].(obs := infos[c].obs + [desired], batches := infos[c].batches + [batch]) else infos[c])
  }

  function Settled(infos: seq<Info>): seq<Info> {
    seq(|infos|, c requires 0 <= c < |infos| => if infos[c].obs == [] then infos[c].(initial := false) else infos[c])
  }

  ghost predicate Enabled(s: State, e: Event) {
    e.Reconcile? ==> Emits(s.podStates, e.desired, s.untried, e.batch)
  }

  // An event that cannot happen now changes nothing.
  ghost function Apply(cap: nat, s: State, e: Event): State {
    if !Enabled(s, e) then s else
    match e
    case Reconcile(desired, batch) =>
      State(Next(s.podStates, desired), false, BroadcastAll(cap, s.fan, batch),
            Witnessed(s.fan, s.infos, desired, batch))
    case ReconcileFails(payload) =>
      State(s.podStates, false, F.Apply(cap, s.fan, F.Broadcast(Other(payload))), Settled(s.infos))
    case Send(payload) => s.(fan := F.Apply(cap, s.fan, F.Broadcast(Other(payload))))
    case Subscribe(id) =>
      s.(fan := F.Apply(cap, s.fan, F.Subscribe(id)), infos := s.infos + [Info(s.podStates, s.untried, [], [])])
    case Unsubscribe(id) => s.(fan := F.Apply(cap, s.fan, F.Unsubscribe(id)))
    case Receive(c) => s.(fan := F.Apply(cap, s.fan, F.Receive(c)))
    case Shutdown => s.(fan := F.Apply(cap, s.fan, F.Shutdown))
  }

  ghost function Exec(cap: nat, es: seq<Event>): State {
    if es == [] then State(map[], true, F.Init(), []) else Apply(cap, Exec(cap, es[..|es| - 1]), es[|es| - 1])
  }

  function MarkersIn(es: seq<AppEvent>): seq<Marker> {
    if es == [] then []
    else MarkersIn(es[..|es| - 1]) + (if es[|es| - 1].Mark? then [es[|es| - 1].marker] else [])
  }

  lemma MarkersSnoc(es: seq<AppEvent>, e: AppEvent)
    ensures MarkersIn(es + [e]) == MarkersIn(es) + if e.Mark? then [e.marker] else []
  {
    assert (es + [e])[..|es|] == es;
  }

  // ---- What every run keeps ----

  // The channel was offered exactly the markers of the reconciles it was registered for.
  ghost predicate OfferedBatches(ch: F.Chan<AppEvent>, i: Info) {
    MarkersIn(ch.offered) == Flatten(i.batches) && Run(i.base, i.initial, i.obs, i.batches)
  }

  // A registered channel has seen every reconcile since its registration.
  ghost predicate Current(s: State, i: Info) {
    After(i.base, i.obs) == s.podStates && (s.untried <==> i.initial && i.obs == [])
  }

  ghost predicate Inv(cap: nat, s: State) {
    && F.Inv(cap, s.fan)
    && |s.infos| == |s.fan.chans|
    && (s.untried ==> s.podStates == map[])
    && (forall c :: 0 <= c < |s.infos| ==> OfferedBatches(s.fan.chans[c], s.infos[c]))
    && (forall id :: id in s.fan.subscribers ==> Current(s, s.infos[s.fan.subscribers[id]]))
  }

  lemma {:induction false} BroadcastAllOffers(cap: nat, fan: F.State<AppEvent>, batch: seq<Marker>, c: nat)
    requires F.Inv(cap, fan) && c < |fan.chans|
    ensures var t := BroadcastAll(cap, fan, batch);
            && F.Inv(cap, t) && t.subscribers == fan.subscribers && |t.chans| == |fan.chans|
            && MarkersIn(t.chans[c].offered) ==
                 MarkersIn(fan.chans[c].offered) + if c in fan.subscribers.Values then batch else []
  {
    if batch != [] {
      var n := |batch| - 1;
      BroadcastAllOffers(cap, fan, batch[..n], c);
      var mid := BroadcastAll(cap, fan, batch[..n]);
      F.StepKeepsInv(cap, mid, F.Broadcast(Mark(batch[n])));
      MarkersSnoc(mid.chans[c].offered, Mark(batch[n]));
      Assoc(MarkersIn(fan.chans[c].offered), batch[..n], [batch[n]]);
      assert batch == batch[..n] + [batch[n]];
    }
  }

  lemma {:induction false} BroadcastAllKeepsRegistry(cap: nat, fan: F.State<AppEvent>, batch: seq<Marker>)
    requires F.Inv(cap, fan)
    ensures var t := BroadcastAll(cap, fan, batch);
            F.Inv(cap, t) && t.subscribers == fan.subscribers && |t.chans| == |fan.chans|
  {
    if batch != [] {
      var n := |batch| - 1;
      BroadcastAllKeepsRegistry(cap, fan, batch[..n]);
      F.StepKeepsInv(cap, BroadcastAll(cap, fan, batch[..n]), F.Broadcast(Mark(batch[n])));
    }
  }

  // One more reconcile in the record of a registered channel.
  lemma RecordGrows(i: Info, podStates: States, untried: bool, desired: States, batch: seq<Marker>)
    requires Run(i.base, i.initial, i.obs, i.batches) && After(i.base, i.obs) == podStates
    requires (untried <==> i.initial && i.obs == []) && Emits(podStates, desired, untried, batch)
    ensures Run(i.base, i.initial, i.obs + [desired], i.batches + [batch])
    ensures After(i.base, i.obs + [desired]) == Next(podStates, desired)
    ensures Flatten(i.batches + [batch]) == Flatten(i.batches) + batch
  {
    assert (i.obs + [desired])[..|i.obs|] == i.obs && (i.batches + [batch])[..|i.batches|] == i.batches;
  }

  lemma ReconcileOffers(cap: nat, s: State, desired: States, batch: seq<Marker>, c: nat)
    requires Inv(cap, s) && Emits(s.podStates, desired, s.untried, batch) && c < |s.infos|
    ensures |BroadcastAll(cap, s.fan, batch).chans| == |s.infos|
    ensures OfferedBatches(BroadcastAll(cap, s.fan, batch).chans[c], Witnessed(s.fan, s.infos, desired, batch)[c])
  {
    assert OfferedBatches(s.fan.chans[c], s.infos[c]);
    BroadcastAllOffers(cap, s.fan, batch, c);
    if c in s.fan.subscribers.Values {
      var id :| id in s.fan.subscribers && s.fan.subscribers[id] == c;
      assert Current(s, s.infos[s.fan.subscribers[id]]);
      RecordGrows(s.infos[c], s.podStates, s.untried, desired, batch);
    }
  }

  lemma WitnessIsCurrent(fan: F.State<AppEvent>, infos: seq<Info>, podStates: States, untried: bool,
                         desired: States, batch: seq<Marker>, c: nat)
    requires c < |infos| && c in fan.subscribers.Values && Emits(podStates, desired, untried, batch)
    requires Run(infos[c].base, infos[c].initial, infos[c].obs, infos[c].batches)
    requires After(infos[c].base, infos[c].obs) == podStates && (untried <==> infos[c].initial && infos[c].obs == [])
    ensures var i := Witnessed(fan, infos, desired, batch)[c];
            After(i.base, i.obs) == Next(podStates, desired) && i.obs != []
  {
    RecordGrows(infos[c], podStates, untried, desired, batch);
  }

  lemma ReconcileKeepsInv(cap: nat, s: State, e: Event)
    requires Inv(cap, s) && e.Reconcile? && Enabled(s, e)
    ensures Inv(cap, Apply(cap, s, e))
  {
    var t := Apply(cap, s, e);
    BroadcastAllKeepsRegistry(cap, s.fan, e.batch);
    forall c | 0 <= c < |t.infos| ensures OfferedBatches(t.fan.chans[c], t.infos[c]) {
      ReconcileOffers(cap, s, e.desired, e.batch, c);
    }
    forall id | id in t.fan.subscribers ensures Current(t, t.infos[t.fan.subscribers[id]]) {
      var c := s.fan.subscribers[id];
      assert Current(s, s.infos[c]) && OfferedBatches(s.fan.chans[c], s.infos[c]) && c in s.fan.subscribers.Values;
      WitnessIsCurrent(s.fan, s.infos, s.podStates, s.untried, e.desired, e.batch, c);
    }
  }

  // Sending something that is not a marker.
  lemma OtherKeepsOffers(cap: nat, fan: F.State<AppEvent>, payload: string, c: nat)
    requires c < |fan.chans|
    ensures var t := F.Apply(cap, fan, F.Broadcast(Other(payload)));
            |t.chans| == |fan.chans| && MarkersIn(t.chans[c].offered) == MarkersIn(fan.chans[c].offered)
  {
    var offered := fan.chans[c].offered;
    MarkersSnoc(offered, Other(payload));
    assert MarkersIn(offered) + [] == MarkersIn(offered);
    var after := F.Apply(cap, fan, F.Broadcast(Other(payload))).chans[c].offered;
    assert after == offered || after == offered + [Other(payload)];
  }

  lemma SendKeepsInv(cap: nat, s: State, e: Event)
    requires Inv(cap, s) && (e.Send? || e.ReconcileFails?)
    ensures Inv(cap, Apply(cap, s, e))
  {
    var t := Apply(cap, s, e);
    F.StepKeepsInv(cap, s.fan, F.Broadcast(Other(e.payload)));
    forall c | 0 <= c < |t.infos| ensures OfferedBatches(t.fan.chans[c], t.infos[c]) {
      assert OfferedBatches(s.fan.chans[c], s.infos[c]);
      OtherKeepsOffers(cap, s.fan, e.payload, c);
    }
    forall id | id in t.fan.subscribers ensures Current(t, t.infos[t.fan.subscribers[id]]) {
      assert Current(s, s.infos[s.fan.subscribers[id]]);
    }
  }

  lemma SubscribeKeepsInv(cap: nat, s: State, id: string)
    requires Inv(cap, s)
    ensures Inv(cap, Apply(cap, s, Subscribe(id)))
  {
    var t := Apply(cap, s, Subscribe(id));
    F.StepKeepsInv(cap, s.fan, F.Subscribe(id));
    forall c | 0 <= c < |t.infos| ensures OfferedBatches(t.fan.chans[c], t.infos[c]) {
      if c < |s.infos| {
        assert OfferedBatches(s.fan.chans[c], s.infos[c]);
      }
    }
    forall other | other in t.fan.subscribers ensures Current(t, t.infos[t.fan.subscribers[other]]) {
      if other != id {
        assert Current(s, s.infos[s.fan.subscribers[other]]);
      }
    }
  }

  // A step of the channels that registers nobody and offers nothing.
  lemma QuietKeepsInv(cap: nat, s: State, fan: F.State<AppEvent>)
    requires Inv(cap, s) && F.Inv(cap, fan) && |fan.chans| == |s.fan.chans|
    requires forall c :: 0 <= c < |fan.chans| ==> fan.chans[c].offered == s.fan.chans[c].offered
    requires forall id :: id in fan.subscribers ==>
               id in s.fan.subscribers && fan.subscribers[id] == s.fan.subscribers[id]
    ensures Inv(cap, s.(fan := fan))
  {
    var t := s.(fan := fan);
    forall c | 0 <= c < |t.infos| ensures OfferedBatches(t.fan.chans[c], t.infos[c]) {
      assert OfferedBatches(s.fan.chans[c], s.infos[c]);
    }
    forall id | id in t.fan.subscribers ensures Current(t, t.infos[t.fan.subscribers[id]]) {
      assert Current(s, s.infos[s.fan.subscribers[id]]);
    }
  }

  lemma FanStepKeepsInv(cap: nat, s: State, step: F.Event<AppEvent>)
    requires Inv(cap, s) && (step.Unsubscribe? || step.Receive? || step.Shutdown?)
    ensures Inv(cap, s.(fan := F.Apply(cap, s.fan, step)))
  {
    F.StepKeepsInv(cap, s.fan, step);
    QuietKeepsInv(cap, s, F.Apply(cap, s.fan, step));
  }

  lemma {:induction false} RunsKeepInv(cap: nat, es: seq<Event>)
    ensures Inv(cap, Exec(cap, es))
  {
    if es != [] {
      var s, e := Exec(cap, es[..|es| - 1]), es[|es| - 1];
      RunsKeepInv(cap, es[..|es| - 1]);
      match e {
        case Reconcile(_, _) =>
          if Enabled(s, e) {
            ReconcileKeepsInv(cap, s, e);
          }
        case ReconcileFails(_) => SendKeepsInv(cap, s, e);
        case Send(_) => SendKeepsInv(cap, s, e);
        case Subscribe(id) => SubscribeKeepsInv(cap, s, id);
        case Unsubscribe(id) => FanStepKeepsInv(cap, s, F.Unsubscribe(id));
        case Receive(c) => FanStepKeepsInv(cap, s, F.Receive(c));
        case Shutdown => FanStepKeepsInv(cap, s, F.Shutdown);
      }
    }
  }

  // ---- Main result ----

  lemma DrainedInState(cap: nat, s: State, id: string, p: string)
    requires Inv(cap, s) && id in s.fan.subscribers
    requires var ch := s.fan.chans[s.fan.subscribers[id]]; ch.dropped == 0 && ch.queue == []
    ensures var c := s.fan.subscribers[id];
            p in OnMarkers([], MarkersIn(s.fan.chans[c].received)) <==>
              p in EverKnown(s.infos[c].base, s.infos[c].obs) && p !in s.podStates
  {
    var c := s.fan.subscribers[id];
    var ch, i := s.fan.chans[c], s.infos[c];
    assert OfferedBatches(ch, i) && Current(s, i) && F.Conserved(cap, ch);
    F.NoDropMeansEverything(cap, ch);
    assert ch.received == ch.offered;
    RemovedIsKnownMinusNow(i.base, i.initial, i.obs, i.batches, p);
  }

  // In every run: a registered client whose channel dropped nothing and was drained lists exactly the
  // pods that were known at some moment since it subscribed and are not known now.
  lemma DrainedClientListsRemoved(cap: nat, es: seq<Event>, id: string, p: string)
    requires id in Exec(cap, es).fan.subscribers
    requires var s := Exec(cap, es);
             s.fan.subscribers[id] < |s.infos| == |s.fan.chans| &&
             var ch := s.fan.chans[s.fan.subscribers[id]]; ch.dropped == 0 && ch.queue == []
    ensures var s := Exec(cap, es); var c := s.fan.subscribers[id];
            p in OnMarkers([], MarkersIn(s.fan.chans[c].received)) <==>
              p in EverKnown(s.infos[c].base, s.infos[c].obs) && p !in s.podStates
  {
    RunsKeepInv(cap, es);
    DrainedInState(cap, Exec(cap, es), id, p);
  }

  // ---- The channels see the markers one by one ----

  function Marks(batch: seq<Marker>): seq<F.Event<AppEvent>> {
    seq(|batch|, k requires 0 <= k < |batch| => F.Broadcast(Mark(batch[k])))
  }

  function FanStep(e: Event): seq<F.Event<AppEvent>> {
    match e
    case Reconcile(_, batch) => Marks(batch)
    case ReconcileFails(payload) => [F.Broadcast(Other(payload))]
    case Send(payload) => [F.Broadcast(Other(payload))]
    case Subscribe(id) => [F.Subscribe(id)]
    case Unsubscribe(id) => [F.Unsubscribe(id)]
    case Receive(c) => [F.Receive(c)]
    case Shutdown => [F.Shutdown]
  }

  ghost function FanEvents(cap: nat, es: seq<Event>): seq<F.Event<AppEvent>> {
    if es == [] then []
    else
      var n := |es| - 1;
      FanEvents(cap, es[..n]) + if Enabled(Exec(cap, es[..n]), es[n]) then FanStep(es[n]) else []
  }

  lemma {:induction false} BroadcastAllIsRun(cap: nat, fs: seq<F.Event<AppEvent>>, batch: seq<Marker>)
    ensures BroadcastAll(cap, F.Exec(cap, fs), batch) == F.Exec(cap, fs + Marks(batch))
    decreases |batch|
  {
    if batch == [] {
      assert fs + Marks(batch) == fs;
    } else {
      var n := |batch| - 1;
      BroadcastAllIsRun(cap, fs, batch[..n]);
      assert fs + Marks(batch) == (fs + Marks(batch[..n])) + [F.Broadcast(Mark(batch[n]))];
      F.ExecSnoc(cap, fs + Marks(batch[..n]), F.Broadcast(Mark(batch[n])));
    }
  }

  lemma FanStepIsRun(cap: nat, s: State, e: Event, fs: seq<F.Event<AppEvent>>)
    requires Enabled(s, e) && s.fan == F.Exec(cap, fs)
    ensures Apply(cap, s, e).fan == F.Exec(cap, fs + FanStep(e))
  {
    if e.Reconcile? {
      BroadcastAllIsRun(cap, fs, e.batch);
    } else {
      F.ExecSnoc(cap, fs, FanStep(e)[0]);
      assert FanStep(e) == [FanStep(e)[0]];
    }
  }

  lemma {:induction false} FanIsRun(cap: nat, es: seq<Event>)
    ensures Exec(cap, es).fan == F.Exec(cap, FanEvents(cap, es))
  {
    if es != [] {
      var s, e := Exec(cap, es[..|es| - 1]), es[|es| - 1];
      FanIsRun(cap, es[..|es| - 1]);
      if Enabled(s, e) {
        FanStepIsRun(cap, s, e, FanEvents(cap, es[..|es| - 1]));
      } else {
        assert FanEvents(cap, es) == FanEvents(cap, es[..|es| - 1]);
      }
    }
  }

  // So a channel drops an event exactly when it is sent while the channel is registered and its queue
  // is at capacity.
  lemma DropsAreOverflows(cap: nat, es: seq<Event>, c: nat)
    requires c < |Exec(cap, es).fan.chans|
    ensures var ch, fs := Exec(cap, es).fan.chans[c], FanEvents(cap, es);
            && ch.received + ch.queue == F.Fitting(cap, fs, c) && ch.dropped == F.Overflows(cap, fs, c)
  {
    FanIsRun(cap, es);
    F.ChannelHistory(cap, FanEvents(cap, es), c);
  }
}
