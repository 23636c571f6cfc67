/**
  Lifecycle markers of an app stream and the browser's list of removed pods
  (backend/internal/api/app_stream_pool.go, emitPodMarkers; frontend/components/LogView.tsx).

  What summarizePodStatus says about a pod is a `PodState`.  Maps are visited in an arbitrary
  order, so a batch of markers is known only up to the order between different pods.
 */
module Markers {
  import opened Subsequences
  import opened Wrappers

  datatype PodState = PodState(restarts: int, ready: bool)

  datatype Marker =
    | Added(pod: string)
    | Removed(pod: string)
    | Restarted(pod: string, was: int, now: int)
    | BecameReady(pod: string)
    | BecameNotReady(pod: string)

  type States = map<string, PodState>

  function Lookup(s: States, p: string): Option<PodState> {
    if p in s then Some(s[p]) else None
  }

  // The restart count that is remembered never goes down.
  function Merge(prev: PodState, now: PodState): PodState {
    PodState(if now.restarts > prev.restarts then now.restarts else prev.restarts, now.ready)
  }

  function Next(s: States, desired: States): States {
    map p | p in desired :: if p in s then Merge(s[p], desired[p]) else desired[p]
  }

  // The markers of one pod in one reconcile.
  function PodMarkers(p: string, was: Option<PodState>, now: Option<PodState>, initial: bool): seq<Marker> {
    match (was, now)
    case (None, None) => []
    case (Some(_), None) => [Removed(p)]
    case (None, Some(_)) => if initial then [] else [Added(p)]
    case (Some(a), Some(b)) => RestartMarkers(p, a, b) + ReadyMarkers(p, a, b)
  }

  function RestartMarkers(p: string, was: PodState, now: PodState): (ms: seq<Marker>)
    ensures |ms| <= 1
  {
    if now.restarts > was.restarts then [Restarted(p, was.restarts, now.restarts)] else []
  }

  function ReadyMarkers(p: string, was: PodState, now: PodState): (ms: seq<Marker>)
    ensures |ms| <= 1
  {
    if was.ready == now.ready then [] else if now.ready then [BecameReady(p)] else [BecameNotReady(p)]
  }

  // The markers about one pod, in order.
  function Of(ms: seq<Marker>, p: string): seq<Marker> {
    if ms == [] then []
    else if ms[|ms| - 1].pod == p then Of(ms[..|ms| - 1], p) + [ms[|ms| - 1]]
    else Of(ms[..|ms| - 1], p)
  }

  lemma {:induction false} OfAppend(a: seq<Marker>, b: seq<Marker>, p: string)
    ensures Of(a + b, p) == Of(a, p) + Of(b, p)
    decreases |b|
  {
    if b == [] {
      assert a + b == a;
    } else {
      var n := |b| - 1;
      assert (a + b)[..|a| + n] == a + b[..n];
      OfAppend(a, b[..n], p);
      Assoc(Of(a, p), Of(b[..n], p), [b[n]]);
    }
  }

  lemma OfFew(ms: seq<Marker>, q: string)
    requires |ms| <= 1
    ensures Of(ms, q) == if ms != [] && ms[0].pod == q then ms else []
  {
    if ms != [] {
      assert ms[..0] == [];
    }
  }

  lemma OfPodMarkers(p: string, was: Option<PodState>, now: Option<PodState>, initial: bool, q: string)
    ensures var ms := PodMarkers(p, was, now, initial); Of(ms, q) == if p == q then ms else []
  {
    if was.Some? && now.Some? {
      var r, d := RestartMarkers(p, was.value, now.value), ReadyMarkers(p, was.value, now.value);
      OfAppend(r, d, q);
      OfFew(r, q);
      OfFew(d, q);
    } else {
      OfFew(PodMarkers(p, was, now, initial), q);
    }
  }

  ghost predicate Emits(s: States, desired: States, initial: bool, batch: seq<Marker>) {
    forall p :: Of(batch, p) == PodMarkers(p, Lookup(s, p), Lookup(desired, p), initial)
  }

  // The same while the pods in `todo` have not been visited.
  ghost predicate EmitsBut(todo: set<string>, s: States, desired: States, initial: bool, batch: seq<Marker>) {
    forall p :: Of(batch, p) == if p in todo then [] else PodMarkers(p, Lookup(s, p), Lookup(desired, p), initial)
  }

  function NextBut(todo: set<string>, s: States, desired: States): States {
    map p | p in s.Keys + desired.Keys && (p in todo ==> p in s) && (p !in todo ==> p in desired) ::
      if p in todo then s[p] else Next(s, desired)[p]
  }

  lemma VisitPod(todo: set<string>, s: States, desired: States, initial: bool, batch: seq<Marker>, p: string)
    requires EmitsBut(todo, s, desired, initial, batch) && p in todo
    ensures EmitsBut(todo - {p}, s, desired, initial,
                     batch + PodMarkers(p, Lookup(s, p), Lookup(desired, p), initial))
  {
    BatchGrows(batch, p, Lookup(s, p), Lookup(desired, p), initial);
  }

  lemma VisitStates(todo: set<string>, s: States, desired: States, p: string)
    requires p in todo && p in s.Keys + desired.Keys
    ensures p in NextBut(todo, s, desired) <==> p in s
    ensures p in s ==> NextBut(todo, s, desired)[p] == s[p]
    ensures NextBut(todo - {p}, s, desired) ==
              if p in desired then NextBut(todo, s, desired)[p := Next(s, desired)[p]]
              else NextBut(todo, s, desired) - {p}
  {
  }

  class Emitter {
    var podStates: States

    constructor ()
      ensures podStates == map[]
    {
      podStates := map[];
    }

    method EmitPodMarkers(desired: States, initial: bool) returns (batch: seq<Marker>)
      modifies this
      ensures podStates == Next(old(podStates), desired)
      ensures Emits(old(podStates), desired, initial, batch)
    {
      ghost var s := podStates;
      batch := DropGone(desired, initial);
      var todo := desired.Keys;
      while todo != {}
        invariant todo <= desired.Keys
        invariant podStates == NextBut(todo, s, desired)
        invariant EmitsBut(todo, s, desired, initial, batch)
      {
        var podName :| podName in todo;
        VisitPod(todo, s, desired, initial, batch, podName);
        VisitStates(todo, s, desired, podName);
        todo := todo - {podName};
        var prev := Lookup(podStates, podName);
        var next, more := Compare(podName, prev, desired[podName], initial);
        podStates := podStates[podName := next];
        batch := batch + more;
      }
      assert NextBut({}, s, desired) == Next(s, desired);
    }

    // The first loop: pods that are not desired any more.
    method DropGone(desired: States, ghost initial: bool) returns (batch: seq<Marker>)
      modifies this
      ensures podStates == NextBut(desired.Keys, old(podStates), desired)
      ensures EmitsBut(desired.Keys, old(podStates), desired, initial, batch)
    {
      ghost var s := podStates;
      batch := [];
      var todo := podStates.Keys;
      NothingVisited(s, desired, initial);
      while todo != {}
        invariant todo <= s.Keys
        invariant podStates == NextBut(desired.Keys + todo, s, desired)
        invariant EmitsBut(desired.Keys + todo, s, desired, initial, batch)
      {
        var podName :| podName in todo;
        ghost var unseen := desired.Keys + todo;
        todo := todo - {podName};
        if podName !in desired {
          assert desired.Keys + todo == unseen - {podName};
          VisitPod(unseen, s, desired, initial, batch, podName);
          VisitStates(unseen, s, desired, podName);
          batch := batch + [Removed(podName)];
          podStates := podStates - {podName};
        } else {
          assert desired.Keys + todo == unseen;
        }
      }
      assert desired.Keys + {} == desired.Keys;
    }
  }

  lemma NothingVisited(s: States, desired: States, initial: bool)
    ensures NextBut(desired.Keys + s.Keys, s, desired) == s
    ensures EmitsBut(desired.Keys + s.Keys, s, desired, initial, [])
  {
  }

  // The body of the second loop.
  method Compare(podName: string, was: Option<PodState>, now: PodState, initial: bool)
    returns (next: PodState, more: seq<Marker>)
    ensures next == if was.None? then now else Merge(was.value, now)
    ensures more == PodMarkers(podName, was, Some(now), initial)
  {
    more := [];
    if was.None? {
      next := now;
      if !initial {
        more := more + [Added(podName)];
      }
      return;
    }
    var prev := was.value;
    if now.restarts > prev.restarts {
      more := more + [Restarted(podName, prev.restarts, now.restarts)];
      prev := prev.(restarts := now.restarts);
    }
    if now.ready != prev.ready {
      if now.ready {
        more := more + [BecameReady(podName)];
      } else {
        more := more + [BecameNotReady(podName)];
      }
      prev := prev.(ready := now.ready);
    }
    next := prev;
  }

  lemma BatchGrows(batch: seq<Marker>, p: string, was: Option<PodState>, now: Option<PodState>, initial: bool)
    ensures var ms := PodMarkers(p, was, now, initial);
            forall q :: Of(batch + ms, q) == if q == p then Of(batch, q) + ms else Of(batch, q)
  {
    var ms := PodMarkers(p, was, now, initial);
    forall q ensures Of(batch + ms, q) == if q == p then Of(batch, q) + ms else Of(batch, q) {
      OfAppend(batch, ms, q);
      OfPodMarkers(p, was, now, initial, q);
    }
  }

  // ---- Runs ----

  // The remembered states after a list of reconciles; only successful ones count.
  function After(s: States, obs: seq<States>): States {
    if obs == [] then s else Next(After(s, obs[..|obs| - 1]), obs[|obs| - 1])
  }

  // `initial` is the flag of the first reconcile; later ones have it off.
  ghost predicate Run(s: States, initial: bool, obs: seq<States>, batches: seq<seq<Marker>>) {
    && |obs| == |batches|
    && (initial ==> s == map[])
    && (obs != [] ==>
          var n := |obs| - 1;
          Run(s, initial, obs[..n], batches[..n]) &&
          Emits(After(s, obs[..n]), obs[n], initial && n == 0, batches[n]))
  }

  function Flatten(batches: seq<seq<Marker>>): seq<Marker> {
    if batches == [] then [] else Flatten(batches[..|batches| - 1]) + batches[|batches| - 1]
  }

  // ---- What is remembered ----

  // After a reconcile exactly the listed pods are known, each with its latest readiness and the highest
  // restart count seen since it was last unknown: since observation `since`, before which it was not.
  lemma {:induction false} RememberedIsObserved(s: States, obs: seq<States>, p: string) returns (since: nat)
    requires obs != []
    ensures p in After(s, obs) <==> p in obs[|obs| - 1]
    ensures p in obs[|obs| - 1] ==>
              && After(s, obs)[p].ready == obs[|obs| - 1][p].ready
              && since <= |obs| && (since > 0 ==> !Observed(s, obs, since - 1, p))
              && (forall k :: since <= k <= |obs| ==> Observed(s, obs, k, p))
              && IsHighest(After(s, obs)[p].restarts, s, obs, since, p)
    decreases |obs|
  {
    var n := |obs| - 1;
    since := n + 1;
    if n == 0 {
      if p in s && p in obs[0] {
        since := 0;
        assert Restarts(s, obs[..0], 0, p) == s[p].restarts;
        HighestGrows(s[p].restarts, s, obs, 0, p);
      }
    } else {
      var earlier := RememberedIsObserved(s, obs[..n], p);
      if p in obs[n - 1] && p in obs[n] {
        since := earlier;
        forall k | since <= k <= n + 1 ensures Observed(s, obs, k, p) {
          assert k <= n ==> Observed(s, obs[..n], k, p);
        }
        assert since > 0 ==> !Observed(s, obs[..n], since - 1, p);
        HighestGrows(After(s, obs[..n])[p].restarts, s, obs, since, p);
      }
    }
    assert since == n + 1 && p in obs[n] ==> Restarts(s, obs, n + 1, p) == obs[n][p].restarts;
  }

  // Whether observation `k` has the pod.
  predicate Observed(s: States, obs: seq<States>, k: nat, p: string) {
    if k == 0 then p in s else k <= |obs| && p in obs[k - 1]
  }

  // Observation 0 is what was remembered at the start, observation k is `obs[k - 1]`.
  function Restarts(s: States, obs: seq<States>, k: nat, p: string): int {
    if k == 0 then if p in s then s[p].restarts else 0
    else if k <= |obs| && p in obs[k - 1] then obs[k - 1][p].restarts else 0
  }

  // `r` is the highest restart count from observation `since` on.
  ghost predicate IsHighest(r: int, s: States, obs: seq<States>, since: nat, p: string) {
    && (exists k :: since <= k <= |obs| && Restarts(s, obs, k, p) == r)
    && (forall k :: since <= k <= |obs| ==> Restarts(s, obs, k, p) <= r)
  }

  lemma HighestGrows(r: int, s: States, obs: seq<States>, since: nat, p: string)
    requires obs != [] && since <= |obs| - 1 && IsHighest(r, s, obs[..|obs| - 1], since, p) && p in obs[|obs| - 1]
    ensures var now := obs[|obs| - 1][p].restarts; IsHighest(if now > r then now else r, s, obs, since, p)
  {
    var n := |obs| - 1;
    assert forall k :: 0 <= k <= n ==> Restarts(s, obs[..n], k, p) == Restarts(s, obs, k, p);
    assert Restarts(s, obs, n + 1, p) == obs[n][p].restarts;
  }

  // ---- The trace of one pod is an event log ----

  // What a reader of the trace knows about the pod; None means the trace is not a possible log.
  datatype Seen = Absent | Present(restarts: Option<int>, ready: Option<bool>)

  function Observe(k: Option<Seen>, m: Marker): Option<Seen> {
    if k.None? then None else
    match (k.value, m)
    case (Absent, Added(_)) => Some(Present(None, None))
    case (Present(_, _), Removed(_)) => Some(Absent)
    case (Present(r, b), Restarted(_, was, now)) =>
      if was < now && (r == None || r == Some(was)) then Some(Present(Some(now), b)) else None
    case (Present(r, b), BecameReady(_)) => if b == Some(true) then None else Some(Present(r, Some(true)))
    case (Present(r, b), BecameNotReady(_)) => if b == Some(false) then None else Some(Present(r, Some(false)))
    case _ => None
  }

  function ObserveAll(k: Option<Seen>, ms: seq<Marker>): Option<Seen> {
    if ms == [] then k else Observe(ObserveAll(k, ms[..|ms| - 1]), ms[|ms| - 1])
  }

  lemma {:induction false} ObserveAppend(k: Option<Seen>, a: seq<Marker>, b: seq<Marker>)
    ensures ObserveAll(k, a + b) == ObserveAll(ObserveAll(k, a), b)
    decreases |b|
  {
    if b == [] {
      assert a + b == a;
    } else {
      var n := |b| - 1;
      assert (a + b)[..|a| + n] == a + b[..n];
      ObserveAppend(k, a, b[..n]);
    }
  }

  lemma ObserveFew(k: Option<Seen>, ms: seq<Marker>)
    requires |ms| <= 1
    ensures ObserveAll(k, ms) == if ms == [] then k else Observe(k, ms[0])
  {
    if ms != [] {
      assert ms[..0] == [];
    }
  }

  // What is known from the trace is right.
  ghost predicate Agrees(k: Seen, now: Option<PodState>) {
    match k
    case Absent => now.None?
    case Present(r, b) =>
      now.Some? && (r.Some? ==> r.value == now.value.restarts) && (b.Some? ==> b.value == now.value.ready)
  }

  predicate Full(k: Seen) {
    k.Present? && k.restarts.Some? && k.ready.Some?
  }

  lemma ObserveRestart(p: string, k: Seen, was: PodState, now: PodState)
    requires Agrees(k, Some(was))
    ensures var k' := ObserveAll(Some(k), RestartMarkers(p, was, now));
            && k'.Some? && Agrees(k'.value, Some(Merge(was, now).(ready := was.ready)))
            && (Full(k) ==> Full(k'.value))
  {
    ObserveFew(Some(k), RestartMarkers(p, was, now));
  }

  lemma ObserveReadiness(p: string, k: Seen, was: PodState, now: PodState)
    requires Agrees(k, Some(Merge(was, now).(ready := was.ready)))
    ensures var k' := ObserveAll(Some(k), ReadyMarkers(p, was, now));
            && k'.Some? && Agrees(k'.value, Some(Merge(was, now)))
            && (Full(k) ==> Full(k'.value))
  {
    ObserveFew(Some(k), ReadyMarkers(p, was, now));
  }

  lemma {:induction false} ObserveBatch(p: string, k: Seen, was: Option<PodState>, desired: Option<PodState>)
    requires Agrees(k, was)
    ensures var k' := ObserveAll(Some(k), PodMarkers(p, was, desired, false));
            && k'.Some?
            && Agrees(k'.value, if was.Some? && desired.Some? then Some(Merge(was.value, desired.value)) else desired)
            && (Full(k) && desired.Some? ==> Full(k'.value))
  {
    if was.Some? && desired.Some? {
      var r, d := RestartMarkers(p, was.value, desired.value), ReadyMarkers(p, was.value, desired.value);
      ObserveAppend(Some(k), r, d);
      ObserveRestart(p, k, was.value, desired.value);
      ObserveReadiness(p, ObserveAll(Some(k), r).value, was.value, desired.value);
    } else {
      ObserveFew(Some(k), PodMarkers(p, was, desired, false));
    }
  }

  // The states the markers start from: the initial reconcile reports nothing that it finds.
  function Start(s: States, initial: bool, obs: seq<States>): States {
    if initial && obs != [] then Next(s, obs[0]) else s
  }

  // Main result: per pod, added and removed alternate, ready and not-ready alternate between them,
  // each restart marker starts where the previous one ended and goes up, and what the trace says
  // is what the server remembers, whether or not the run begins with the initial reconcile.
  lemma {:induction false} TraceIsEventLog(s: States, initial: bool, obs: seq<States>, batches: seq<seq<Marker>>,
                                           p: string, k: Seen)
    requires Run(s, initial, obs, batches) && Agrees(k, Lookup(Start(s, initial, obs), p))
    ensures var k' := ObserveAll(Some(k), Of(Flatten(batches), p));
            k'.Some? && Agrees(k'.value, Lookup(After(s, obs), p))
  {
    if obs != [] {
      var n := |obs| - 1;
      var before := Flatten(batches[..n]);
      OfAppend(before, batches[n], p);
      if initial && n == 0 {
        assert Of(before, p) == [] && Of(batches[0], p) == [];
      } else {
        TraceIsEventLog(s, initial, obs[..n], batches[..n], p, k);
        var mid := ObserveAll(Some(k), Of(before, p)).value;
        ObserveAppend(Some(k), Of(before, p), Of(batches[n], p));
        ObserveBatch(p, mid, Lookup(After(s, obs[..n]), p), Lookup(obs[n], p));
      }
    }
  }

  // A reader that knows a pod's state at some moment reconstructs it exactly from the trace, as
  // long as the pod stays.
  lemma {:induction false} TraceIsExact(s: States, obs: seq<States>, batches: seq<seq<Marker>>, p: string)
    requires Run(s, false, obs, batches) && p in s
    requires forall k :: 0 <= k < |obs| ==> p in obs[k]
    ensures p in After(s, obs)
    ensures ObserveAll(Some(Exactly(s[p])), Of(Flatten(batches), p)) == Some(Exactly(After(s, obs)[p]))
  {
    if obs != [] {
      var n := |obs| - 1;
      TraceIsExact(s, obs[..n], batches[..n], p);
      var before := Flatten(batches[..n]);
      OfAppend(before, batches[n], p);
      ObserveAppend(Some(Exactly(s[p])), Of(before, p), Of(batches[n], p));
      var was := After(s, obs[..n]);
      ObserveBatch(p, Exactly(was[p]), Lookup(was, p), Lookup(obs[n], p));
    }
  }

  function Exactly(now: PodState): Seen {
    Present(Some(now.restarts), Some(now.ready))
  }

  // ---- The browser's list of removed pods ----

  function Without(s: seq<string>, p: string): seq<string> {
    if s == [] then [] else (if s[0] != p then [s[0]] else []) + Without(s[1..], p)
  }

  function OnMarker(removed: seq<string>, m: Marker): seq<string> {
    match m
    case Removed(p) => if p in removed then removed else removed + [p]
    case Added(p) => Without(removed, p)
    case _ => removed
  }

  function OnMarkers(removed: seq<string>, ms: seq<Marker>): seq<string> {
    if ms == [] then removed else OnMarker(OnMarkers(removed, ms[..|ms| - 1]), ms[|ms| - 1])
  }

  lemma {:induction false} WithoutMembers(s: seq<string>, p: string, q: string)
    ensures q in Without(s, p) <==> q in s && q != p
  {
    if s != [] {
      WithoutMembers(s[1..], p, q);
      assert s == [s[0]] + s[1..];
    }
  }

  // No pod is listed twice.
  lemma {:induction false} ListedOnce(ms: seq<Marker>)
    ensures Distinct(OnMarkers([], ms))
  {
    if ms != [] {
      ListedOnce(ms[..|ms| - 1]);
      var m := ms[|ms| - 1];
      if m.Added? {
        WithoutIsSub(OnMarkers([], ms[..|ms| - 1]), m.pod);
      }
    }
  }

  lemma {:induction false} WithoutIsSub(s: seq<string>, p: string)
    requires Distinct(s)
    ensures Distinct(Without(s, p))
  {
    if s != [] {
      WithoutIsSub(s[1..], p);
      forall k | 0 <= k < |Without(s[1..], p)| ensures Without(s[1..], p)[k] != s[0] {
        WithoutMembers(s[1..], p, Without(s[1..], p)[k]);
      }
    }
  }

  // Whether a pod is listed depends only on its own markers.
  function Listed(was: bool, ms: seq<Marker>): bool {
    if ms == [] then was
    else match ms[|ms| - 1]
      case Removed(_) => true
      case Added(_) => false
      case _ => Listed(was, ms[..|ms| - 1])
  }

  lemma {:induction false} ListedAppend(was: bool, a: seq<Marker>, b: seq<Marker>)
    ensures Listed(was, a + b) == Listed(Listed(was, a), b)
    decreases |b|
  {
    if b == [] {
      assert a + b == a;
    } else {
      assert (a + b)[..|a| + |b| - 1] == a + b[..|b| - 1];
      ListedAppend(was, a, b[..|b| - 1]);
    }
  }

  lemma {:induction false} ListedByOwnMarkers(ms: seq<Marker>, p: string)
    ensures p in OnMarkers([], ms) <==> Listed(false, Of(ms, p))
  {
    if ms != [] {
      var front, m := ms[..|ms| - 1], ms[|ms| - 1];
      ListedByOwnMarkers(front, p);
      WithoutMembers(OnMarkers([], front), m.pod, p);
      if m.pod == p {
        assert (Of(front, p) + [m])[..|Of(front, p)|] == Of(front, p);
      }
    }
  }

  function EverKnown(s: States, obs: seq<States>): set<string> {
    if obs == [] then s.Keys else EverKnown(s, obs[..|obs| - 1]) + obs[|obs| - 1].Keys
  }

  lemma ListedAfterBatch(p: string, was: Option<PodState>, desired: Option<PodState>, initial: bool, before: bool)
    requires was.Some? ==> !before
    requires initial ==> !before
    ensures Listed(before, PodMarkers(p, was, desired, initial)) ==
              if desired.Some? then false else was.Some? || before
  {
    if was.Some? && desired.Some? {
      var r, d := RestartMarkers(p, was.value, desired.value), ReadyMarkers(p, was.value, desired.value);
      ListedAppend(before, r, d);
    }
  }

  // Main result: a client that sees every marker since it subscribed lists exactly the pods that
  // were known at some moment since then and are not known now.
  lemma {:induction false} RemovedIsKnownMinusNow(s: States, initial: bool, obs: seq<States>,
                                                  batches: seq<seq<Marker>>, p: string)
    requires Run(s, initial, obs, batches)
    ensures p in OnMarkers([], Flatten(batches)) <==> p in EverKnown(s, obs) && p !in After(s, obs)
    ensures p in After(s, obs) ==> p in EverKnown(s, obs)
  {
    ListedByOwnMarkers(Flatten(batches), p);
    if obs != [] {
      var n := |obs| - 1;
      RemovedIsKnownMinusNow(s, initial, obs[..n], batches[..n], p);
      var before := Flatten(batches[..n]);
      ListedByOwnMarkers(before, p);
      OfAppend(before, batches[n], p);
      ListedAppend(false, Of(before, p), Of(batches[n], p));
      ListedAfterBatch(p, Lookup(After(s, obs[..n]), p), Lookup(obs[n], p), initial && n == 0,
                       Listed(false, Of(before, p)));
    }
  }
}
