/**
  Cached pod metrics (backend/internal/api/resources.go: listPodMetricsCached and
  mapMetricsSnapshot; the cache of backend/internal/api/resource_cache.go; the background refresh
  of backend/internal/api/logs.go).

  One namespace.  Callers run concurrently: each checks the cache, then joins the single flight that
  is under way or starts one, gets the flight's result and reads the cache again.  A flight runs the
  closure of the caller that started it.  Times are nanoseconds.
 */
module MetricsCache {
  import opened Wrappers

  datatype Item = Item(name: string, cpu: int, memory: int)

  datatype Entry = Entry(items: seq<Item>, fetched: nat)

  datatype Caller =
    | Checking
    | Missed(seen: Option<Entry>, checked: nat)
    | Waiting(seen: Option<Entry>, checked: nat, flight: nat)
    | Reading(seen: Option<Entry>, checked: nat)
    | Returned(answer: Answer)

  // The return a caller takes: one that maps an entry, the error, or the last one with neither.
  datatype Answer =
    | Snapshot(entry: Entry, seen: Option<Entry>, checked: nat, at: nat)
    | Failure(seen: Option<Entry>, flight: nat)
    | Nothing

  // A flight remembers whether its starter had a cache entry, then whether its closure returned
  // an error, and finally when it ended.
  datatype Flight = Flight(hasCache: bool, failed: Option<bool>, done: Option<nat>)

  datatype State = State(now: nat, cache: Option<Entry>, writes: seq<Entry>,
                         flights: seq<Flight>, running: bool, callers: map<nat, Caller>)

  datatype Event =
    | Advance(to: nat)
    | Call(c: nat)
    | Check(c: nat)
    | Join(c: nat)
    | FetchOk(items: seq<Item>)
    | FetchFails
    | FlightEnds
    | Deliver(c: nat)
    | Reread(c: nat)
    | Background(items: seq<Item>)

  function Store(s: State, items: seq<Item>): State {
    var e := Entry(items, s.now);
    s.(cache := Some(e), writes := s.writes + [e])
  }

  function Put(s: State, c: nat, k: Caller): State {
    s.(callers := s.callers[c := k])
  }

  // No positive TTL means that an entry never expires.
  predicate Fresh(ttl: int, e: Entry, now: nat) {
    ttl <= 0 || now - e.fetched <= ttl
  }

  // doPodMetrics: join the running flight, or start one.
  function Board(s: State, c: nat, seen: Option<Entry>, checked: nat): State {
    if s.running && s.flights != [] then Put(s, c, Waiting(seen, checked, |s.flights| - 1))
    else
      var t := s.(flights := s.flights + [Flight(seen.Some?, None, None)], running := true);
      Put(t, c, Waiting(seen, checked, |s.flights|))
  }

  function UpdateFlight(s: State, f: Flight): State
    requires s.flights != []
  {
    s.(flights := s.flights[|s.flights| - 1 := f])
  }

  function Current(s: State): Flight
    requires s.flights != []
  {
    s.flights[|s.flights| - 1]
  }

  predicate Enabled(s: State, e: Event) {
    match e
    case Advance(to) => s.now <= to
    case Call(c) => c !in s.callers
    case Check(c) => c in s.callers && s.callers[c].Checking?
    case Join(c) => c in s.callers && s.callers[c].Missed?
    case FetchOk(_) => s.running && s.flights != [] && Current(s).failed.None?
    case FetchFails => s.running && s.flights != [] && Current(s).failed.None?
    case FlightEnds => s.running && s.flights != [] && Current(s).failed.Some?
    case Deliver(c) =>
      c in s.callers && s.callers[c].Waiting? && s.callers[c].flight < |s.flights| &&
      s.flights[s.callers[c].flight].done.Some? && s.flights[s.callers[c].flight].failed.Some?
    case Reread(c) => c in s.callers && s.callers[c].Reading?
    case Background(_) => true
  }

  // An event that cannot happen now changes nothing.
  function Apply(ttl: int, s: State, e: Event): State {
    if !Enabled(s, e) then s else
    match e
    case Advance(to) => s.(now := to)
    case Call(c) => Put(s, c, Checking)
    case Check(c) =>
      if s.cache.Some? && Fresh(ttl, s.cache.value, s.now)
      then Put(s, c, Returned(Snapshot(s.cache.value, s.cache, s.now, s.now)))
      else Put(s, c, Missed(s.cache, s.now))
    case Join(c) => Board(s, c, s.callers[c].seen, s.callers[c].checked)
    case FetchOk(items) => UpdateFlight(Store(s, items), Current(s).(failed := Some(false)))
    case FetchFails => UpdateFlight(s, Current(s).(failed := Some(!Current(s).hasCache)))
    case FlightEnds => UpdateFlight(s, Current(s).(done := Some(s.now))).(running := false)
    case Deliver(c) =>
      var k := s.callers[c];
      if !s.flights[k.flight].failed.value then Put(s, c, Reading(k.seen, k.checked))
      else if k.seen.Some? then Put(s, c, Returned(Snapshot(k.seen.value, k.seen, k.checked, s.now)))
      else Put(s, c, Returned(Failure(k.seen, k.flight)))
    case Reread(c) =>
      var k := s.callers[c];
      if s.cache.Some? then Put(s, c, Returned(Snapshot(s.cache.value, k.seen, k.checked, s.now)))
      else if k.seen.Some? then Put(s, c, Returned(Snapshot(k.seen.value, k.seen, k.checked, s.now)))
      else Put(s, c, Returned(Nothing))
    case Background(items) => Store(s, items)
  }

  const INIT := State(0, None, [], [], false, map[])

  function Exec(ttl: int, es: seq<Event>): State {
    if es == [] then INIT else Apply(ttl, Exec(ttl, es[..|es| - 1]), es[|es| - 1])
  }

  // ---- What every run keeps ----

  // The entry is one that was written, items and time together.
  ghost predicate Written(s: State, e: Entry) {
    e in s.writes
  }

  ghost predicate CacheInv(s: State) {
    && (s.cache.Some? <==> s.writes != [])
    && (s.cache.Some? ==> s.cache.value == s.writes[|s.writes| - 1])
    && (forall i, j :: 0 <= i <= j < |s.writes| ==> s.writes[i].fetched <= s.writes[j].fetched)
    && (forall i :: 0 <= i < |s.writes| ==> s.writes[i].fetched <= s.now)
  }

  // A flight without an error leaves something in the cache; only the last one can be running.
  ghost predicate FlightInv(s: State) {
    && (s.running ==> s.flights != [])
    && (forall f :: 0 <= f < |s.flights| ==>
          (s.flights[f].done.None? <==> s.running && f == |s.flights| - 1))
    && (forall f :: 0 <= f < |s.flights| ==> (s.flights[f].hasCache ==> s.cache.Some?))
    && (forall f :: 0 <= f < |s.flights| && s.flights[f].failed == Some(false) ==> s.cache.Some?)
    && (forall f :: 0 <= f < |s.flights| && s.flights[f].done.Some? ==> s.flights[f].done.value <= s.now)
  }

  // A fetch attempt ended between the two moments.
  ghost predicate Attempted(s: State, from: nat, to: nat) {
    exists f :: 0 <= f < |s.flights| && s.flights[f].done.Some? && from <= s.flights[f].done.value <= to
  }

  ghost predicate Seen(s: State, seen: Option<Entry>, checked: nat) {
    checked <= s.now && (seen.Some? ==> Written(s, seen.value) && seen.value.fetched <= checked)
  }

  ghost predicate AnswerInv(ttl: int, s: State, a: Answer) {
    match a
    case Snapshot(e, seen, checked, at) =>
      && Seen(s, seen, checked) && checked <= at <= s.now && Written(s, e)
      && ((seen == Some(e) && (ttl <= 0 || checked <= e.fetched + ttl) && at == checked) || Attempted(s, checked, at))
      && (seen.Some? ==> seen.value.fetched <= e.fetched)
    case Failure(seen, f) =>
      seen.None? && f < |s.flights| && s.flights[f].done.Some? && s.flights[f].failed == Some(true)
    case Nothing => false
  }

  ghost predicate CallerInv(ttl: int, s: State, k: Caller) {
    match k
    case Checking => true
    case Missed(seen, checked) => Seen(s, seen, checked)
    case Waiting(seen, checked, f) =>
      && Seen(s, seen, checked) && f < |s.flights|
      && (s.flights[f].done.Some? ==> checked <= s.flights[f].done.value)
    case Reading(seen, checked) => Seen(s, seen, checked) && s.cache.Some? && Attempted(s, checked, s.now)
    case Returned(a) => AnswerInv(ttl, s, a)
  }

  ghost predicate Inv(ttl: int, s: State) {
    CacheInv(s) && FlightInv(s) && forall c :: c in s.callers ==> CallerInv(ttl, s, s.callers[c])
  }

  // What is already known about a caller survives when time passes, writes are added and flights end.
  ghost predicate Grows(s: State, t: State) {
    && s.now <= t.now && s.writes <= t.writes && (s.cache.Some? ==> t.cache.Some?)
    && |s.flights| <= |t.flights|
    && (forall f :: 0 <= f < |s.flights| ==>
          t.flights[f].done == s.flights[f].done || (s.flights[f].done.None? && t.flights[f].done == Some(s.now)))
    && (forall f :: 0 <= f < |s.flights| && s.flights[f].done.Some? ==> t.flights[f] == s.flights[f])
  }

  lemma AttemptedGrows(s: State, t: State, from: nat, to: nat)
    requires Grows(s, t) && Attempted(s, from, to)
    ensures Attempted(t, from, to)
  {
    var f :| 0 <= f < |s.flights| && s.flights[f].done.Some? && from <= s.flights[f].done.value <= to;
    assert t.flights[f].done == s.flights[f].done;
  }

  lemma SeenGrows(s: State, t: State, seen: Option<Entry>, checked: nat)
    requires Grows(s, t) && Seen(s, seen, checked)
    ensures Seen(t, seen, checked)
  {
  }

  lemma CallerGrows(ttl: int, s: State, t: State, k: Caller)
    requires Grows(s, t) && CallerInv(ttl, s, k)
    ensures CallerInv(ttl, t, k)
  {
    match k {
      case Checking =>
      case Missed(seen, checked) => SeenGrows(s, t, seen, checked);
      case Waiting(seen, checked, f) => SeenGrows(s, t, seen, checked);
      case Reading(seen, checked) =>
        SeenGrows(s, t, seen, checked);
        AttemptedGrows(s, t, checked, s.now);
        var f :| 0 <= f < |t.flights| && t.flights[f].done.Some? && checked <= t.flights[f].done.value <= s.now;
      case Returned(a) =>
        if a.Snapshot? {
          SeenGrows(s, t, a.seen, a.checked);
          if Attempted(s, a.checked, a.at) {
            AttemptedGrows(s, t, a.checked, a.at);
          }
        }
    }
  }

  lemma OthersGrow(ttl: int, s: State, t: State, c: nat)
    requires Inv(ttl, s) && Grows(s, t) && CacheInv(t) && FlightInv(t)
    requires t.callers.Keys <= s.callers.Keys + {c}
    requires forall d :: d in t.callers && d != c ==> t.callers[d] == s.callers[d]
    requires c in t.callers ==> CallerInv(ttl, t, t.callers[c]) || (c in s.callers && t.callers[c] == s.callers[c])
    ensures Inv(ttl, t)
  {
    forall d | d in t.callers ensures CallerInv(ttl, t, t.callers[d]) {
      if d in s.callers && t.callers[d] == s.callers[d] {
        CallerGrows(ttl, s, t, s.callers[d]);
      }
    }
  }

  lemma CheckKeepsInv(ttl: int, s: State, c: nat)
    requires Inv(ttl, s) && Enabled(s, Check(c))
    ensures Inv(ttl, Apply(ttl, s, Check(c)))
  {
    OthersGrow(ttl, s, Apply(ttl, s, Check(c)), c);
  }

  lemma JoinKeepsInv(ttl: int, s: State, c: nat)
    requires Inv(ttl, s) && Enabled(s, Join(c))
    ensures Inv(ttl, Apply(ttl, s, Join(c)))
  {
    assert CallerInv(ttl, s, s.callers[c]);
    OthersGrow(ttl, s, Apply(ttl, s, Join(c)), c);
  }

  lemma FlightKeepsInv(ttl: int, s: State, e: Event)
    requires Inv(ttl, s) && (e.FetchOk? || e.FetchFails? || e.FlightEnds?) && Enabled(s, e)
    ensures Inv(ttl, Apply(ttl, s, e))
  {
    OthersGrow(ttl, s, Apply(ttl, s, e), 0);
  }

  // The result of a flight that ended leaves the caller that waited for it as promised.
  lemma DeliverIsRight(ttl: int, s: State, c: nat)
    requires Inv(ttl, s) && Enabled(s, Deliver(c))
    ensures CallerInv(ttl, s, Apply(ttl, s, Deliver(c)).callers[c])
  {
    var k := s.callers[c];
    assert CallerInv(ttl, s, k);
    assert Attempted(s, k.checked, s.now) by {
      assert s.flights[k.flight].done.Some?;
    }
  }

  lemma {:induction false} DeliverKeepsInv(ttl: int, s: State, c: nat)
    requires Inv(ttl, s) && Enabled(s, Deliver(c))
    ensures Inv(ttl, Apply(ttl, s, Deliver(c)))
  {
    var t := Apply(ttl, s, Deliver(c));
    DeliverIsRight(ttl, s, c);
    CallerGrows(ttl, s, t, t.callers[c]);
    OthersGrow(ttl, s, t, c);
  }

  lemma RereadKeepsInv(ttl: int, s: State, c: nat)
    requires Inv(ttl, s) && Enabled(s, Reread(c))
    ensures Inv(ttl, Apply(ttl, s, Reread(c)))
  {
    var t := Apply(ttl, s, Reread(c));
    var k := s.callers[c];
    assert CallerInv(ttl, s, k);
    AttemptedGrows(s, t, k.checked, s.now);
    assert Written(t, s.cache.value);
    OthersGrow(ttl, s, t, c);
  }

  lemma QuietKeepsInv(ttl: int, s: State, e: Event)
    requires Inv(ttl, s) && (e.Advance? || e.Call? || e.Background?) && Enabled(s, e)
    ensures Inv(ttl, Apply(ttl, s, e))
  {
    OthersGrow(ttl, s, Apply(ttl, s, e), if e.Call? then e.c else 0);
  }

  lemma {:induction false} RunsKeepInv(ttl: int, es: seq<Event>)
    ensures Inv(ttl, Exec(ttl, es))
  {
    if es != [] {
      var s, e := Exec(ttl, es[..|es| - 1]), es[|es| - 1];
      RunsKeepInv(ttl, es[..|es| - 1]);
      if Enabled(s, e) {
        match e {
          case Check(c) => CheckKeepsInv(ttl, s, c);
          case Join(c) => JoinKeepsInv(ttl, s, c);
          case FetchOk(_) => FlightKeepsInv(ttl, s, e);
          case FetchFails => FlightKeepsInv(ttl, s, e);
          case FlightEnds => FlightKeepsInv(ttl, s, e);
          case Deliver(c) => DeliverKeepsInv(ttl, s, c);
          case Reread(c) => RereadKeepsInv(ttl, s, c);
          case _ => QuietKeepsInv(ttl, s, e);
        }
      }
    }
  }

  // Main result: in every run, a caller that returns gets an entry exactly as one write stored it,
  // never older than what it saw itself, which was within the TTL when checked or follows a fetch
  // attempt that ended after the check; it gets an error only if it saw no entry and the flight it
  // waited for failed; and the last return, which maps no entry and gives no error, is never reached.
  lemma AnswersAreCoherent(ttl: int, es: seq<Event>, c: nat)
    requires var s := Exec(ttl, es); c in s.callers && s.callers[c].Returned?
    ensures var s := Exec(ttl, es); AnswerInv(ttl, s, s.callers[c].answer)
  {
    RunsKeepInv(ttl, es);
  }

  // ---- What single steps do ----

  // A caller is answered at once exactly if the cache has an entry within the TTL; otherwise it goes on
  // to a flight, the one under way if there is one.
  lemma CheckAnswersAtOnce(ttl: int, s: State, c: nat)
    requires c in s.callers && s.callers[c].Checking?
    ensures var t := Apply(ttl, s, Check(c));
            && t.cache == s.cache && c in t.callers
            && (t.callers[c].Returned? <==> s.cache.Some? && (ttl <= 0 || s.now <= s.cache.value.fetched + ttl))
            && (t.callers[c].Returned? ==> t.callers[c].answer == Snapshot(s.cache.value, s.cache, s.now, s.now))
            && (!t.callers[c].Returned? ==> t.callers[c] == Missed(s.cache, s.now))
  {
  }

  lemma JoinSharesFlight(ttl: int, s: State, c: nat)
    requires Inv(ttl, s) && c in s.callers && s.callers[c].Missed?
    ensures var t := Apply(ttl, s, Join(c));
            && t.running && c in t.callers && t.callers[c].Waiting? && t.callers[c].flight == |t.flights| - 1
            && |t.flights| == |s.flights| + (if s.running then 0 else 1)
            && (!s.running ==> Current(t).hasCache == s.callers[c].seen.Some?)
  {
  }

  // A fetch that succeeds, in a flight or in the background, replaces the entry by what it found now; one
  // that fails leaves it, and fails the flight exactly if the caller that started it had no entry.
  lemma FetchReplaces(ttl: int, s: State, items: seq<Item>)
    requires FlightInv(s)
    ensures Apply(ttl, s, Background(items)).cache == Some(Entry(items, s.now))
    ensures s.running && Current(s).failed.None? ==>
              var ok, bad := Apply(ttl, s, FetchOk(items)), Apply(ttl, s, FetchFails);
              && ok.cache == Some(Entry(items, s.now)) && Current(ok).failed == Some(false)
              && bad.cache == s.cache && Current(bad).failed == Some(!Current(s).hasCache)
  {
  }

  // ---- From an entry to the snapshot shown ----

  datatype Shown = Shown(items: map<string, Item>, ageSeconds: int, stale: bool)

  const SECOND: nat := 1_000_000_000

  function ByName(items: seq<Item>): map<string, Item> {
    if items == [] then map[] else ByName(items[..|items| - 1])[items[|items| - 1].name := items[|items| - 1]]
  }

  method MapMetricsSnapshot(items: seq<Item>, fetched: nat, now: nat, staleSeconds: int) returns (r: Option<Shown>)
    requires fetched <= now
    ensures r.None? <==> items == []
    ensures r.Some? ==>
              && r.value.items == ByName(items)
              && r.value.ageSeconds * SECOND <= now - fetched < (r.value.ageSeconds + 1) * SECOND
              && (r.value.stale <==> staleSeconds > 0 && now - fetched >= staleSeconds * SECOND)
  {
    if |items| == 0 {
      return None;
    }
    var out: map<string, Item> := map[];
    for k := 0 to |items|
      invariant out == ByName(items[..k])
    {
      assert items[..k + 1][..k] == items[..k];
      out := out[items[k].name := items[k]];
    }
    assert items[..|items|] == items;
    var ageSeconds := (now - fetched) / SECOND;
    var stale := staleSeconds > 0 && ageSeconds >= staleSeconds;
    r := Some(Shown(out, ageSeconds, stale));
  }

  // What the caller holds in the end: an entry without items is mapped to nil, and nil without an
  // error is also what the last return gives.
  datatype Outcome = Data(items: map<string, Item>, fetched: nat) | Nil | Err

  function ToCaller(a: Answer): Outcome {
    match a
    case Snapshot(e, _, _, _) => if e.items == [] then Nil else Data(ByName(e.items), e.fetched)
    case Failure(_, _) => Err
    case Nothing => Nil
  }

  // In every run a caller gets nil without an error exactly when the entry it was answered with was
  // written without items.
  lemma NilMeansNoItems(ttl: int, es: seq<Event>, c: nat)
    requires var s := Exec(ttl, es); c in s.callers && s.callers[c].Returned?
    ensures var s := Exec(ttl, es); var a := s.callers[c].answer;
            && (ToCaller(a).Nil? <==> a.Snapshot? && a.entry.items == [])
            && (ToCaller(a).Nil? ==> Entry([], a.entry.fetched) in s.writes)
            && (ToCaller(a).Data? ==>
                  exists e :: e in s.writes && e.items != [] && ToCaller(a) == Data(ByName(e.items), e.fetched))
  {
    AnswersAreCoherent(ttl, es, c);
  }

  // The last item of a name wins, and nothing is invented.
  lemma {:induction false} LastItemWins(items: seq<Item>, name: string)
    ensures name in ByName(items) <==> exists k :: 0 <= k < |items| && items[k].name == name
    ensures name in ByName(items) ==>
              exists k :: 0 <= k < |items| && items[k] == ByName(items)[name] && items[k].name == name &&
                          forall j :: k < j < |items| ==> items[j].name != name
  {
    if items != [] {
      var n := |items| - 1;
      LastItemWins(items[..n], name);
      if items[n].name == name {
        assert items[n] == ByName(items)[name];
      } else if name in ByName(items) {
        var k :| 0 <= k < n && items[..n][k] == ByName(items[..n])[name] && items[..n][k].name == name &&
                 forall j :: k < j < n ==> items[..n][j].name != name;
        assert items[k] == ByName(items)[name];
        assert forall j :: k < j < n ==> items[j] == items[..n][j];
      }
    }
  }
}
