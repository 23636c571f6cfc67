/**
  The guard against redirect loops at sign-in (frontend/components/AuthGuard.tsx,
  consumeRedirectAttempt and resetRedirectTracker).  Times are milliseconds.
 */
module RedirectGuard {
  import opened Wrappers

  const REDIRECT_WINDOW_MS: int := 120_000
  const MAX_REDIRECTS_IN_WINDOW: int := 3

  datatype Tracker = Tracker(windowStart: int, count: int)

  // The tracker after one more attempt; `stored` is what session storage held, if readable.
  function Next(stored: Option<Tracker>, now: int): Tracker {
    var t := if stored.Some? then stored.value else Tracker(now, 0);
    var u := if now - t.windowStart > REDIRECT_WINDOW_MS then Tracker(now, 0) else t;
    u.(count := u.count + 1)
  }

  predicate Permits(t: Tracker) {
    t.count <= MAX_REDIRECTS_IN_WINDOW
  }

  class Guard {
    var stored: Option<Tracker>

    constructor ()
      ensures stored == None
    {
      stored := None;
    }

    method Reset()
      modifies this
      ensures stored == None
    {
      stored := None;
    }

    // `writable` says whether session storage accepts the new tracker.
    method ConsumeRedirectAttempt(now: int, writable: bool) returns (permitted: bool)
      modifies this
      ensures permitted == Permits(Next(old(stored), now))
      ensures stored == if writable then Some(Next(old(stored), now)) else old(stored)
    {
      var tracker := Tracker(now, 0);
      if stored.Some? {
        tracker := stored.value;
      }
      if now - tracker.windowStart > REDIRECT_WINDOW_MS {
        tracker := Tracker(now, 0);
      }
      tracker := tracker.(count := tracker.count + 1);
      if writable {
        stored := Some(tracker);
      }
      permitted := tracker.count <= MAX_REDIRECTS_IN_WINDOW;
    }
  }

  // ---- Runs between two resets ----

  ghost predicate Times(times: seq<int>) {
    forall i, j :: 0 <= i <= j < |times| ==> times[i] <= times[j]
  }

  // The tracker after attempt `k`.
  function After(times: seq<int>, k: nat): Tracker
    requires k < |times|
  {
    Next(if k == 0 then None else Some(After(times, k - 1)), times[k])
  }

  predicate Permitted(times: seq<int>, k: nat)
    requires k < |times|
  {
    Permits(After(times, k))
  }

  // Attempts permitted among those numbered from `i` up to but not including `j`.
  function Count(times: seq<int>, i: nat, j: nat): nat
    requires i <= j <= |times|
  {
    if i == j then 0 else Count(times, i, j - 1) + (if Permitted(times, j - 1) then 1 else 0)
  }

  // The tracker counts the attempts since the one that opened its window.
  lemma {:induction false} WindowOf(times: seq<int>, k: nat) returns (first: nat)
    requires Times(times) && k < |times|
    ensures first <= k && After(times, k) == Tracker(times[first], k - first + 1)
    ensures times[k] - times[first] <= REDIRECT_WINDOW_MS
    ensures forall j :: first <= j <= k ==> After(times, j) == Tracker(times[first], j - first + 1)
    ensures first > 0 ==> times[first] - After(times, first - 1).windowStart > REDIRECT_WINDOW_MS
    decreases k
  {
    first := k;
    if k > 0 {
      var f := WindowOf(times, k - 1);
      if times[k] - times[f] <= REDIRECT_WINDOW_MS {
        first := f;
      }
    }
  }

  // In one window only the first three attempts are permitted.
  lemma {:induction false} CountInWindow(times: seq<int>, first: nat, i: nat, j: nat)
    requires Times(times) && first <= i <= j <= |times|
    requires forall k :: i <= k < j ==> After(times, k) == Tracker(times[first], k - first + 1)
    ensures Count(times, i, j) <= if i - first >= 3 then 0 else 3 - (i - first)
    ensures Count(times, i, j) <= j - i
    ensures j - first <= 3 ==> Count(times, i, j) == j - i
    ensures j - first > 3 && i - first <= 3 ==> Count(times, i, j) == 3 - (i - first)
    decreases j - i
  {
    if i < j {
      CountInWindow(times, first, i, j - 1);
    }
  }

  lemma {:induction false} CountSplits(times: seq<int>, i: nat, m: nat, j: nat)
    requires i <= m <= j <= |times|
    ensures Count(times, i, j) == Count(times, i, m) + Count(times, m, j)
    decreases j - m
  {
    if m < j {
      CountSplits(times, i, m, j - 1);
    }
  }

  // Each window permits at most three attempts, and exactly its first three.
  lemma WindowPermitsThree(times: seq<int>, k: nat) returns (first: nat)
    requires Times(times) && k < |times|
    ensures first <= k && Count(times, first, k + 1) == if k - first < 3 then k - first + 1 else 3
    ensures Permitted(times, k) <==> k - first < 3
    ensures times[k] - times[first] <= REDIRECT_WINDOW_MS
  {
    first := WindowOf(times, k);
    CountInWindow(times, first, first, k + 1);
  }

  // If a new window opens inside the interval, the window before it opened before the interval.
  lemma AtMostTwoLeftOver(times: seq<int>, i: nat, f: nat, j: nat)
    requires Times(times) && i < f <= j < |times| && times[j] - times[i] <= REDIRECT_WINDOW_MS
    requires times[f] - After(times, f - 1).windowStart > REDIRECT_WINDOW_MS
    ensures Count(times, i, f) <= 2
  {
    var g := WindowOf(times, f - 1);
    assert times[f] <= times[j];
    assert g < i;
    CountInWindow(times, g, i, f);
  }

  // Main result: any closed interval of the window length has at most five permitted attempts.
  lemma IntervalPermitsFive(times: seq<int>, i: nat, j: nat)
    requires Times(times) && i <= j < |times| && times[j] - times[i] <= REDIRECT_WINDOW_MS
    ensures Count(times, i, j + 1) <= 5
  {
    var f := WindowOf(times, j);
    if f <= i {
      CountInWindow(times, f, i, j + 1);
    } else {
      AtMostTwoLeftOver(times, i, f, j);
      CountInWindow(times, f, f, j + 1);
      CountSplits(times, i, f, j + 1);
    }
  }

  // Five is reached: two late attempts of one window and three of the next.
  lemma FiveIsReached()
    ensures var times := [0, REDIRECT_WINDOW_MS, REDIRECT_WINDOW_MS, REDIRECT_WINDOW_MS + 1,
                          REDIRECT_WINDOW_MS + 1, REDIRECT_WINDOW_MS + 1];
            Times(times) && times[5] - times[1] <= REDIRECT_WINDOW_MS && Count(times, 1, 6) == 5
  {
    var w := REDIRECT_WINDOW_MS;
    var times := [0, w, w, w + 1, w + 1, w + 1];
    assert After(times, 0) == Tracker(0, 1);
    assert After(times, 1) == Tracker(0, 2);
    assert After(times, 2) == Tracker(0, 3);
    assert After(times, 3) == Tracker(w + 1, 1);
    assert After(times, 4) == Tracker(w + 1, 2);
    assert After(times, 5) == Tracker(w + 1, 3);
    assert Count(times, 1, 3) == 2 by { assert Count(times, 1, 2) == 1; }
    assert Count(times, 1, 5) == 4 by { assert Count(times, 1, 4) == 3; }
  }

  // ---- When session storage refuses writes ----

  // What session storage holds before attempt `k` if only some writes are accepted.
  function StoredBefore(times: seq<int>, writable: seq<bool>, k: nat): Option<Tracker>
    requires k <= |times| == |writable|
  {
    if k == 0 then None
    else
      var before := StoredBefore(times, writable, k - 1);
      if writable[k - 1] then Some(Next(before, times[k - 1])) else before
  }

  // With every write accepted this is the run above.
  lemma {:induction false} WritableRun(times: seq<int>, writable: seq<bool>, k: nat)
    requires k <= |times| == |writable| && forall i :: 0 <= i < k ==> writable[i]
    ensures StoredBefore(times, writable, k) == if k == 0 then None else Some(After(times, k - 1))
  {
    if k > 0 {
      WritableRun(times, writable, k - 1);
    }
  }

  // The tracker that attempt `k` computes, stored or not.
  function TrackerAt(times: seq<int>, writable: seq<bool>, k: nat): Tracker
    requires k < |times| == |writable|
  {
    Next(StoredBefore(times, writable, k), times[k])
  }

  // The accepted write that opened the stored window, found from the times and the writes alone.
  function Opener(times: seq<int>, writable: seq<bool>, k: nat): (o: Option<nat>)
    requires k <= |times| == |writable|
    ensures o.Some? ==> o.value < k && writable[o.value]
  {
    if k == 0 then None
    else
      var o := Opener(times, writable, k - 1);
      if writable[k - 1] && Lapsed(times, o, times[k - 1]) then Some(k - 1) else o
  }

  // No window is stored, or it is over.
  predicate Lapsed(times: seq<int>, opener: Option<nat>, now: int)
    requires opener.Some? ==> opener.value < |times|
  {
    opener.None? || now - times[opener.value] > REDIRECT_WINDOW_MS
  }

  // Writes accepted among the attempts numbered from `i` up to but not including `j`.
  function Accepted(writable: seq<bool>, i: nat, j: nat): nat
    requires i <= j <= |writable|
  {
    if i == j then 0 else Accepted(writable, i, j - 1) + (if writable[j - 1] then 1 else 0)
  }

  lemma {:induction false} StoredSinceOpener(times: seq<int>, writable: seq<bool>, k: nat)
    requires k <= |times| == |writable|
    ensures var o := Opener(times, writable, k);
            StoredBefore(times, writable, k) ==
              if o.None? then None else Some(Tracker(times[o.value], Accepted(writable, o.value, k)))
  {
    if k > 0 {
      StoredSinceOpener(times, writable, k - 1);
      assert Accepted(writable, k - 1, k - 1) == 0;
    }
  }

  // Which attempts are permitted, whatever writes are refused: those that find no window or one that
  // is over, and those before the third accepted write of the window they find.
  lemma PermittedIffRoom(times: seq<int>, writable: seq<bool>, k: nat)
    requires k < |times| == |writable|
    ensures var o := Opener(times, writable, k);
            Permits(TrackerAt(times, writable, k)) <==>
              Lapsed(times, o, times[k]) || Accepted(writable, o.value, k) < MAX_REDIRECTS_IN_WINDOW
  {
    StoredSinceOpener(times, writable, k);
  }

  // The start of the window that attempt `k` counts towards.
  function WindowStart(times: seq<int>, writable: seq<bool>, k: nat): int
    requires k < |times| == |writable|
  {
    var o := Opener(times, writable, k);
    if Lapsed(times, o, times[k]) then times[k] else times[o.value]
  }

  // Of the first `k` attempts, those in the window that starts at `t`: how many there are, how many
  // of their writes were accepted, and how many were permitted.
  function AttemptsIn(times: seq<int>, writable: seq<bool>, t: int, k: nat): nat
    requires k <= |times| == |writable|
  {
    if k == 0 then 0
    else AttemptsIn(times, writable, t, k - 1) + (if WindowStart(times, writable, k - 1) == t then 1 else 0)
  }

  function AcceptedIn(times: seq<int>, writable: seq<bool>, t: int, k: nat): nat
    requires k <= |times| == |writable|
  {
    if k == 0 then 0
    else AcceptedIn(times, writable, t, k - 1)
         + (if WindowStart(times, writable, k - 1) == t && writable[k - 1] then 1 else 0)
  }

  function PermittedIn(times: seq<int>, writable: seq<bool>, t: int, k: nat): nat
    requires k <= |times| == |writable|
  {
    if k == 0 then 0
    else PermittedIn(times, writable, t, k - 1)
         + (if WindowStart(times, writable, k - 1) == t && Permits(TrackerAt(times, writable, k - 1)) then 1 else 0)
  }

  lemma {:induction false} StoredCountsItsWindow(times: seq<int>, writable: seq<bool>, t: int, k: nat)
    requires Times(times) && k <= |times| == |writable|
    ensures var o := Opener(times, writable, k);
            if o.None? || t > times[o.value] then AcceptedIn(times, writable, t, k) == 0
            else t == times[o.value] ==> AcceptedIn(times, writable, t, k) == Accepted(writable, o.value, k)
  {
    if k > 0 {
      StoredCountsItsWindow(times, writable, t, k - 1);
      assert Accepted(writable, k - 1, k - 1) == 0;
    }
  }

  // An attempt is permitted exactly when fewer than three writes of its window were accepted before.
  lemma PermittedIffWindowHasRoom(times: seq<int>, writable: seq<bool>, k: nat)
    requires Times(times) && k < |times| == |writable|
    ensures Permits(TrackerAt(times, writable, k)) <==>
              AcceptedIn(times, writable, WindowStart(times, writable, k), k) < MAX_REDIRECTS_IN_WINDOW
  {
    PermittedIffRoom(times, writable, k);
    StoredCountsItsWindow(times, writable, WindowStart(times, writable, k), k);
  }

  // Attempt `k` is among the first three of the window.
  predicate IsEarly(times: seq<int>, writable: seq<bool>, t: int, k: nat)
    requires k < |times| == |writable|
  {
    WindowStart(times, writable, k) == t && AttemptsIn(times, writable, t, k) < MAX_REDIRECTS_IN_WINDOW
  }

  // The writes of the first three attempts of the window were accepted.
  ghost predicate FirstThreeAccepted(times: seq<int>, writable: seq<bool>, t: int)
    requires |times| == |writable|
  {
    forall k {:trigger IsEarly(times, writable, t, k)} ::
      0 <= k < |times| && IsEarly(times, writable, t, k) ==> writable[k]
  }

  lemma {:induction false} EarlyWritesCount(times: seq<int>, writable: seq<bool>, t: int, k: nat)
    requires k <= |times| == |writable| && FirstThreeAccepted(times, writable, t)
    ensures AttemptsIn(times, writable, t, k) < MAX_REDIRECTS_IN_WINDOW ==>
              AcceptedIn(times, writable, t, k) >= AttemptsIn(times, writable, t, k)
    ensures AttemptsIn(times, writable, t, k) >= MAX_REDIRECTS_IN_WINDOW ==>
              AcceptedIn(times, writable, t, k) >= MAX_REDIRECTS_IN_WINDOW
  {
    if k > 0 {
      EarlyWritesCount(times, writable, t, k - 1);
      assert IsEarly(times, writable, t, k - 1) ==> writable[k - 1];
    }
  }

  // A window that counted its first three attempts permits no fourth.
  lemma BoundStep(times: seq<int>, writable: seq<bool>, t: int, k: nat)
    requires Times(times) && k < |times| == |writable|
    requires PermittedIn(times, writable, t, k) <= MAX_REDIRECTS_IN_WINDOW
    requires PermittedIn(times, writable, t, k) >= MAX_REDIRECTS_IN_WINDOW ==>
               AcceptedIn(times, writable, t, k) >= MAX_REDIRECTS_IN_WINDOW
    ensures PermittedIn(times, writable, t, k + 1) <= MAX_REDIRECTS_IN_WINDOW
  {
    PermittedIffWindowHasRoom(times, writable, k);
  }

  lemma {:induction false} AcceptedWindowIsBounded(times: seq<int>, writable: seq<bool>, t: int, k: nat)
    requires Times(times) && k <= |times| == |writable| && FirstThreeAccepted(times, writable, t)
    ensures PermittedIn(times, writable, t, k) <= MAX_REDIRECTS_IN_WINDOW
  {
    if k > 0 {
      AcceptedWindowIsBounded(times, writable, t, k - 1);
      EarlyWritesCount(times, writable, t, k - 1);
      PermittedAreAttempts(times, writable, t, k - 1);
      BoundStep(times, writable, t, k - 1);
    }
  }

  lemma {:induction false} PermittedAreAttempts(times: seq<int>, writable: seq<bool>, t: int, k: nat)
    requires k <= |times| == |writable|
    ensures PermittedIn(times, writable, t, k) <= AttemptsIn(times, writable, t, k) <= k
  {
    if k > 0 {
      PermittedAreAttempts(times, writable, t, k - 1);
    }
  }

  // A refused write among the first three lets the fourth attempt through.
  lemma {:induction false} RefusedWriteLetsFourThrough(times: seq<int>, writable: seq<bool>, t: int, m: nat, k: nat)
    requires Times(times) && k <= |times| == |writable| && m < |times| && !writable[m]
    requires IsEarly(times, writable, t, m)
    ensures AcceptedIn(times, writable, t, k) <= AttemptsIn(times, writable, t, k) - (if m < k then 1 else 0)
    ensures k <= m ==> AttemptsIn(times, writable, t, k) <= AttemptsIn(times, writable, t, m)
    ensures PermittedIn(times, writable, t, k) >= AttemptsIn(times, writable, t, k)
            || PermittedIn(times, writable, t, k) > MAX_REDIRECTS_IN_WINDOW
    decreases k
  {
    if k > 0 {
      RefusedWriteLetsFourThrough(times, writable, t, m, k - 1);
      PermittedIffWindowHasRoom(times, writable, k - 1);
      if k <= m {
        AttemptsGrow(times, writable, t, k, m);
      }
    }
  }

  lemma {:induction false} AttemptsGrow(times: seq<int>, writable: seq<bool>, t: int, i: nat, j: nat)
    requires i <= j <= |times| == |writable|
    ensures AttemptsIn(times, writable, t, i) <= AttemptsIn(times, writable, t, j)
    decreases j
  {
    if i < j {
      AttemptsGrow(times, writable, t, i, j - 1);
    }
  }

  // A window permits at most three attempts exactly when it has no more than three or the writes of
  // its first three were accepted.
  lemma WindowBoundIff(times: seq<int>, writable: seq<bool>, t: int)
    requires Times(times) && |times| == |writable|
    ensures PermittedIn(times, writable, t, |times|) <= MAX_REDIRECTS_IN_WINDOW <==>
              AttemptsIn(times, writable, t, |times|) <= MAX_REDIRECTS_IN_WINDOW
              || FirstThreeAccepted(times, writable, t)
  {
    PermittedAreAttempts(times, writable, t, |times|);
    if FirstThreeAccepted(times, writable, t) {
      AcceptedWindowIsBounded(times, writable, t, |times|);
    } else {
      var m :| 0 <= m < |times| && IsEarly(times, writable, t, m) && !writable[m];
      RefusedWriteLetsFourThrough(times, writable, t, m, |times|);
    }
  }

  ghost predicate ThreePerWindow(times: seq<int>, writable: seq<bool>)
    requires |times| == |writable|
  {
    forall t :: PermittedIn(times, writable, t, |times|) <= MAX_REDIRECTS_IN_WINDOW
  }

  // Attempts from number `first` on come after a pause that ends every window.
  function Paused(n: nat, first: nat): seq<int> {
    seq(n, k => if k < first then 0 else REDIRECT_WINDOW_MS + 1)
  }

  lemma {:induction false} LateAttempts(writable: seq<bool>, first: nat, k: nat)
    requires k <= |writable|
    ensures AttemptsIn(Paused(|writable|, first), writable, REDIRECT_WINDOW_MS + 1, k) ==
              if k <= first then 0 else k - first
  {
    if k > 0 {
      LateAttempts(writable, first, k - 1);
    }
  }

  // Main result about storage: no times at all make any window permit more than three attempts
  // exactly when there are no more than three attempts or every write but the last is accepted.
  lemma ThreePerWindowIffWritable(writable: seq<bool>)
    ensures (forall times :: Times(times) && |times| == |writable| ==> ThreePerWindow(times, writable)) <==>
              |writable| <= MAX_REDIRECTS_IN_WINDOW || forall k :: 0 <= k < |writable| - 1 ==> writable[k]
  {
    var n := |writable|;
    if n <= MAX_REDIRECTS_IN_WINDOW || forall k :: 0 <= k < n - 1 ==> writable[k] {
      forall times: seq<int>, t: int | Times(times) && |times| == n
        ensures PermittedIn(times, writable, t, n) <= MAX_REDIRECTS_IN_WINDOW
      {
        AllButLastSuffice(times, writable, t);
      }
    } else {
      var m :| 0 <= m < n - 1 && !writable[m];
      OneRefusalBreaks(writable, m);
    }
  }

  lemma AllButLastSuffice(times: seq<int>, writable: seq<bool>, t: int)
    requires Times(times) && |times| == |writable|
    requires |writable| <= MAX_REDIRECTS_IN_WINDOW || forall k :: 0 <= k < |writable| - 1 ==> writable[k]
    ensures PermittedIn(times, writable, t, |times|) <= MAX_REDIRECTS_IN_WINDOW
  {
    WindowBoundIff(times, writable, t);
    PermittedAreAttempts(times, writable, t, |times|);
  }

  lemma OneRefusalBreaks(writable: seq<bool>, m: nat)
    requires |writable| > MAX_REDIRECTS_IN_WINDOW && m < |writable| - 1 && !writable[m]
    ensures exists times :: Times(times) && |times| == |writable| && !ThreePerWindow(times, writable)
  {
    var first := if m <= |writable| - 4 then m else |writable| - 4;
    var times := Paused(|writable|, first);
    RefusalAfterPause(writable, first, m);
    assert !ThreePerWindow(times, writable);
  }

  lemma RefusalAfterPause(writable: seq<bool>, first: nat, m: nat)
    requires first <= m < |writable| && m - first < MAX_REDIRECTS_IN_WINDOW < |writable| - first && !writable[m]
    ensures var times := Paused(|writable|, first);
            |times| == |writable| && Times(times)
            && PermittedIn(times, writable, REDIRECT_WINDOW_MS + 1, |times|) > MAX_REDIRECTS_IN_WINDOW
  {
    var times, t := Paused(|writable|, first), REDIRECT_WINDOW_MS + 1;
    LateAttempts(writable, first, |writable|);
    LateAttempts(writable, first, m);
    assert IsEarly(times, writable, t, m);
    RefusedWriteLetsFourThrough(times, writable, t, m, |writable|);
  }

  // With no write accepted nothing is ever counted and every attempt is permitted.
  lemma UnwritableRunIsUnbounded(times: seq<int>, writable: seq<bool>, k: nat)
    requires k < |times| == |writable| && forall i :: 0 <= i < k ==> !writable[i]
    ensures Permits(TrackerAt(times, writable, k))
  {
    PermittedIffRoom(times, writable, k);
  }
}
