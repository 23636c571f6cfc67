/**
  How many redirects an interval of the window length permits when session storage refuses some
  writes (frontend/components/AuthGuard.tsx, consumeRedirectAttempt).
 */
module RedirectStorage {
  import opened RedirectGuard
  import opened Wrappers

  const MAX_IN_INTERVAL: int := 5

  predicate PermittedAt(times: seq<int>, writable: seq<bool>, k: nat)
    requires k < |times| == |writable|
  {
    Permits(TrackerAt(times, writable, k))
  }

  // Attempts permitted among those numbered from `i` up to but not including `j`.
  function PermittedBetween(times: seq<int>, writable: seq<bool>, i: nat, j: nat): nat
    requires i <= j <= |times| == |writable|
  {
    if i == j then 0
    else PermittedBetween(times, writable, i, j - 1) + (if PermittedAt(times, writable, j - 1) then 1 else 0)
  }

  ghost predicate FivePerInterval(times: seq<int>, writable: seq<bool>)
    requires |times| == |writable|
  {
    forall i, j :: 0 <= i <= j < |times| && times[j] - times[i] <= REDIRECT_WINDOW_MS ==>
      PermittedBetween(times, writable, i, j + 1) <= MAX_IN_INTERVAL
  }

  // ---- Counting ----

  lemma {:induction false} AcceptedSplits(writable: seq<bool>, i: nat, m: nat, j: nat)
    requires i <= m <= j <= |writable|
    ensures Accepted(writable, i, j) == Accepted(writable, i, m) + Accepted(writable, m, j)
    ensures Accepted(writable, m, j) <= j - m
    decreases j - m
  {
    if m < j {
      AcceptedSplits(writable, i, m, j - 1);
    }
  }

  lemma {:induction false} AllAccepted(writable: seq<bool>, i: nat, j: nat)
    requires i <= j <= |writable|
    ensures Accepted(writable, i, j) <= j - i
    ensures Accepted(writable, i, j) == j - i <==> forall k :: i <= k < j ==> writable[k]
    decreases j - i
  {
    if i < j {
      AllAccepted(writable, i, j - 1);
    }
  }

  lemma {:induction false} PermittedSplits(times: seq<int>, writable: seq<bool>, i: nat, m: nat, j: nat)
    requires i <= m <= j <= |times| == |writable|
    ensures PermittedBetween(times, writable, i, j) ==
              PermittedBetween(times, writable, i, m) + PermittedBetween(times, writable, m, j)
    ensures PermittedBetween(times, writable, m, j) <= j - m
    decreases j - m
  {
    if m < j {
      PermittedSplits(times, writable, i, m, j - 1);
    }
  }

  // Nothing is permitted from `x` on.
  lemma {:induction false} NoneAfter(times: seq<int>, writable: seq<bool>, i: nat, x: nat, j: nat)
    requires i <= x <= j <= |times| == |writable|
    requires forall k :: x <= k < j ==> !PermittedAt(times, writable, k)
    ensures PermittedBetween(times, writable, i, j) <= x - i
    decreases j - x
  {
    if x < j {
      NoneAfter(times, writable, i, x, j - 1);
    } else {
      PermittedSplits(times, writable, i, i, j);
    }
  }

  lemma {:induction false} AllPermitted(times: seq<int>, writable: seq<bool>, i: nat, j: nat)
    requires i <= j <= |times| == |writable|
    requires forall k :: i <= k < j ==> PermittedAt(times, writable, k)
    ensures PermittedBetween(times, writable, i, j) == j - i
    decreases j - i
  {
    if i < j {
      AllPermitted(times, writable, i, j - 1);
    }
  }

  // ---- What an attempt finds ----

  // After an attempt that finds no window, the window it finds next was opened since.
  lemma {:induction false} SinceLapse(times: seq<int>, writable: seq<bool>, f: nat, k: nat)
    requires Times(times) && f <= k < |times| == |writable| && times[k] - times[f] <= REDIRECT_WINDOW_MS
    requires Lapsed(times, Opener(times, writable, f), times[f])
    ensures var o := Opener(times, writable, k);
            if Accepted(writable, f, k) == 0 then o == Opener(times, writable, f)
            else o.Some? && f <= o.value && Accepted(writable, o.value, k) == Accepted(writable, f, k)
    decreases k
  {
    if f < k {
      SinceLapse(times, writable, f, k - 1);
      assert Accepted(writable, k - 1, k - 1) == 0;
    }
  }

  lemma PermittedSinceLapse(times: seq<int>, writable: seq<bool>, f: nat, k: nat)
    requires Times(times) && f <= k < |times| == |writable| && times[k] - times[f] <= REDIRECT_WINDOW_MS
    requires Lapsed(times, Opener(times, writable, f), times[f])
    ensures PermittedAt(times, writable, k) <==> Accepted(writable, f, k) < MAX_REDIRECTS_IN_WINDOW
  {
    SinceLapse(times, writable, f, k);
    PermittedIffRoom(times, writable, k);
  }

  // A window stays the stored one as long as it lasts.
  lemma {:induction false} WhileLive(times: seq<int>, writable: seq<bool>, g: nat, i: nat, k: nat)
    requires Times(times) && i <= k < |times| == |writable|
    requires Opener(times, writable, i) == Some(g) && times[k] - times[g] <= REDIRECT_WINDOW_MS
    ensures Opener(times, writable, k) == Some(g)
    decreases k
  {
    if i < k {
      WhileLive(times, writable, g, i, k - 1);
    }
  }

  lemma PermittedWhileLive(times: seq<int>, writable: seq<bool>, g: nat, i: nat, k: nat)
    requires Times(times) && i <= k < |times| == |writable|
    requires Opener(times, writable, i) == Some(g) && times[k] - times[g] <= REDIRECT_WINDOW_MS
    ensures g < i && (PermittedAt(times, writable, k) <==> Accepted(writable, g, k) < MAX_REDIRECTS_IN_WINDOW)
  {
    WhileLive(times, writable, g, i, k);
    PermittedIffRoom(times, writable, k);
  }

  // ---- The condition ----

  // Of five writes in a row that are not the last, none is refused if the one before them was
  // accepted, and at most two are refused otherwise.
  ghost predicate FewRefused(writable: seq<bool>) {
    forall a :: 0 <= a <= |writable| - 6 ==> FewRefusedAt(writable, a)
  }

  ghost predicate FewRefusedAt(writable: seq<bool>, a: nat)
    requires a + 6 <= |writable|
  {
    Accepted(writable, a, a + 5) >= if a > 0 && writable[a - 1] then 5 else 3
  }

  lemma {:induction false} AcceptedFromThere(writable: seq<bool>, g: nat)
    requires FewRefused(writable) && g + 7 <= |writable| && writable[g]
    ensures Accepted(writable, g, |writable| - 1) == |writable| - 1 - g
    decreases |writable| - g
  {
    assert FewRefusedAt(writable, g + 1);
    AllAccepted(writable, g + 1, g + 6);
    assert Accepted(writable, g, g + 1) == 1 by { assert Accepted(writable, g, g) == 0; }
    AcceptedSplits(writable, g, g + 1, |writable| - 1);
    if g + 8 <= |writable| {
      AcceptedFromThere(writable, g + 1);
    }
  }

  // Where all writes are accepted, those of a part are.
  lemma AcceptedInside(writable: seq<bool>, g: nat, i: nat, k: nat, m: nat)
    requires g <= i <= k <= m <= |writable| && Accepted(writable, g, m) == m - g
    ensures Accepted(writable, i, k) == k - i
  {
    AcceptedSplits(writable, g, i, m);
    AcceptedSplits(writable, i, k, m);
    AcceptedSplits(writable, g, g, i);
    AcceptedSplits(writable, i, i, k);
  }

  // The attempt finds a window that lasts.
  predicate Live(times: seq<int>, writable: seq<bool>, k: nat)
    requires k < |times| == |writable|
  {
    !Lapsed(times, Opener(times, writable, k), times[k])
  }

  ghost predicate LiveFrom(times: seq<int>, writable: seq<bool>, i: nat, f: nat)
    requires f <= |times| == |writable|
  {
    forall k {:trigger Live(times, writable, k)} :: i <= k < f ==> Live(times, writable, k)
  }

  // The first attempt from `i` on that finds no window, or the end of the interval.
  lemma {:induction false} FirstLapse(times: seq<int>, writable: seq<bool>, i: nat, j: nat) returns (f: nat)
    requires i <= j < |times| == |writable|
    ensures i <= f <= j + 1 && (f <= j ==> !Live(times, writable, f)) && LiveFrom(times, writable, i, f)
    decreases j - i
  {
    if !Live(times, writable, i) {
      f := i;
    } else if i == j {
      f := j + 1;
    } else {
      f := FirstLapse(times, writable, i + 1, j);
    }
  }

  // The part of an interval before the stored window lapses.
  lemma BeforeLapse(times: seq<int>, writable: seq<bool>, g: nat, i: nat, f: nat)
    requires Times(times) && i < f <= |times| == |writable| && Opener(times, writable, i) == Some(g)
    requires times[f - 1] - times[g] <= REDIRECT_WINDOW_MS
    requires g < f && Accepted(writable, g, f - 1) == f - 1 - g
    ensures PermittedBetween(times, writable, i, f) <= 2
  {
    var x := if g + 3 < i then i else if g + 3 < f then g + 3 else f;
    forall k | x <= k < f ensures !PermittedAt(times, writable, k) {
      PermittedWhileLive(times, writable, g, i, k);
      AcceptedInside(writable, g, g, k, f - 1);
    }
    PermittedWhileLive(times, writable, g, i, i);
    NoneAfter(times, writable, i, x, f);
  }

  // The part after it.
  lemma AfterLapse(times: seq<int>, writable: seq<bool>, f: nat, j: nat, n: nat)
    requires Times(times) && f <= j < |times| == |writable| && times[j] - times[f] <= REDIRECT_WINDOW_MS
    requires Lapsed(times, Opener(times, writable, f), times[f])
    requires f + n <= j ==> Accepted(writable, f, f + n) >= MAX_REDIRECTS_IN_WINDOW
    ensures PermittedBetween(times, writable, f, j + 1) <= n
  {
    if j + 1 <= f + n {
      PermittedSplits(times, writable, f, f, j + 1);
    } else {
      forall k | f + n <= k < j + 1 ensures !PermittedAt(times, writable, k) {
        PermittedSinceLapse(times, writable, f, k);
        AcceptedSplits(writable, f, f + n, k);
      }
      NoneAfter(times, writable, f, f + n, j + 1);
    }
  }

  lemma FewRefusedSuffices(times: seq<int>, writable: seq<bool>, i: nat, j: nat)
    requires Times(times) && i <= j < |times| == |writable| && times[j] - times[i] <= REDIRECT_WINDOW_MS
    requires FewRefused(writable)
    ensures PermittedBetween(times, writable, i, j + 1) <= MAX_IN_INTERVAL
  {
    PermittedSplits(times, writable, i, i, j + 1);
    if j + 1 - i > MAX_IN_INTERVAL {
      var f := FirstLapse(times, writable, i, j);
      if f == i {
        assert FewRefusedAt(writable, i);
        AfterLapse(times, writable, i, j, 5);
      } else {
        TwoParts(times, writable, i, f, j);
      }
    }
  }

  lemma TwoParts(times: seq<int>, writable: seq<bool>, i: nat, f: nat, j: nat)
    requires Times(times) && i < f <= j + 1 <= |times| == |writable| && times[j] - times[i] <= REDIRECT_WINDOW_MS
    requires FewRefused(writable) && i + 6 <= |writable|
    requires LiveFrom(times, writable, i, f) && (f <= j ==> !Live(times, writable, f))
    ensures PermittedBetween(times, writable, i, j + 1) <= MAX_IN_INTERVAL
  {
    assert Live(times, writable, i);
    var g := Opener(times, writable, i).value;
    AcceptedFromThere(writable, g);
    LiveUntil(times, writable, g, i, f - 1);
    TwoCounts(times, writable, g, i, f, j);
  }

  lemma TwoCounts(times: seq<int>, writable: seq<bool>, g: nat, i: nat, f: nat, j: nat)
    requires Times(times) && g < i < f <= j + 1 <= |times| == |writable|
    requires times[j] - times[i] <= REDIRECT_WINDOW_MS
    requires Opener(times, writable, i) == Some(g) && times[f - 1] - times[g] <= REDIRECT_WINDOW_MS
    requires Accepted(writable, g, |writable| - 1) == |writable| - 1 - g
    requires f <= j ==> Lapsed(times, Opener(times, writable, f), times[f])
    ensures PermittedBetween(times, writable, i, j + 1) <= MAX_IN_INTERVAL
  {
    AcceptedInside(writable, g, g, f - 1, |writable| - 1);
    BeforeLapse(times, writable, g, i, f);
    if f <= j {
      if f + 3 <= j {
        AcceptedInside(writable, g, f, f + 3, |writable| - 1);
      }
      AfterLapse(times, writable, f, j, 3);
      PermittedSplits(times, writable, i, f, j + 1);
    }
  }

  lemma {:induction false} LiveUntil(times: seq<int>, writable: seq<bool>, g: nat, i: nat, k: nat)
    requires Times(times) && i <= k < |times| == |writable| && Opener(times, writable, i) == Some(g)
    requires LiveFrom(times, writable, i, k + 1)
    ensures Opener(times, writable, k) == Some(g) && times[k] - times[g] <= REDIRECT_WINDOW_MS
    decreases k
  {
    assert Live(times, writable, k);
    if i < k {
      assert Live(times, writable, k - 1);
      LiveUntil(times, writable, g, i, k - 1);
    }
  }

  // ---- Runs that break the bound otherwise ----

  // Three refusals among five writes, after a pause that ends every window.
  lemma ManyRefusalsBreak(writable: seq<bool>, a: nat)
    requires a + 6 <= |writable| && Accepted(writable, a, a + 5) < MAX_REDIRECTS_IN_WINDOW
    ensures var times := Paused(|writable|, a);
            && |times| == |writable| && Times(times) && times[a + 5] - times[a] <= REDIRECT_WINDOW_MS
            && PermittedBetween(times, writable, a, a + 6) == 6
  {
    var times := Paused(|writable|, a);
    forall k | a <= k < a + 6 ensures PermittedAt(times, writable, k) {
      AcceptedSplits(writable, a, k, a + 5);
      PermittedSinceLapse(times, writable, a, k);
    }
    AllPermitted(times, writable, a, a + 6);
  }

  // Attempt `g` opens a window after a pause, the ones before `f` come right after it, and the ones
  // from `f` on just after that window is over.
  function Staged(n: nat, g: nat, f: nat): seq<int> {
    var w := REDIRECT_WINDOW_MS;
    seq(n, k => if k < g then 0 else if k == g then w + 1 else if k < f then w + 2 else 2 * w + 2)
  }

  lemma StagedOpener(writable: seq<bool>, g: nat, f: nat)
    requires g < f <= |writable| && writable[g]
    ensures var times := Staged(|writable|, g, f);
            Times(times) && Opener(times, writable, g + 1) == Some(g)
  {
  }

  // One refusal among the five writes after an accepted one.
  lemma OneRefusalLetsSix(writable: seq<bool>, g: nat, f: nat)
    requires g + 1 < f < g + 7 <= |writable| && writable[g]
    requires Accepted(writable, g, f - 1) < MAX_REDIRECTS_IN_WINDOW
    requires Accepted(writable, f, g + 6) < MAX_REDIRECTS_IN_WINDOW
    ensures var times := Staged(|writable|, g, f);
            |times| == |writable| && Times(times) && PermittedBetween(times, writable, g + 1, g + 7) == 6
  {
    var times := Staged(|writable|, g, f);
    StagedOpener(writable, g, f);
    WhileLive(times, writable, g, g + 1, f - 1);
    assert Lapsed(times, Opener(times, writable, f), times[f]);
    forall k | g + 1 <= k < g + 7 ensures PermittedAt(times, writable, k) {
      if k < f {
        AcceptedSplits(writable, g, k, f - 1);
        PermittedWhileLive(times, writable, g, g + 1, k);
      } else {
        AcceptedSplits(writable, f, k, g + 6);
        PermittedSinceLapse(times, writable, f, k);
      }
    }
    AllPermitted(times, writable, g + 1, g + 7);
  }

  lemma RefusalAfterAcceptedBreaks(writable: seq<bool>, a: nat) returns (times: seq<int>)
    requires 0 < a && a + 6 <= |writable| && writable[a - 1] && Accepted(writable, a, a + 5) < 5
    ensures |times| == |writable| && Times(times) && times[a + 5] - times[a] <= REDIRECT_WINDOW_MS
    ensures PermittedBetween(times, writable, a, a + 6) == 6
  {
    AllAccepted(writable, a, a + 5);
    AcceptedSplits(writable, a, a + 2, a + 5);
    AcceptedSplits(writable, a - 1, a, a + 2);
    AcceptedSplits(writable, a - 1, a, a + 1);
    AcceptedSplits(writable, a + 3, a + 3, a + 5);
    assert Accepted(writable, a - 1, a) == 1 by { assert Accepted(writable, a - 1, a - 1) == 0; }
    var f := if Accepted(writable, a, a + 2) < 2 then a + 3 else a + 2;
    OneRefusalLetsSix(writable, a - 1, f);
    times := Staged(|writable|, a - 1, f);
  }

  // Main result: no times at all make any interval of the window length permit more than five
  // attempts exactly when few enough writes are refused.
  lemma FivePerIntervalIffWritable(writable: seq<bool>)
    ensures (forall times :: Times(times) && |times| == |writable| ==> FivePerInterval(times, writable)) <==>
              FewRefused(writable)
  {
    if FewRefused(writable) {
      forall times: seq<int>, i: nat, j: nat |
        Times(times) && i <= j < |times| == |writable| && times[j] - times[i] <= REDIRECT_WINDOW_MS
        ensures PermittedBetween(times, writable, i, j + 1) <= MAX_IN_INTERVAL
      {
        FewRefusedSuffices(times, writable, i, j);
      }
    } else {
      var a :| 0 <= a <= |writable| - 6 && !FewRefusedAt(writable, a);
      var times := Paused(|writable|, a);
      if Accepted(writable, a, a + 5) < MAX_REDIRECTS_IN_WINDOW {
        ManyRefusalsBreak(writable, a);
      } else {
        times := RefusalAfterAcceptedBreaks(writable, a);
      }
      assert PermittedBetween(times, writable, a, (a + 5) + 1) == 6;
      assert !FivePerInterval(times, writable);
    }
  }
}
