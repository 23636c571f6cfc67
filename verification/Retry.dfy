/**
  Retrying throttled calls to the Kubernetes API (backend/internal/api/resource_cache.go,
  retryK8s).  Durations are nanoseconds in 64-bit integers.
 */
module Retry {

  datatype Outcome = Ok | Throttled | Failed(code: int)

  datatype Result = Success | Error(last: Outcome) | Cancelled | Panicked

  // `count` and `base` are the configured attempts and delay; there may be no cache at all.
  datatype Config = Config(cached: bool, count: int, base: int)

  const TWO63: int := 0x8000_0000_0000_0000
  const TWO64: int := 0x1_0000_0000_0000_0000

  function Pow2(n: nat): nat {
    if n == 0 then 1 else 2 * Pow2(n - 1)
  }

  // Two's complement.
  function Wrap(x: int): (r: int)
    ensures -TWO63 <= r < TWO63
    ensures -TWO63 <= x < TWO63 ==> r == x
    ensures x >= -TWO63 ==> r <= x
  {
    (x + TWO63) % TWO64 - TWO63
  }

  // time.Duration(1 << attempt)
  function Shift(attempt: nat): int {
    if attempt < 63 then Pow2(attempt) else if attempt == 63 then -TWO63 else 0
  }

  // How long the wait of one attempt takes; a timer with a negative duration fires at once.
  function Wait(base: int, attempt: nat, jitter: int): nat {
    var wait := Wrap(Wrap(base * Shift(attempt)) + jitter);
    if wait < 0 then 0 else wait
  }

  lemma {:induction false} Pow2Grows(m: nat, n: nat)
    requires m <= n
    ensures 1 <= Pow2(m) <= Pow2(n)
  {
    if m < n {
      Pow2Grows(m, n - 1);
    } else if m > 0 {
      Pow2Grows(m - 1, n - 1);
    }
  }

  lemma Scale(base: int, a: int, b: int)
    requires base >= 1 && 0 <= a <= b
    ensures a <= base * a <= base * b
  {
  }

  lemma {:induction false} Pow2Adds(m: nat, n: nat)
    ensures Pow2(m + n) == Pow2(m) * Pow2(n)
  {
    if n > 0 {
      Pow2Adds(m, n - 1);
    }
  }

  lemma Pow63()
    ensures Pow2(63) == TWO63
  {
    Pow2Adds(1, 1);
    Pow2Adds(2, 2);
    Pow2Adds(4, 3);
    assert Pow2(3) == 8 && Pow2(7) == 128;
    Pow2Adds(7, 7);
    Pow2Adds(14, 7);
    assert Pow2(21) == 0x20_0000;
    Pow2Adds(21, 21);
    assert Pow2(42) == 0x400_0000_0000;
    Pow2Adds(42, 21);
  }

  // Overflow only ever shortens a wait.
  lemma {:induction false} WaitBounded(base: int, attempt: nat, jitter: int)
    requires 2 <= base < TWO63 && 0 <= jitter < base / 2
    ensures Wait(base, attempt, jitter) <= base * Pow2(attempt) + jitter
    ensures base * Pow2(attempt) + jitter < TWO63 ==> Wait(base, attempt, jitter) == base * Pow2(attempt) + jitter
  {
    Pow63();
    if attempt < 63 {
      Pow2Grows(attempt, attempt);
      Scale(base, 1, Pow2(attempt));
    } else {
      Pow2Grows(63, attempt);
      Scale(base, TWO63, Pow2(attempt));
    }
  }

  // The most that `n` waits can take.
  function Budget(base: int, n: nat): int {
    if n == 0 then 0 else Budget(base, n - 1) + base * Pow2(n - 1) + base / 2
  }

  lemma DoubleAndAdd(base: int, p: int)
    ensures base * (2 * p - 1) == base * (p - 1) + base * p
  {
  }

  lemma OneMore(n: int, h: int)
    ensures n * h == (n - 1) * h + h
  {
  }

  lemma {:induction false} BudgetClosed(base: int, n: nat)
    ensures Budget(base, n) == base * (Pow2(n) - 1) + n * (base / 2)
  {
    if n > 0 {
      BudgetClosed(base, n - 1);
      DoubleAndAdd(base, Pow2(n - 1));
      OneMore(n, base / 2);
    }
  }

  predicate Enabled(cfg: Config) {
    cfg.cached && cfg.count > 1 && cfg.base > 0
  }

  // What the caller gets to know, from the number of calls made.
  function Verdict(cfg: Config, outcome: nat -> Outcome, cancelled: nat -> bool, calls: nat): Result
    requires calls >= 1
  {
    match outcome(calls - 1)
    case Ok => Success
    case Failed(code) => Error(Failed(code))
    case Throttled =>
      if !Enabled(cfg) then Error(Throttled)
      else if cfg.base / 2 == 0 then Panicked
      else if cancelled(calls - 1) then Cancelled
      else Error(Throttled)
  }

  // Call `k` was throttled and its wait was not cut short.
  predicate Continues(cfg: Config, outcome: nat -> Outcome, cancelled: nat -> bool, k: nat) {
    Enabled(cfg) && outcome(k) == Throttled && cfg.base / 2 > 0 && !cancelled(k)
  }

  function Throttles(outcome: nat -> Outcome, n: nat): nat {
    if n == 0 then 0 else Throttles(outcome, n - 1) + (if outcome(n - 1) == Throttled then 1 else 0)
  }

  lemma {:induction false} AllThrottled(outcome: nat -> Outcome, n: nat)
    requires forall k: nat :: k < n ==> outcome(k) == Throttled
    ensures Throttles(outcome, n) == n
  {
    if n > 0 {
      AllThrottled(outcome, n - 1);
    }
  }

  // How many waits ran their full time, and how long they took together; `wait(k)` is the one after
  // call k.
  function Waits(cfg: Config, outcome: nat -> Outcome, cancelled: nat -> bool, calls: nat): nat
    requires calls >= 1
  {
    if Continues(cfg, outcome, cancelled, calls - 1) then calls else calls - 1
  }

  function TotalWait(wait: nat -> nat, n: nat): nat {
    if n == 0 then 0 else TotalWait(wait, n - 1) + wait(n - 1)
  }

  // What a cancelled wait took.
  function CutShort(cfg: Config, outcome: nat -> Outcome, wait: nat -> nat, cancelled: nat -> bool,
                    elapsed: nat -> nat, calls: nat): nat
    requires calls >= 1
  {
    var k := calls - 1;
    if Enabled(cfg) && cfg.base / 2 > 0 && outcome(k) == Throttled && cancelled(k)
    then if elapsed(k) < wait(k) then elapsed(k) else wait(k)
    else 0
  }

  // The wait after each call: base x 2^k and a random part, in 64 bits.
  function Delays(base: int, jitter: nat -> int): nat -> nat {
    k => Wait(base, k, jitter(k))
  }

  lemma DelaysBounded(base: int, jitter: nat -> int)
    requires 2 <= base < TWO63 && forall k: nat :: 0 <= jitter(k) < base / 2
    ensures WaitsFit(base, Delays(base, jitter))
  {
    forall k: nat ensures Delays(base, jitter)(k) <= base * Pow2(k) + base / 2 - 1 {
      WaitBounded(base, k, jitter(k));
    }
  }

  ghost predicate WaitsFit(base: int, wait: nat -> nat) {
    forall k: nat {:trigger wait(k)} :: wait(k) <= base * Pow2(k) + base / 2 - 1
  }

  // base + 2 x base + 4 x base and so on.
  function Geometric(base: int, n: nat): int {
    if n == 0 then 0 else Geometric(base, n - 1) + base * Pow2(n - 1)
  }

  lemma {:induction false} GeometricClosed(base: int, n: nat)
    ensures Geometric(base, n) == base * (Pow2(n) - 1)
  {
    if n > 0 {
      GeometricClosed(base, n - 1);
      DoubleAndAdd(base, Pow2(n - 1));
    }
  }

  ghost predicate AtLeast(base: int, wait: nat -> nat, n: nat) {
    forall k: nat {:trigger wait(k)} :: k < n ==> wait(k) >= base * Pow2(k)
  }

  lemma {:induction false} TotalAtLeast(base: int, wait: nat -> nat, n: nat)
    requires AtLeast(base, wait, n)
    ensures TotalWait(wait, n) >= Geometric(base, n)
  {
    if n > 0 {
      TotalAtLeast(base, wait, n - 1);
    }
  }

  lemma FitsIn64(base: int, jitter: int, k: nat, n: nat)
    requires 2 <= base && k < n && base * Pow2(n) < TWO63 && 0 <= jitter < base / 2
    ensures base * Pow2(k) + jitter < TWO63 && base < TWO63
  {
    Pow2Grows(k + 1, n);
    Pow2Grows(0, k);
    Scale(base, Pow2(k + 1), Pow2(n));
    Scale(base, 1, Pow2(k));
    TwicePow(base, k + 1);
  }

  // Unless 64 bits overflow, the waits double: n of them take at least base x (2^n - 1).
  lemma WaitsDouble(base: int, jitter: nat -> int, n: nat)
    requires 2 <= base && base * Pow2(n) < TWO63
    requires forall k: nat :: 0 <= jitter(k) < base / 2
    ensures base * (Pow2(n) - 1) <= TotalWait(Delays(base, jitter), n)
  {
    forall k: nat | k < n ensures Delays(base, jitter)(k) >= base * Pow2(k) {
      FitsIn64(base, jitter(k), k, n);
      WaitBounded(base, k, jitter(k));
    }
    TotalAtLeast(base, Delays(base, jitter), n);
    GeometricClosed(base, n);
  }

  lemma TwicePow(base: int, n: nat)
    requires n > 0
    ensures base * Pow2(n) == 2 * (base * Pow2(n - 1))
  {
  }

  // `outcome(k)` is what call k returns, `jitter(k)` the random number drawn after it and
  // `cancelled(k)` whether the context ended during its wait, then after `elapsed(k)`.  `counted` is
  // the statistics counter, `waited` the time spent waiting.
  method RetryK8s(cfg: Config, outcome: nat -> Outcome, jitter: nat -> int, cancelled: nat -> bool, elapsed: nat -> nat)
    returns (result: Result, calls: nat, counted: nat, waited: nat)
    requires cfg.base < TWO63
    requires forall k: nat :: 0 <= jitter(k) && (cfg.base / 2 > 0 ==> jitter(k) < cfg.base / 2)
    ensures calls >= 1 && result == Verdict(cfg, outcome, cancelled, calls)
    ensures calls <= if Enabled(cfg) then cfg.count else 1
    ensures forall k: nat :: k < calls - 1 ==> Continues(cfg, outcome, cancelled, k)
    ensures Continues(cfg, outcome, cancelled, calls - 1) ==> calls == cfg.count
    ensures Enabled(cfg) ==> counted == Throttles(outcome, calls)
    ensures waited > 0 ==> Enabled(cfg) && cfg.base >= 2
    ensures Enabled(cfg) && cfg.base >= 2 ==> waited < Budget(cfg.base, cfg.count)
    ensures Enabled(cfg) && cfg.base >= 2 ==>
              waited == TotalWait(Delays(cfg.base, jitter), Waits(cfg, outcome, cancelled, calls))
                        + CutShort(cfg, outcome, Delays(cfg.base, jitter), cancelled, elapsed, calls)
    ensures result == Success <==> outcome(calls - 1) == Ok
  {
    if !cfg.cached || cfg.count <= 1 || cfg.base <= 0 {
      var r := outcome(0);
      return if r == Ok then Success else Error(r), 1, 0, 0;
    }
    if cfg.base >= 2 {
      DelaysBounded(cfg.base, jitter);
    }
    result, calls, counted, waited := Attempts(cfg, outcome, Delays(cfg.base, jitter), cancelled, elapsed);
  }

  // The loop, for any waits that fit the budget.
  method Attempts(cfg: Config, outcome: nat -> Outcome, wait: nat -> nat, cancelled: nat -> bool, elapsed: nat -> nat)
    returns (result: Result, calls: nat, counted: nat, waited: nat)
    requires Enabled(cfg) && (cfg.base >= 2 ==> WaitsFit(cfg.base, wait))
    ensures 1 <= calls <= cfg.count && result == Verdict(cfg, outcome, cancelled, calls)
    ensures forall k: nat :: k < calls - 1 ==> Continues(cfg, outcome, cancelled, k)
    ensures Continues(cfg, outcome, cancelled, calls - 1) ==> calls == cfg.count
    ensures counted == Throttles(outcome, calls) && (waited > 0 ==> cfg.base >= 2)
    ensures cfg.base >= 2 ==> waited < Budget(cfg.base, cfg.count)
    ensures cfg.base >= 2 ==> waited == TotalWait(wait, Waits(cfg, outcome, cancelled, calls))
                                        + CutShort(cfg, outcome, wait, cancelled, elapsed, calls)
    ensures result == Success <==> outcome(calls - 1) == Ok
  {
    counted, waited := 0, 0;
    var lastErr := Ok;
    calls := 0;
    while calls < cfg.count
      invariant 0 <= calls <= cfg.count && (waited > 0 ==> cfg.base >= 2)
      invariant forall k: nat :: k < calls ==> Continues(cfg, outcome, cancelled, k)
      invariant calls > 0 ==> lastErr == Throttled
      invariant counted == Throttles(outcome, calls)
      invariant waited == TotalWait(wait, calls)
    {
      var attempt := calls;
      var r := outcome(attempt);
      calls := calls + 1;
      TotalWithinBudget(cfg, wait, attempt);
      if r == Ok {
        return Success, calls, counted, waited;
      }
      lastErr := r;
      if r != Throttled {
        return Error(r), calls, counted, waited;
      }
      counted := counted + 1;
      if cfg.base / 2 == 0 {
        return Panicked, calls, counted, waited;
      }
      if cancelled(attempt) {
        TotalWithinBudget(cfg, wait, calls);
        waited := waited + (if elapsed(attempt) < wait(attempt) then elapsed(attempt) else wait(attempt));
        return Cancelled, calls, counted, waited;
      }
      waited := waited + wait(attempt);
    }
    TotalWithinBudget(cfg, wait, calls);
    assert Continues(cfg, outcome, cancelled, calls - 1);
    result := Error(lastErr);
  }

  // The most that `n` waits can take, and the bound on it.
  function Spent(base: int, n: nat): int {
    if n == 0 then 0 else Spent(base, n - 1) + (base * Pow2(n - 1) + base / 2 - 1)
  }

  lemma {:induction false} BudgetGrows(base: int, m: nat, n: nat)
    requires base >= 1 && m <= n
    ensures 0 <= Budget(base, m) <= Budget(base, n)
    ensures base >= 2 && m < n ==> Budget(base, m) < Budget(base, n)
    decreases n
  {
    if m < n {
      BudgetGrows(base, m, n - 1);
      Pow2Grows(n - 1, n - 1);
      Scale(base, 1, Pow2(n - 1));
    } else if n > 0 {
      BudgetGrows(base, n - 1, n - 1);
      Pow2Grows(n - 1, n - 1);
      Scale(base, 1, Pow2(n - 1));
    }
  }

  lemma {:induction false} SpentWithinBudget(base: int, m: nat, n: nat)
    requires base >= 1 && m <= n && n > 0
    ensures base >= 2 ==> Spent(base, m) < Budget(base, n)
  {
    BudgetGrows(base, m, n);
    SpentIsBudget(base, m);
  }

  lemma {:induction false} TotalIsSpent(base: int, wait: nat -> nat, n: nat)
    requires WaitsFit(base, wait)
    ensures TotalWait(wait, n) <= Spent(base, n)
  {
    if n > 0 {
      TotalIsSpent(base, wait, n - 1);
    }
  }

  lemma TotalWithinBudget(cfg: Config, wait: nat -> nat, m: nat)
    requires Enabled(cfg) && m <= cfg.count && (cfg.base >= 2 ==> WaitsFit(cfg.base, wait))
    ensures cfg.base >= 2 ==> TotalWait(wait, m) < Budget(cfg.base, cfg.count)
  {
    if cfg.base >= 2 {
      TotalIsSpent(cfg.base, wait, m);
      SpentWithinBudget(cfg.base, m, cfg.count);
    }
  }

  lemma {:induction false} SpentIsBudget(base: int, n: nat)
    ensures Spent(base, n) == Budget(base, n) - n
  {
    if n > 0 {
      SpentIsBudget(base, n - 1);
    }
  }
}
