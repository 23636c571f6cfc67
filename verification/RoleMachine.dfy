/**
  The goroutine that decides what a log stream reads
  (backend/internal/api/log_stream_hub.go, logStream.run and the start/stop helpers).

  The answers of Redis to the lock commands are the parameters of `Run`; the module Lease says
  which answers can occur.  `trace` records what the goroutine does, in order.
 */
module RoleMachine {
  import opened Wrappers

  datatype Action = StartK8s | StopK8s | StartRedis | StopRedis | ReleaseLock

  datatype Sources = Sources(k8s: bool, redis: bool)

  // What one loop head looks like.
  datatype Head = Head(leader: bool, sources: Sources)

  // The rule the actions have to follow: a source starts only when none runs, stops only when
  // it runs, and the lock is given back only when none runs.  None means the rule was broken.
  function Obey(from: Option<Sources>, a: Action): Option<Sources> {
    if from.None? then None else
    var idle := !from.value.k8s && !from.value.redis;
    match a
    case StartK8s => if idle then Some(Sources(true, false)) else None
    case StartRedis => if idle then Some(Sources(false, true)) else None
    case StopK8s => if from.value.k8s then Some(from.value.(k8s := false)) else None
    case StopRedis => if from.value.redis then Some(from.value.(redis := false)) else None
    case ReleaseLock => if idle then from else None
  }

  function ObeyAll(from: Option<Sources>, trace: seq<Action>): Option<Sources>
    decreases trace
  {
    if trace == [] then from else ObeyAll(Obey(from, trace[0]), trace[1..])
  }

  lemma {:induction false} ObeyAllAppend(from: Option<Sources>, a: seq<Action>, b: seq<Action>)
    ensures ObeyAll(from, a + b) == ObeyAll(ObeyAll(from, a), b)
    decreases a
  {
    if a == [] {
      assert a + b == b;
    } else {
      assert (a + b)[1..] == a[1..] + b;
      ObeyAllAppend(Obey(from, a[0]), a[1..], b);
    }
  }

  lemma ObeyPair(from: Option<Sources>, a: Action, b: Action)
    ensures ObeyAll(from, [a, b]) == Obey(Obey(from, a), b)
  {
    assert [a, b][1..] == [b];
    assert ObeyAll(Obey(from, a), [b]) == ObeyAll(Obey(Obey(from, a), b), [b][1..]);
  }

  class LogStream {
    const redisEnabled: bool
    var leader: bool
    var k8sRunning: bool
    var redisRunning: bool
    ghost var trace: seq<Action>
    ghost var heads: seq<Head>

    constructor (redisEnabled: bool)
      ensures this.redisEnabled == redisEnabled
      ensures !leader && !k8sRunning && !redisRunning && trace == [] && heads == []
    {
      this.redisEnabled := redisEnabled;
      leader, k8sRunning, redisRunning := false, false, false;
      trace, heads := [], [];
    }

    method StartK8s()
      modifies this`k8sRunning, this`trace
      ensures k8sRunning
      ensures trace == old(trace) + (if old(k8sRunning) then [] else [Action.StartK8s])
    {
      if k8sRunning {
        return;
      }
      trace := trace + [Action.StartK8s];
      k8sRunning := true;
    }

    method StopK8s()
      modifies this`k8sRunning, this`trace
      ensures !k8sRunning
      ensures trace == old(trace) + (if old(k8sRunning) then [Action.StopK8s] else [])
    {
      if k8sRunning {
        trace := trace + [Action.StopK8s];
        k8sRunning := false;
      }
    }

    method StartRedisConsumer()
      modifies this`redisRunning, this`trace
      ensures redisRunning == (old(redisRunning) || redisEnabled)
      ensures trace == old(trace) + (if redisEnabled && !old(redisRunning) then [Action.StartRedis] else [])
    {
      if !redisEnabled || redisRunning {
        return;
      }
      trace := trace + [Action.StartRedis];
      redisRunning := true;
    }

    method StopRedisConsumer()
      modifies this`redisRunning, this`trace
      ensures !redisRunning
      ensures trace == old(trace) + (if old(redisRunning) then [Action.StopRedis] else [])
    {
      if redisRunning {
        trace := trace + [Action.StopRedis];
        redisRunning := false;
      }
    }

    method HandleTick(answer: bool)
      requires redisEnabled && leader == k8sRunning && k8sRunning != redisRunning
      modifies this`leader, this`k8sRunning, this`redisRunning, this`trace
      ensures leader == answer && k8sRunning == answer && redisRunning == !answer
      ensures trace == old(trace) + SwitchActions(old(leader), answer)
    {
      if leader {
        if !answer {
          leader := false;
          StopK8s();
          StartRedisConsumer();
        }
      } else {
        if answer {
          leader := true;
          StopRedisConsumer();
          StartK8s();
        }
      }
    }

    // The role the start-up SETNX gives.
    method Boot(answer: bool)
      requires redisEnabled && !leader && !k8sRunning && !redisRunning && trace == []
      modifies this`leader, this`k8sRunning, this`redisRunning, this`trace
      ensures leader == answer && k8sRunning == answer && redisRunning == !answer
      ensures trace == [if answer then Action.StartK8s else Action.StartRedis]
    {
      if answer {
        leader := true;
        StartK8s();
      } else {
        StartRedisConsumer();
      }
    }

    // What the goroutine does once its context is cancelled.
    method Finish()
      requires k8sRunning != redisRunning
      modifies this`k8sRunning, this`redisRunning, this`trace
      ensures !k8sRunning && !redisRunning
      ensures trace == old(trace) + [if old(k8sRunning) then Action.StopK8s else Action.StopRedis, ReleaseLock]
    {
      StopRedisConsumer();
      StopK8s();
      trace := trace + [ReleaseLock];
    }

    // `answers[0]` is the answer to the start-up SETNX, `answers[k]` the answer to the command of
    // the k-th tick; the context is cancelled after the last of them.
    method Run(answers: seq<bool>)
      requires !leader && !k8sRunning && !redisRunning && trace == [] && heads == []
      requires |answers| > 0
      modifies this
      ensures !k8sRunning && !redisRunning
      ensures trace == RunTrace(redisEnabled, answers)
      ensures redisEnabled ==> |heads| == |answers|
      ensures redisEnabled ==> forall k :: 0 <= k < |heads| ==> heads[k] == HeadAfter(answers[k])
    {
      if !redisEnabled {
        StartK8s();
        StopK8s();
        return;
      }
      Boot(answers[0]);
      heads := [Head(leader, Sources(k8sRunning, redisRunning))];
      var k := 1;
      while k < |answers|
        invariant 1 <= k <= |answers| && |heads| == k
        invariant leader == answers[k - 1] && k8sRunning == leader && redisRunning == !leader
        invariant forall n :: 0 <= n < k ==> heads[n] == HeadAfter(answers[n])
        invariant trace == SwitchTrace(answers[..k])
      {
        SwitchTraceStep(answers, k);
        HandleTick(answers[k]);
        heads := heads + [Head(leader, Sources(k8sRunning, redisRunning))];
        k := k + 1;
      }
      assert answers[..k] == answers;
      Finish();
    }
  }

  // A loop head after an answer: one source runs, the one the role asks for.
  function HeadAfter(answer: bool): Head {
    Head(answer, Sources(answer, !answer))
  }

  // What changing from one role to the other does: the old source is stopped first.
  function SwitchActions(was: bool, now: bool): seq<Action> {
    if was == now then []
    else if now then [StopRedis, StartK8s]
    else [StopK8s, StartRedis]
  }

  // The actions up to the loop head that follows the last answer.
  function SwitchTrace(answers: seq<bool>): seq<Action>
    requires |answers| > 0
  {
    var n := |answers| - 1;
    if n == 0 then [if answers[0] then StartK8s else StartRedis]
    else SwitchTrace(answers[..n]) + SwitchActions(answers[n - 1], answers[n])
  }

  lemma SwitchTraceStep(answers: seq<bool>, k: nat)
    requires 0 < k < |answers|
    ensures SwitchTrace(answers[..k + 1]) == SwitchTrace(answers[..k]) + SwitchActions(answers[k - 1], answers[k])
  {
    assert answers[..k + 1][..k] == answers[..k];
  }

  function RunTrace(redisEnabled: bool, answers: seq<bool>): seq<Action>
    requires |answers| > 0
  {
    if !redisEnabled then [StartK8s, StopK8s]
    else SwitchTrace(answers) + [if answers[|answers| - 1] then StopK8s else StopRedis, ReleaseLock]
  }

  // After any answers exactly one source runs, the Kubernetes one exactly for a leader.
  lemma {:induction false} OneSourceAtEveryHead(answers: seq<bool>)
    requires |answers| > 0
    ensures var last := answers[|answers| - 1];
            ObeyAll(Some(Sources(false, false)), SwitchTrace(answers)) == Some(Sources(last, !last))
  {
    var n := |answers| - 1;
    if n > 0 {
      OneSourceAtEveryHead(answers[..n]);
      var before := SwitchTrace(answers[..n]);
      ObeyAllAppend(Some(Sources(false, false)), before, SwitchActions(answers[n - 1], answers[n]));
      ObeyPair(Some(Sources(false, true)), StopRedis, StartK8s);
      ObeyPair(Some(Sources(true, false)), StopK8s, StartRedis);
    }
  }

  // Main result: no run ever has both sources, stops a source that is not running, or gives the
  // lock back while reading; every run ends with no source running.
  lemma RunObeys(redisEnabled: bool, answers: seq<bool>)
    requires |answers| > 0
    ensures ObeyAll(Some(Sources(false, false)), RunTrace(redisEnabled, answers)) == Some(Sources(false, false))
  {
    if redisEnabled {
      OneSourceAtEveryHead(answers);
      var stop := if answers[|answers| - 1] then StopK8s else StopRedis;
      ObeyAllAppend(Some(Sources(false, false)), SwitchTrace(answers), [stop, ReleaseLock]);
      ObeyPair(ObeyAll(Some(Sources(false, false)), SwitchTrace(answers)), stop, ReleaseLock);
    } else {
      ObeyPair(Some(Sources(false, false)), StartK8s, StopK8s);
    }
  }

  // Without Redis the reader runs from the start to the cancellation, and there is no lock to give back.
  lemma SingleModeReads(answers: seq<bool>)
    requires |answers| > 0
    ensures var trace := RunTrace(false, answers);
            && |trace| == 2 && ReleaseLock !in trace
            && ObeyAll(Some(Sources(false, false)), trace[..1]) == Some(Sources(true, false))
  {
    assert [StartK8s, StopK8s][..1] == [StartK8s];
    assert ObeyAll(Some(Sources(false, false)), [StartK8s]) ==
           ObeyAll(Obey(Some(Sources(false, false)), StartK8s), [StartK8s][1..]);
  }

  // With Redis every loop head is a moment of the run, and the lock is given back once, at the very end.
  lemma HeadsAreInTrace(answers: seq<bool>, k: nat)
    requires 0 < k <= |answers|
    ensures SwitchTrace(answers[..k]) <= RunTrace(true, answers)
    ensures var trace := RunTrace(true, answers); var n := |trace| - 1;
            trace[n] == ReleaseLock && ReleaseLock !in trace[..n]
  {
    SwitchesGrow(answers, k);
    SwitchesKeepLock(answers);
    var stop := if answers[|answers| - 1] then StopK8s else StopRedis;
    var trace := RunTrace(true, answers);
    assert trace[..|trace| - 1] == SwitchTrace(answers) + [stop];
  }

  lemma {:induction false} SwitchesGrow(answers: seq<bool>, k: nat)
    requires 0 < k <= |answers|
    ensures SwitchTrace(answers[..k]) <= SwitchTrace(answers)
    decreases |answers|
  {
    if k == |answers| {
      assert answers[..k] == answers;
    } else {
      var n := |answers| - 1;
      assert answers[..n][..k] == answers[..k];
      SwitchesGrow(answers[..n], k);
    }
  }

  lemma {:induction false} SwitchesKeepLock(answers: seq<bool>)
    requires |answers| > 0
    ensures ReleaseLock !in SwitchTrace(answers)
  {
    if |answers| > 1 {
      SwitchesKeepLock(answers[..|answers| - 1]);
    }
  }

  lemma {:induction false} BrokenStaysBroken(trace: seq<Action>)
    ensures ObeyAll(None, trace) == None
  {
    if trace != [] {
      BrokenStaysBroken(trace[1..]);
    }
  }

  // The rule holds at every moment of a run, not only at its end.
  lemma EveryPrefixObeys(redisEnabled: bool, answers: seq<bool>, k: nat)
    requires |answers| > 0 && k <= |RunTrace(redisEnabled, answers)|
    ensures var now := ObeyAll(Some(Sources(false, false)), RunTrace(redisEnabled, answers)[..k]);
            now.Some? && !(now.value.k8s && now.value.redis)
  {
    var trace := RunTrace(redisEnabled, answers);
    RunObeys(redisEnabled, answers);
    assert trace == trace[..k] + trace[k..];
    ObeyAllAppend(Some(Sources(false, false)), trace[..k], trace[k..]);
    BrokenStaysBroken(trace[k..]);
    NeverBoth(trace[..k]);
  }

  lemma {:induction false} NeverBoth(trace: seq<Action>)
    ensures var now := ObeyAll(Some(Sources(false, false)), trace);
            now.Some? ==> !(now.value.k8s && now.value.redis)
  {
    if trace != [] {
      var n := |trace| - 1;
      NeverBoth(trace[..n]);
      assert trace == trace[..n] + [trace[n]];
      ObeyAllAppend(Some(Sources(false, false)), trace[..n], [trace[n]]);
    }
  }
}
