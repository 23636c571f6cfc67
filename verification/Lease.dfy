/**
  Leader election for one pod/container log stream
  (backend/internal/api/log_stream_hub.go, run and the three lock functions).

  Every replica that serves the stream runs one goroutine per stream object.  The goroutines
  share one expiring Redis key.  A command, its execution by Redis and the arrival of its
  answer are three separate moments here, so a leader goes on reading from Kubernetes while
  its refresh is in flight, answers can be lost, and other replicas act in between.

  Times are milliseconds.  `delay` bounds two things: how long after its tick is due a
  goroutine has dealt with the answer to that tick's command, and how long after Redis
  granted the start-up SETNX the ticker has been created.
 */
module Lease {
  import opened Wrappers

  // A stream object; an unbounded supply of them can be created over time.
  type Stream = nat

  datatype Config = Config(ttl: nat, delay: nat, instance: Stream -> int, serial: bool)

  datatype Lock = Lock(owner: int, expires: nat)

  datatype Mode =
    | Booting
    | BootAnswered(granted: bool, at: nat)
    | Waiting(leader: bool, next: nat)
    | Ticking(leader: bool, next: nat)
    | TickAnswered(leader: bool, next: nat, ok: bool)
    | Stopping
    | Gone

  datatype State = State(now: nat, lock: Option<Lock>, streams: map<Stream, Mode>)

  datatype Fault = Delivered | AnswerLost | CommandLost

  datatype Event =
    | Advance(to: nat)
    | Start(i: Stream)
    | BootCommand(i: Stream, fault: Fault)
    | BootAnswer(i: Stream)
    | Tick(i: Stream)
    | TickCommand(i: Stream, fault: Fault)
    | TickAnswer(i: Stream)
    | Stop(i: Stream)
    | ReleaseCommand(i: Stream, fault: Fault)

  // newLogStreamHub: a TTL that is not positive is replaced by the default of 15 s.
  function EffectiveTtl(seconds: int): (ttl: nat)
    ensures ttl > 0 && (seconds > 0 ==> ttl == 1000 * seconds)
  {
    if seconds <= 0 then 15_000 else seconds * 1000
  }

  // Two refreshes fit into a lease, unless that means more than one in two seconds.
  function LockRefreshInterval(ttl: int): (interval: nat)
    ensures interval >= 2000
    ensures ttl >= 4000 ==> 2 * interval <= ttl < 2 * (interval + 1)
    ensures 0 < ttl < 4000 ==> interval == 2000
  {
    if ttl <= 0 then 5000
    else if ttl / 2 < 2000 then 2000
    else ttl / 2
  }

  // ---- The Redis commands ----

  predicate Held(s: State) {
    s.lock.Some? && s.now < s.lock.value.expires
  }

  predicate HeldBy(s: State, who: int) {
    Held(s) && s.lock.value.owner == who
  }

  function Renewed(cfg: Config, s: State, who: int): Option<Lock> {
    Some(Lock(who, s.now + cfg.ttl))
  }

  // tryAcquireLock: SETNX with TTL.
  function TryAcquire(cfg: Config, s: State, who: int): (Option<Lock>, bool) {
    if Held(s) then (s.lock, false) else (Renewed(cfg, s, who), true)
  }

  // refreshLock: PEXPIRE if the value is still ours.
  function Refresh(cfg: Config, s: State, who: int): (Option<Lock>, bool) {
    if HeldBy(s, who) then (Renewed(cfg, s, who), true) else (s.lock, false)
  }

  // releaseLock: DEL if the value is still ours.
  function Release(s: State, who: int): Option<Lock> {
    if HeldBy(s, who) then None else s.lock
  }

  // What Redis keeps and what the caller learns, when messages can be lost.
  function Faulty(s: State, fault: Fault, effect: (Option<Lock>, bool)): (Option<Lock>, bool) {
    match fault
    case Delivered => effect
    case AnswerLost => (effect.0, false)
    case CommandLost => (s.lock, false)
  }

  // ---- One step of the system ----

  predicate InTime(cfg: Config, m: Mode, t: nat) {
    match m
    case BootAnswered(granted, at) => granted ==> t <= at + cfg.delay
    case Waiting(_, next) => t <= next + cfg.delay
    case Ticking(_, next) => t <= next + cfg.delay
    case TickAnswered(_, next, _) => t <= next + cfg.delay
    case _ => true
  }

  ghost predicate Enabled(cfg: Config, s: State, e: Event) {
    match e
    case Advance(to) => s.now <= to && forall i :: i in s.streams ==> InTime(cfg, s.streams[i], to)
    case Start(i) =>
      && i !in s.streams
      && (cfg.serial ==>
            forall j :: j in s.streams && cfg.instance(j) == cfg.instance(i) ==> s.streams[j].Gone?)
    case BootCommand(i, _) => i in s.streams && s.streams[i].Booting?
    case BootAnswer(i) => i in s.streams && s.streams[i].BootAnswered?
    case Tick(i) => i in s.streams && s.streams[i].Waiting? && s.streams[i].next <= s.now
    case TickCommand(i, _) => i in s.streams && s.streams[i].Ticking?
    case TickAnswer(i) => i in s.streams && s.streams[i].TickAnswered?
    case Stop(i) => i in s.streams && s.streams[i].Waiting?
    case ReleaseCommand(i, _) => i in s.streams && s.streams[i].Stopping?
  }

  ghost function Apply(cfg: Config, s: State, e: Event): State
    requires Enabled(cfg, s, e)
  {
    match e
    case Advance(to) => s.(now := to)
    case Start(i) => s.(streams := s.streams[i := Booting])
    case BootCommand(i, fault) =>
      var (lock, ok) := Faulty(s, fault, TryAcquire(cfg, s, cfg.instance(i)));
      s.(lock := lock, streams := s.streams[i := BootAnswered(ok, s.now)])
    case BootAnswer(i) =>
      var next := s.now + LockRefreshInterval(cfg.ttl);
      s.(streams := s.streams[i := Waiting(s.streams[i].granted, next)])
    case Tick(i) =>
      s.(streams := s.streams[i := Ticking(s.streams[i].leader, s.streams[i].next)])
    case TickCommand(i, fault) =>
      var m := s.streams[i];
      var who := cfg.instance(i);
      var (lock, ok) :=
        Faulty(s, fault, if m.leader then Refresh(cfg, s, who) else TryAcquire(cfg, s, who));
      s.(lock := lock, streams := s.streams[i := TickAnswered(m.leader, m.next, ok)])
    case TickAnswer(i) =>
      var m := s.streams[i];
      s.(streams := s.streams[i := Waiting(m.ok, m.next + LockRefreshInterval(cfg.ttl))])
    case Stop(i) => s.(streams := s.streams[i := Stopping])
    case ReleaseCommand(i, fault) =>
      var lock := if fault == CommandLost then s.lock else Release(s, cfg.instance(i));
      s.(lock := lock, streams := s.streams[i := Gone])
  }

  const INIT := State(0, None, map[])

  ghost function Exec(cfg: Config, es: seq<Event>): Option<State> {
    if es == [] then Some(INIT)
    else
      var before := Exec(cfg, es[..|es| - 1]);
      if before.Some? && Enabled(cfg, before.value, es[|es| - 1])
      then Some(Apply(cfg, before.value, es[|es| - 1])) else None
  }

  ghost predicate Reachable(cfg: Config, s: State) {
    exists es :: Exec(cfg, es) == Some(s)
  }

  // ---- What the election is for ----

  // The stream object has its Kubernetes reader running, or may have: it starts the reader as soon as
  // it learns that it was granted the lock, and stops it when it learns that a refresh failed.
  predicate Reader(m: Mode) {
    match m
    case BootAnswered(granted, _) => granted
    case Waiting(leader, _) => leader
    case Ticking(leader, _) => leader
    case TickAnswered(leader, _, ok) => leader || ok
    case _ => false
  }

  ghost predicate AtMostOneReader(s: State) {
    forall i, j :: i in s.streams && j in s.streams && Reader(s.streams[i]) && Reader(s.streams[j]) ==> i == j
  }

  ghost predicate ReadersHoldLock(cfg: Config, s: State) {
    forall i :: i in s.streams && Reader(s.streams[i]) ==> HeldBy(s, cfg.instance(i))
  }

  ghost predicate Good(cfg: Config, s: State) {
    AtMostOneReader(s) && ReadersHoldLock(cfg, s)
  }

  ghost predicate Safe(cfg: Config) {
    forall s :: Reachable(cfg, s) ==> Good(cfg, s)
  }

  ghost predicate NeverTwoReaders(cfg: Config) {
    forall s :: Reachable(cfg, s) ==> AtMostOneReader(s)
  }

  // Stream objects of one replica share its lock value.
  ghost predicate OneStreamPerInstance(cfg: Config) {
    forall i: Stream, j: Stream :: cfg.instance(i) == cfg.instance(j) ==> i == j
  }

  // The exact condition under which every run is safe.
  ghost predicate Sound(cfg: Config) {
    && LockRefreshInterval(cfg.ttl) + 2 * cfg.delay < cfg.ttl
    && (cfg.serial || OneStreamPerInstance(cfg))
  }

  ghost predicate Replicated(cfg: Config) {
    exists i: Stream, j: Stream :: cfg.instance(i) != cfg.instance(j)
  }

  // ---- The invariant ----

  // The instant until which a stream that has been granted the lock relies on it.
  function ReliesUntil(cfg: Config, m: Mode): Option<nat> {
    var interval := LockRefreshInterval(cfg.ttl);
    match m
    case BootAnswered(granted, at) =>
      if granted then Some(at + interval + 2 * cfg.delay) else None
    case Waiting(leader, next) => if leader then Some(next + cfg.delay) else None
    case Ticking(leader, next) => if leader then Some(next + cfg.delay) else None
    case TickAnswered(leader, next, ok) =>
      if ok then Some(next + interval + cfg.delay) else if leader then Some(next + cfg.delay) else None
    case _ => None
  }

  ghost predicate Covered(cfg: Config, s: State, i: Stream)
    requires i in s.streams
  {
    var until := ReliesUntil(cfg, s.streams[i]);
    until.Some? ==>
      && s.lock.Some?
      && s.lock.value.owner == cfg.instance(i)
      && until.value < s.lock.value.expires
  }

  predicate TickDue(m: Mode, now: nat) {
    (m.Ticking? || m.TickAnswered?) ==> m.next <= now
  }

  // Nobody is late, and nothing happened before its time.
  ghost predicate OnTime(cfg: Config, m: Mode, now: nat) {
    InTime(cfg, m, now) && TickDue(m, now) && (m.BootAnswered? ==> m.at <= now)
  }

  ghost predicate OneLivePerInstance(cfg: Config, s: State) {
    forall i, j :: i in s.streams && j in s.streams && i != j && cfg.instance(i) == cfg.instance(j) ==>
      s.streams[i].Gone? || s.streams[j].Gone?
  }

  ghost predicate Inv(cfg: Config, s: State) {
    && (forall i :: i in s.streams ==> OnTime(cfg, s.streams[i], s.now))
    && (forall i :: i in s.streams ==> Covered(cfg, s, i))
    && OneLivePerInstance(cfg, s)
  }

  // Whoever relies on the lock still holds it now.
  lemma ReliantHolds(cfg: Config, s: State, i: Stream)
    requires Inv(cfg, s) && i in s.streams && ReliesUntil(cfg, s.streams[i]).Some?
    ensures HeldBy(s, cfg.instance(i))
  {
    assert OnTime(cfg, s.streams[i], s.now);
    assert Covered(cfg, s, i);
  }

  lemma InvImpliesGood(cfg: Config, s: State)
    requires Inv(cfg, s)
    ensures Good(cfg, s)
  {
    forall i | i in s.streams && Reader(s.streams[i])
      ensures HeldBy(s, cfg.instance(i))
    {
      ReliantHolds(cfg, s, i);
    }
  }

  // A step of stream `e.i` leaves the claims of the other streams covered: it changes the lock
  // only when nobody relies on it or when its own replica holds it.
  lemma OthersStayCovered(cfg: Config, s: State, e: Event, j: Stream)
    requires Sound(cfg) && Inv(cfg, s) && Enabled(cfg, s, e) && !e.Advance?
    requires j in s.streams && j != e.i
    ensures Covered(cfg, Apply(cfg, s, e), j)
  {
    assert Covered(cfg, s, j);
    if ReliesUntil(cfg, s.streams[j]).Some? {
      ReliantHolds(cfg, s, j);
    }
  }

  lemma ActorStaysCovered(cfg: Config, s: State, e: Event)
    requires Sound(cfg) && Inv(cfg, s) && Enabled(cfg, s, e) && !e.Advance?
    ensures Covered(cfg, Apply(cfg, s, e), e.i)
  {
    if e.i in s.streams {
      assert Covered(cfg, s, e.i);
      assert OnTime(cfg, s.streams[e.i], s.now);
      if ReliesUntil(cfg, s.streams[e.i]).Some? {
        ReliantHolds(cfg, s, e.i);
      }
    }
  }

  lemma StepKeepsTime(cfg: Config, s: State, e: Event, j: Stream)
    requires Inv(cfg, s) && Enabled(cfg, s, e) && j in Apply(cfg, s, e).streams
    ensures OnTime(cfg, Apply(cfg, s, e).streams[j], Apply(cfg, s, e).now)
  {
    if j in s.streams {
      assert OnTime(cfg, s.streams[j], s.now);
    }
  }

  lemma StepKeepsOneLive(cfg: Config, s: State, e: Event)
    requires Sound(cfg) && OneLivePerInstance(cfg, s) && Enabled(cfg, s, e)
    ensures OneLivePerInstance(cfg, Apply(cfg, s, e))
  {
  }

  lemma StepKeepsCover(cfg: Config, s: State, e: Event, j: Stream)
    requires Sound(cfg) && Inv(cfg, s) && Enabled(cfg, s, e) && j in Apply(cfg, s, e).streams
    ensures Covered(cfg, Apply(cfg, s, e), j)
  {
    if e.Advance? {
      assert Covered(cfg, s, j);
    } else if j == e.i {
      ActorStaysCovered(cfg, s, e);
    } else {
      OthersStayCovered(cfg, s, e, j);
    }
  }

  lemma {:induction false} StepKeepsInv(cfg: Config, s: State, e: Event)
    requires Sound(cfg) && Inv(cfg, s) && Enabled(cfg, s, e)
    ensures Inv(cfg, Apply(cfg, s, e))
  {
    var t := Apply(cfg, s, e);
    forall j | j in t.streams ensures OnTime(cfg, t.streams[j], t.now) && Covered(cfg, t, j) {
      StepKeepsTime(cfg, s, e, j);
      StepKeepsCover(cfg, s, e, j);
    }
    StepKeepsOneLive(cfg, s, e);
  }

  lemma {:induction false} RunsKeepInv(cfg: Config, es: seq<Event>)
    requires Sound(cfg) && Exec(cfg, es).Some?
    ensures Inv(cfg, Exec(cfg, es).value)
  {
    if es != [] {
      var before := es[..|es| - 1];
      RunsKeepInv(cfg, before);
      StepKeepsInv(cfg, Exec(cfg, before).value, es[|es| - 1]);
    }
  }

  // A replica loses a lock it holds only by letting it run out or by releasing it itself:
  // no command of another replica takes, extends or deletes it.
  lemma LockLostOnlyByOwner(cfg: Config, s: State, e: Event, who: int)
    requires cfg.ttl > 0 && Enabled(cfg, s, e) && HeldBy(s, who)
    ensures var t := Apply(cfg, s, e);
            !HeldBy(t, who) ==>
              || (e.Advance? && s.lock.value.expires <= e.to)
              || (e.ReleaseCommand? && cfg.instance(e.i) == who && t.lock == None)
  {
  }

  // ---- Runs that break it when the condition does not hold ----

  lemma StartsReachable(cfg: Config)
    ensures Reachable(cfg, INIT)
  {
    assert Exec(cfg, []) == Some(INIT);
  }

  lemma Extend(cfg: Config, s: State, e: Event) returns (t: State)
    requires Reachable(cfg, s) && Enabled(cfg, s, e)
    ensures Reachable(cfg, t) && t == Apply(cfg, s, e)
  {
    var es :| Exec(cfg, es) == Some(s);
    t := Apply(cfg, s, e);
    assert (es + [e])[..|es|] == es;
    assert Exec(cfg, es + [e]) == Some(t);
  }

  // From any state in which the lock is free, a new stream becomes leader at once.
  lemma Elect(cfg: Config, s: State, i: Stream) returns (t: State)
    requires Reachable(cfg, s) && Enabled(cfg, s, Start(i)) && !Held(s)
    ensures Reachable(cfg, t)
    ensures t == State(s.now, Renewed(cfg, s, cfg.instance(i)),
                       s.streams[i := Waiting(true, s.now + LockRefreshInterval(cfg.ttl))])
  {
    t := Extend(cfg, s, Start(i));
    t := BootInFreeLock(cfg, t, i);
    assert t.streams == s.streams[i := t.streams[i]];
  }

  lemma BootInFreeLock(cfg: Config, s: State, i: Stream) returns (t: State)
    requires Reachable(cfg, s) && i in s.streams && s.streams[i].Booting? && !Held(s)
    ensures Reachable(cfg, t)
    ensures t == State(s.now, Renewed(cfg, s, cfg.instance(i)),
                       s.streams[i := Waiting(true, s.now + LockRefreshInterval(cfg.ttl))])
  {
    t := Extend(cfg, s, BootCommand(i, Delivered));
    t := Extend(cfg, t, BootAnswer(i));
    assert t.streams == s.streams[i := t.streams[i]];
  }

  // The lease runs out under a leader whose refresh is as late as `delay` allows.
  lemma LateRefreshBreaks(cfg: Config)
    requires cfg.ttl > 0 && Replicated(cfg)
    requires LockRefreshInterval(cfg.ttl) + 2 * cfg.delay >= cfg.ttl
    ensures !NeverTwoReaders(cfg)
  {
    var a: Stream, b: Stream :| cfg.instance(a) != cfg.instance(b);
    StartsReachable(cfg);
    var s := Extend(cfg, INIT, Start(a));
    s := Extend(cfg, s, BootCommand(a, Delivered));
    s := Extend(cfg, s, Advance(cfg.delay));
    s := Extend(cfg, s, BootAnswer(a));
    s := Extend(cfg, s, Advance(if cfg.ttl < cfg.delay then cfg.delay else cfg.ttl));
    s := Elect(cfg, s, b);
    assert Reader(s.streams[a]) && Reader(s.streams[b]);
  }

  // A stream object that starts and stops again deletes the lock its replica holds.
  lemma SiblingDeletes(cfg: Config, s: State, b: Stream) returns (t: State)
    requires Reachable(cfg, s) && Enabled(cfg, s, Start(b)) && HeldBy(s, cfg.instance(b))
    ensures Reachable(cfg, t) && t == State(s.now, None, s.streams[b := Gone])
  {
    t := Extend(cfg, s, Start(b));
    t := Extend(cfg, t, BootCommand(b, Delivered));
    t := Extend(cfg, t, BootAnswer(b));
    t := Extend(cfg, t, Stop(b));
    t := Extend(cfg, t, ReleaseCommand(b, Delivered));
    assert t.streams == s.streams[b := Gone];
  }

  // A stream object that stops deletes the lock of another stream object of its own replica.
  lemma SharedOwnerBreaks(cfg: Config)
    requires cfg.ttl > 0 && !cfg.serial && !OneStreamPerInstance(cfg)
    ensures !NeverTwoReaders(cfg)
  {
    var a: Stream, b: Stream :| cfg.instance(a) == cfg.instance(b) && a != b;
    StartsReachable(cfg);
    var s := Elect(cfg, INIT, a);
    s := SiblingDeletes(cfg, s, b);
    var c: Stream := a + b + 1;
    s := Elect(cfg, s, c);
    assert Reader(s.streams[a]) && Reader(s.streams[c]);
  }

  // Main result: in every run every leader holds the unexpired lock and is the only one,
  // exactly when the configuration is sound.
  lemma LeaderSafety(cfg: Config)
    requires cfg.ttl > 0 && Replicated(cfg)
    ensures Safe(cfg) <==> Sound(cfg)
    ensures NeverTwoReaders(cfg) <==> Sound(cfg)
  {
    assert Safe(cfg) ==> NeverTwoReaders(cfg);
    if Sound(cfg) {
      forall s | Reachable(cfg, s)
        ensures Good(cfg, s)
      {
        var es :| Exec(cfg, es) == Some(s);
        RunsKeepInv(cfg, es);
        InvImpliesGood(cfg, s);
      }
    } else if LockRefreshInterval(cfg.ttl) + 2 * cfg.delay >= cfg.ttl {
      LateRefreshBreaks(cfg);
    } else {
      SharedOwnerBreaks(cfg);
    }
  }

  // With prompt goroutines and restarts that wait for the old stream object, the configured
  // number of seconds is safe exactly when it is not 1 or 2.
  lemma PromptSafety(seconds: int, instance: Stream -> int)
    requires Replicated(Config(EffectiveTtl(seconds), 0, instance, true))
    ensures Safe(Config(EffectiveTtl(seconds), 0, instance, true)) <==> EffectiveTtl(seconds) > 2000
    ensures EffectiveTtl(seconds) > 2000 <==> seconds != 1 && seconds != 2
  {
    LeaderSafety(Config(EffectiveTtl(seconds), 0, instance, true));
  }
}
