/**
  What the lock commands achieve, and how long a stream can be without a leader
  (backend/internal/api/log_stream_hub.go, run and the three lock functions).
 */
module LeaseProgress {
  import opened Lease
  import opened Wrappers

  // ---- One command and its answer ----

  // The lock as a command leaves it for the stream object `i`.
  function Leased(cfg: Config, s: State, i: Stream): Option<Lock> {
    Some(Lock(cfg.instance(i), s.now + cfg.ttl))
  }

  // A follower's tick takes the lock exactly if it is free, and the follower leads exactly if it also
  // learns so.
  lemma FollowerTick(cfg: Config, s: State, i: Stream, fault: Fault)
    requires i in s.streams && s.streams[i].Ticking? && !s.streams[i].leader
    ensures var t := Apply(cfg, s, TickCommand(i, fault));
            var u := Apply(cfg, t, TickAnswer(i));
            var won := !Held(s) && fault == Delivered;
            && t.lock == u.lock == (if !Held(s) && fault != CommandLost then Leased(cfg, s, i) else s.lock)
            && u.streams == s.streams[i := Waiting(won, s.streams[i].next + LockRefreshInterval(cfg.ttl))]
            && (Reader(t.streams[i]) <==> won) && (Reader(u.streams[i]) <==> won)
            && t.now == u.now == s.now
  {
    var t := Apply(cfg, s, TickCommand(i, fault));
    assert t.streams[i := Apply(cfg, t, TickAnswer(i)).streams[i]] ==
           s.streams[i := Apply(cfg, t, TickAnswer(i)).streams[i]];
  }

  // A leader's tick renews the lease exactly if its replica still holds it, and the leader goes on
  // exactly if it also learns so.
  lemma LeaderTick(cfg: Config, s: State, i: Stream, fault: Fault)
    requires i in s.streams && s.streams[i].Ticking? && s.streams[i].leader
    ensures var t := Apply(cfg, s, TickCommand(i, fault));
            var u := Apply(cfg, t, TickAnswer(i));
            var kept := HeldBy(s, cfg.instance(i)) && fault == Delivered;
            && t.lock == u.lock ==
                 (if HeldBy(s, cfg.instance(i)) && fault != CommandLost then Leased(cfg, s, i) else s.lock)
            && u.streams == s.streams[i := Waiting(kept, s.streams[i].next + LockRefreshInterval(cfg.ttl))]
            && Reader(t.streams[i]) && (Reader(u.streams[i]) <==> kept)
            && t.now == u.now == s.now
  {
    var t := Apply(cfg, s, TickCommand(i, fault));
    assert t.streams[i := Apply(cfg, t, TickAnswer(i)).streams[i]] ==
           s.streams[i := Apply(cfg, t, TickAnswer(i)).streams[i]];
  }

  // Starting up is like a follower's tick, and the first tick comes one interval later.
  lemma BootTakesFreeLock(cfg: Config, s: State, i: Stream, fault: Fault)
    requires i in s.streams && s.streams[i].Booting?
    ensures var t := Apply(cfg, s, BootCommand(i, fault));
            var u := Apply(cfg, t, BootAnswer(i));
            var won := !Held(s) && fault == Delivered;
            && t.lock == u.lock == (if !Held(s) && fault != CommandLost then Leased(cfg, s, i) else s.lock)
            && u.streams == s.streams[i := Waiting(won, s.now + LockRefreshInterval(cfg.ttl))]
            && (Reader(t.streams[i]) <==> won) && (Reader(u.streams[i]) <==> won)
  {
    var t := Apply(cfg, s, BootCommand(i, fault));
    assert t.streams[i := Apply(cfg, t, BootAnswer(i)).streams[i]] ==
           s.streams[i := Apply(cfg, t, BootAnswer(i)).streams[i]];
  }

  // A stream object that stops frees the lock exactly if its replica holds it.
  lemma ReleaseFrees(cfg: Config, s: State, i: Stream, fault: Fault)
    requires i in s.streams && s.streams[i].Stopping?
    ensures var t := Apply(cfg, s, ReleaseCommand(i, fault));
            && t.lock == (if HeldBy(s, cfg.instance(i)) && fault != CommandLost then None else s.lock)
            && t.streams == s.streams[i := Gone] && !Reader(s.streams[i]) && !Reader(t.streams[i])
  {
  }

  // ---- Reachable states ----

  // No goroutine is late, and its next tick is at most one interval away.
  ghost predicate Punctual(cfg: Config, m: Mode, now: nat) {
    && InTime(cfg, m, now)
    && (m.Waiting? ==> m.next <= now + LockRefreshInterval(cfg.ttl))
    && (m.Ticking? || m.TickAnswered? ==> m.next <= now)
    && (m.BootAnswered? ==> m.at <= now)
  }

  ghost predicate AllPunctual(cfg: Config, s: State) {
    forall i :: i in s.streams ==> Punctual(cfg, s.streams[i], s.now)
  }

  lemma StepKeepsPunctual(cfg: Config, s: State, e: Event)
    requires AllPunctual(cfg, s) && Enabled(cfg, s, e)
    ensures AllPunctual(cfg, Apply(cfg, s, e))
  {
    var t := Apply(cfg, s, e);
    forall j | j in t.streams ensures Punctual(cfg, t.streams[j], t.now) {
      if j in s.streams {
        assert Punctual(cfg, s.streams[j], s.now);
      }
    }
  }

  lemma {:induction false} RunsArePunctual(cfg: Config, es: seq<Event>)
    requires Exec(cfg, es).Some?
    ensures AllPunctual(cfg, Exec(cfg, es).value)
  {
    if es != [] {
      RunsArePunctual(cfg, es[..|es| - 1]);
      StepKeepsPunctual(cfg, Exec(cfg, es[..|es| - 1]).value, es[|es| - 1]);
    }
  }

  // Once the lock is free, a tick of any waiting follower elects it.
  lemma FreeLockElects(cfg: Config, s: State, i: Stream) returns (t: State)
    requires Reachable(cfg, s) && i in s.streams && s.streams[i].Waiting? && !s.streams[i].leader
    requires s.streams[i].next <= s.now && !Held(s)
    ensures Reachable(cfg, t) && t.now == s.now && t.lock == Leased(cfg, s, i)
    ensures i in t.streams && Reader(t.streams[i]) && forall j :: j in s.streams && j != i ==>
              j in t.streams && t.streams[j] == s.streams[j]
  {
    t := Extend(cfg, s, Tick(i));
    t := Extend(cfg, t, TickCommand(i, Delivered));
    t := Extend(cfg, t, TickAnswer(i));
  }

  // ---- Failover ----

  ghost function RunFrom(cfg: Config, s: State, es: seq<Event>): Option<State>
    decreases |es|
  {
    if es == [] then Some(s)
    else if Enabled(cfg, s, es[0]) then RunFrom(cfg, Apply(cfg, s, es[0]), es[1..])
    else None
  }

  // Somebody holds the lock at some moment of the run.
  ghost predicate HeldDuring(cfg: Config, s: State, es: seq<Event>)
    decreases |es|
  {
    Held(s) || (es != [] && Enabled(cfg, s, es[0]) && HeldDuring(cfg, Apply(cfg, s, es[0]), es[1..]))
  }

  // The stream object is not stopped, and its commands get through.
  ghost predicate Undisturbed(es: seq<Event>, i: Stream) {
    forall k :: 0 <= k < |es| ==> es[k] != Stop(i) && (es[k].TickCommand? && es[k].i == i ==> es[k].fault == Delivered)
  }

  predicate Follows(m: Mode) {
    (m.Waiting? || m.Ticking?) && !m.leader
  }

  lemma {:induction false} HeldByNextTick(cfg: Config, s: State, es: seq<Event>, i: Stream)
    requires cfg.ttl > 0 && RunFrom(cfg, s, es).Some? && Undisturbed(es, i)
    requires i in s.streams && Follows(s.streams[i]) && s.now <= s.streams[i].next + cfg.delay
    requires RunFrom(cfg, s, es).value.now > s.streams[i].next + cfg.delay
    ensures HeldDuring(cfg, s, es)
    decreases |es|
  {
    var e := es[0];
    var t := Apply(cfg, s, e);
    assert forall k :: 0 <= k < |es| - 1 ==> es[1..][k] == es[k + 1];
    if e.TickCommand? && e.i == i {
      FollowerTick(cfg, s, i, Delivered);
      assert Held(s) || Held(t);
    } else {
      FollowsOn(cfg, s, e, i);
      HeldByNextTick(cfg, t, es[1..], i);
    }
  }

  // Any other step leaves the follower waiting for the same tick.
  lemma FollowsOn(cfg: Config, s: State, e: Event, i: Stream)
    requires Enabled(cfg, s, e) && e != Stop(i) && !(e.TickCommand? && e.i == i)
    requires i in s.streams && Follows(s.streams[i]) && s.now <= s.streams[i].next + cfg.delay
    ensures var t := Apply(cfg, s, e);
            i in t.streams && Follows(t.streams[i]) && t.streams[i].next == s.streams[i].next
            && t.now <= s.streams[i].next + cfg.delay
  {
  }

  // Main result: while a follower lives whose commands get through, the lock is never free for longer
  // than one refresh interval and the delay, from whatever state on.
  lemma FailoverBound(cfg: Config, s: State, es: seq<Event>, i: Stream)
    requires cfg.ttl > 0 && Reachable(cfg, s)
    requires RunFrom(cfg, s, es).Some? && Undisturbed(es, i) && i in s.streams && Follows(s.streams[i])
    requires RunFrom(cfg, s, es).value.now > s.now + LockRefreshInterval(cfg.ttl) + cfg.delay
    ensures HeldDuring(cfg, s, es)
  {
    var before :| Exec(cfg, before) == Some(s);
    RunsArePunctual(cfg, before);
    assert Punctual(cfg, s.streams[i], s.now);
    HeldByNextTick(cfg, s, es, i);
  }
}
