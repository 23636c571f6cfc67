/**
  How a (re)connecting client is attached to a running stream, without Redis
  (backend/internal/api/log_stream_hub.go: subscribe, replay, ingestK8sEntry, broadcast).

  Ingesting appends an entry to the buffer and then, as a second step, broadcasts it.
  Subscribing registers the channel and then, as a second step, copies the replay out of the
  buffer.  Any number of other steps can happen in between.  An event that cannot happen in the
  current state changes nothing, so every list of events is a run.
 */
module HandOver {
  import opened LogEntries
  import opened LogBuffer
  import opened Subsequences
  import opened Wrappers
  import Decimal
  import F = Fanout

  datatype Config = Config(limits: Limits, cap: nat, parse: string -> Option<int>)

  datatype Resume = Resume(sinceId: string, sinceTime: Option<int>)

  datatype Copy = Copy(at: nat, resume: Resume, tail: int, replay: seq<LogEntry>)

  // Channel bookkeeping: how much had been broadcast at registration, and the replay.
  datatype Info = Info(from: nat, copy: Option<Copy>)

  datatype State = State(history: seq<LogEntry>, pending: bool, fan: F.State<LogEntry>, infos: seq<Info>)

  datatype Event =
    | Append(line: LogEntry)
    | Broadcast
    | Register(id: string)
    | TakeReplay(c: nat, resume: Resume, tail: int)
    | Receive(c: nat)
    | Unsubscribe(id: string)

  // logStream.replay with Redis off.
  function Replay(cfg: Config, buffer: seq<LogEntry>, resume: Resume, tail: int): seq<LogEntry> {
    var byId := if resume.sinceId != "" then AfterId(buffer, resume.sinceId) else None;
    if byId.Some? then byId.value else
    var byTime := if resume.sinceTime.Some? then NotBefore(cfg.parse, buffer, resume.sinceTime.value) else [];
    if byTime != [] then byTime
    else if tail > 0 then LastEntries(buffer, tail)
    else []
  }

  function Numbered(line: LogEntry, n: nat): LogEntry {
    line.(id := Decimal.Render(n), seqNo := n)
  }

  function Broadcasted(s: State): int {
    |s.history| - (if s.pending then 1 else 0)
  }

  predicate Enabled(s: State, e: Event) {
    match e
    case Append(_) => !s.pending
    case Broadcast => s.pending && s.history != []
    case TakeReplay(c, _, _) => c < |s.infos| && s.infos[c].copy.None?
    case _ => Broadcasted(s) >= 0
  }

  function Apply(cfg: Config, s: State, e: Event): State {
    if !Enabled(s, e) then s else
    match e
    case Append(line) => s.(history := s.history + [Numbered(line, |s.history| + 1)], pending := true)
    case Broadcast =>
      var last := s.history[|s.history| - 1];
      s.(pending := false, fan := F.Apply(cfg.cap, s.fan, F.Broadcast(last)))
    case Register(id) =>
      s.(fan := F.Apply(cfg.cap, s.fan, F.Subscribe(id)), infos := s.infos + [Info(Broadcasted(s), None)])
    case TakeReplay(c, resume, tail) =>
      var copy := Copy(|s.history|, resume, tail, Replay(cfg, Kept(cfg.limits, s.history), resume, tail));
      s.(infos := s.infos[c := s.infos[c].(copy := Some(copy))])
    case Receive(c) => s.(fan := F.Apply(cfg.cap, s.fan, F.Receive(c)))
    case Unsubscribe(id) => s.(fan := F.Apply(cfg.cap, s.fan, F.Unsubscribe(id)))
  }

  function Exec(cfg: Config, es: seq<Event>): State {
    if es == [] then State([], false, F.Init(), [])
    else Apply(cfg, Exec(cfg, es[..|es| - 1]), es[|es| - 1])
  }

  // ---- What every run keeps ----

  predicate IsNumbered(e: LogEntry, n: nat) {
    e.id == Decimal.Render(n)
  }

  // Ids are sequence numbers.
  ghost predicate NumberedFromOne(h: seq<LogEntry>) {
    forall k {:trigger IsNumbered(h[k], k + 1)} :: 0 <= k < |h| ==> IsNumbered(h[k], k + 1)
  }

  // The stretch of the history that the channel was offered.
  ghost predicate OfferedStretch(s: State, c: nat)
    requires c < |s.infos| == |s.fan.chans|
  {
    var from, n := s.infos[c].from, |s.fan.chans[c].offered|;
    from + n <= Broadcasted(s) && s.fan.chans[c].offered == s.history[from..from + n]
  }

  ghost predicate CopyTaken(cfg: Config, s: State, c: nat)
    requires c < |s.infos|
  {
    s.infos[c].copy.Some? ==>
      var k := s.infos[c].copy.value;
      && s.infos[c].from <= k.at <= |s.history|
      && k.replay == Replay(cfg, Kept(cfg.limits, s.history[..k.at]), k.resume, k.tail)
  }

  ghost predicate Inv(cfg: Config, s: State) {
    && (s.pending ==> s.history != [])
    && NumberedFromOne(s.history)
    && F.Inv(cfg.cap, s.fan)
    && |s.infos| == |s.fan.chans|
    && (forall c :: 0 <= c < |s.infos| ==> OfferedStretch(s, c) && CopyTaken(cfg, s, c))
    && (forall c :: 0 <= c < |s.infos| ==> s.infos[c].from <= Broadcasted(s))
    && (forall id :: id in s.fan.subscribers ==> UpToDate(s, s.fan.subscribers[id]))
  }

  // Everything broadcast since registration was offered.
  ghost predicate UpToDate(s: State, c: nat) {
    c < |s.infos| == |s.fan.chans| && s.infos[c].from + |s.fan.chans[c].offered| == Broadcasted(s)
  }

  lemma StretchStays(h: seq<LogEntry>, e: LogEntry, a: nat, b: nat)
    requires a <= b <= |h|
    ensures (h + [e])[a..b] == h[a..b]
  {
  }

  lemma AppendKeepsInv(cfg: Config, s: State, line: LogEntry)
    requires Inv(cfg, s) && !s.pending
    ensures Inv(cfg, Apply(cfg, s, Append(line)))
  {
    var t := Apply(cfg, s, Append(line));
    forall c | 0 <= c < |t.infos| ensures OfferedStretch(t, c) && CopyTaken(cfg, t, c) {
      assert OfferedStretch(s, c) && CopyTaken(cfg, s, c);
      var from, n := s.infos[c].from, |s.fan.chans[c].offered|;
      StretchStays(s.history, t.history[|s.history|], from, from + n);
      if s.infos[c].copy.Some? {
        StretchStays(s.history, t.history[|s.history|], 0, s.infos[c].copy.value.at);
      }
    }
    forall id | id in t.fan.subscribers ensures UpToDate(t, t.fan.subscribers[id]) {
      assert UpToDate(s, s.fan.subscribers[id]);
    }
  }

  // A broadcast extends the stretch of every registered channel by the entry just appended.
  lemma BroadcastExtends(cfg: Config, s: State, c: nat)
    requires Inv(cfg, s) && s.pending && c < |s.infos|
    ensures var t := Apply(cfg, s, Broadcast);
            |t.infos| == |t.fan.chans| && OfferedStretch(t, c)
            && (c in s.fan.subscribers.Values ==> UpToDate(t, c))
  {
    assert OfferedStretch(s, c);
    if c in s.fan.subscribers.Values {
      var id :| id in s.fan.subscribers && s.fan.subscribers[id] == c;
      assert UpToDate(s, s.fan.subscribers[id]);
      var from, n := s.infos[c].from, |s.fan.chans[c].offered|;
      assert s.history[from..from + n] + [s.history[from + n]] == s.history[from..from + n + 1];
    }
  }

  lemma BroadcastKeepsInv(cfg: Config, s: State)
    requires Inv(cfg, s) && s.pending
    ensures Inv(cfg, Apply(cfg, s, Broadcast))
  {
    var t := Apply(cfg, s, Broadcast);
    F.StepKeepsInv(cfg.cap, s.fan, F.Broadcast(s.history[|s.history| - 1]));
    forall c | 0 <= c < |t.infos| ensures OfferedStretch(t, c) && CopyTaken(cfg, t, c) {
      BroadcastExtends(cfg, s, c);
      assert CopyTaken(cfg, s, c);
    }
    forall id | id in t.fan.subscribers ensures UpToDate(t, t.fan.subscribers[id]) {
      assert t.fan.subscribers[id] in s.fan.subscribers.Values;
      assert UpToDate(s, s.fan.subscribers[id]);
      BroadcastExtends(cfg, s, t.fan.subscribers[id]);
    }
  }

  // A step that leaves history and offers alone and copies at most what the buffer holds.
  lemma QuietStepKeepsInv(cfg: Config, s: State, t: State)
    requires Inv(cfg, s) && F.Inv(cfg.cap, t.fan)
    requires t.history == s.history && t.pending == s.pending && |t.infos| == |t.fan.chans| >= |s.infos|
    requires forall c :: 0 <= c < |s.infos| ==>
               t.infos[c].from == s.infos[c].from && t.fan.chans[c].offered == s.fan.chans[c].offered
    requires forall c :: |s.infos| <= c < |t.infos| ==>
               t.infos[c] == Info(Broadcasted(s), None) && t.fan.chans[c].offered == []
    requires forall c :: 0 <= c < |s.infos| ==> t.infos[c].copy == s.infos[c].copy || CopyTaken(cfg, t, c)
    requires forall id :: id in t.fan.subscribers ==>
               t.fan.subscribers[id] >= |s.infos| ||
               (id in s.fan.subscribers && s.fan.subscribers[id] == t.fan.subscribers[id])
    ensures Inv(cfg, t)
  {
    forall c | 0 <= c < |t.infos| ensures OfferedStretch(t, c) && CopyTaken(cfg, t, c) {
      if c < |s.infos| {
        assert OfferedStretch(s, c) && CopyTaken(cfg, s, c);
      }
    }
    forall id | id in t.fan.subscribers ensures UpToDate(t, t.fan.subscribers[id]) {
      if t.fan.subscribers[id] < |s.infos| {
        assert UpToDate(s, s.fan.subscribers[id]);
      }
    }
  }

  lemma TakeReplayKeepsInv(cfg: Config, s: State, e: Event)
    requires Inv(cfg, s) && e.TakeReplay? && Enabled(s, e)
    ensures Inv(cfg, Apply(cfg, s, e))
  {
    var t := Apply(cfg, s, e);
    assert s.history[..|s.history|] == s.history;
    assert CopyTaken(cfg, t, e.c);
    QuietStepKeepsInv(cfg, s, t);
  }

  lemma FanStepKeepsInv(cfg: Config, s: State, e: Event)
    requires Inv(cfg, s) && (e.Register? || e.Receive? || e.Unsubscribe?)
    ensures Inv(cfg, Apply(cfg, s, e))
  {
    var t := Apply(cfg, s, e);
    var step := if e.Register? then F.Subscribe(e.id) else if e.Receive? then F.Receive(e.c) else F.Unsubscribe(e.id);
    F.StepKeepsInv(cfg.cap, s.fan, step);
    assert t.fan == F.Apply(cfg.cap, s.fan, step);
    QuietStepKeepsInv(cfg, s, t);
  }

  lemma {:induction false} RunsKeepInv(cfg: Config, es: seq<Event>)
    ensures Inv(cfg, Exec(cfg, es))
  {
    if es != [] {
      var s := Exec(cfg, es[..|es| - 1]);
      RunsKeepInv(cfg, es[..|es| - 1]);
      match es[|es| - 1] {
        case Append(line) =>
          if !s.pending {
            AppendKeepsInv(cfg, s, line);
          }
        case Broadcast =>
          if s.pending {
            BroadcastKeepsInv(cfg, s);
          }
        case TakeReplay(_, _, _) =>
          if Enabled(s, es[|es| - 1]) {
            TakeReplayKeepsInv(cfg, s, es[|es| - 1]);
          }
        case e => FanStepKeepsInv(cfg, s, e);
      }
    }
  }

  ghost predicate Reachable(cfg: Config, s: State) {
    exists es :: Exec(cfg, es) == s
  }

  lemma ReachableInv(cfg: Config, s: State)
    requires Reachable(cfg, s)
    ensures Inv(cfg, s)
  {
    var es :| Exec(cfg, es) == s;
    RunsKeepInv(cfg, es);
  }

  // ---- What a replay contains ----

  lemma IdsDiffer(h: seq<LogEntry>, i: nat, j: nat)
    requires NumberedFromOne(h) && i < |h| && j < |h| && h[i].id == h[j].id
    ensures i == j
  {
    assert IsNumbered(h[i], i + 1) && IsNumbered(h[j], j + 1);
    Decimal.RenderIsInjective(i + 1, j + 1);
  }

  lemma IdIsNotEmpty(h: seq<LogEntry>, i: nat)
    requires NumberedFromOne(h) && i < |h|
    ensures h[i].id != ""
  {
    assert IsNumbered(h[i], i + 1);
    Decimal.RenderedValue(i + 1);
  }

  // Ids are sequence numbers, so an id found in the buffer marks exactly one place.
  lemma AfterIdInHistory(history: seq<LogEntry>, gone: nat, m: nat)
    requires NumberedFromOne(history) && gone + m < |history|
    ensures AfterId(history[gone..], history[gone + m].id) == Some(history[gone + m + 1..])
  {
    var kept, id := history[gone..], history[gone + m].id;
    forall j | 0 <= j < m ensures kept[j].id != id {
      assert kept[j] == history[gone + j];
      if kept[j].id == id {
        IdsDiffer(history, gone + j, gone + m);
      }
    }
    AfterIdFound(kept, id, m);
    SliceOfSuffix(history, gone, m + 1);
  }

  lemma ReplayAfterKnownId(cfg: Config, h: seq<LogEntry>, buffer: seq<LogEntry>, resume: Resume, tail: int, m: nat)
    requires NumberedFromOne(h) && |buffer| <= |h| && buffer == h[|h| - |buffer|..]
    requires m < |buffer| && buffer[m].id == resume.sinceId
    ensures Replay(cfg, buffer, resume, tail) == h[|h| - |buffer| + m + 1..]
  {
    var gone := |h| - |buffer|;
    assert buffer[m] == h[gone + m];
    IdIsNotEmpty(h, gone + m);
    AfterIdInHistory(h, gone, m);
  }

  lemma {:induction false} NotBeforeMembers(parse: string -> Option<int>, s: seq<LogEntry>, since: int, e: LogEntry)
    ensures e in NotBefore(parse, s, since) <==> e in s && IsNotBefore(parse, e, since)
  {
    if s != [] {
      NotBeforeMembers(parse, s[..|s| - 1], since, e);
      assert s == s[..|s| - 1] + [s[|s| - 1]];
    }
  }

  lemma {:induction false} NothingNotBefore(parse: string -> Option<int>, s: seq<LogEntry>, since: int)
    requires forall k :: 0 <= k < |s| ==> !IsNotBefore(parse, s[k], since)
    ensures NotBefore(parse, s, since) == []
  {
    if s != [] {
      NothingNotBefore(parse, s[..|s| - 1], since);
    }
  }

  // The id of the request is unknown, and some buffered entry is not older than its time.
  ghost predicate ResumesByTime(cfg: Config, buffer: seq<LogEntry>, resume: Resume) {
    && (resume.sinceId == "" || AfterId(buffer, resume.sinceId).None?)
    && resume.sinceTime.Some?
    && exists k :: 0 <= k < |buffer| && IsNotBefore(cfg.parse, buffer[k], resume.sinceTime.value)
  }

  // Such a request replays exactly the buffered entries that are not older.
  lemma ReplayIsTheRecent(cfg: Config, buffer: seq<LogEntry>, resume: Resume, tail: int, e: LogEntry)
    requires ResumesByTime(cfg, buffer, resume)
    ensures e in Replay(cfg, buffer, resume, tail) <==>
              e in buffer && IsNotBefore(cfg.parse, e, resume.sinceTime.value)
  {
    ReplayIsByTime(cfg, buffer, resume, tail);
    NotBeforeMembers(cfg.parse, buffer, resume.sinceTime.value, e);
  }

  lemma ReplayIsByTime(cfg: Config, buffer: seq<LogEntry>, resume: Resume, tail: int)
    requires ResumesByTime(cfg, buffer, resume)
    ensures Replay(cfg, buffer, resume, tail) == NotBefore(cfg.parse, buffer, resume.sinceTime.value)
  {
    var k :| 0 <= k < |buffer| && IsNotBefore(cfg.parse, buffer[k], resume.sinceTime.value);
    NotBeforeMembers(cfg.parse, buffer, resume.sinceTime.value, buffer[k]);
  }

  // ---- Main results ----

  // `p` entries of the history are before the place the client resumes from, and the replay is
  // the rest of what had been appended when it was copied.
  ghost predicate ResumesAt(s: State, c: nat, p: nat) {
    && c < |s.infos| == |s.fan.chans| && s.infos[c].copy.Some?
    && p <= s.infos[c].copy.value.at <= |s.history|
    && s.infos[c].copy.value.replay == s.history[p..s.infos[c].copy.value.at]
  }

  // The buffer as it was when channel `c` copied its replay.
  ghost function BufferSeen(cfg: Config, s: State, c: nat): seq<LogEntry>
    requires c < |s.infos| && s.infos[c].copy.Some? && s.infos[c].copy.value.at <= |s.history|
  {
    Kept(cfg.limits, s.history[..s.infos[c].copy.value.at])
  }

  // A resume id that the buffer held marks the place right after its entry.
  lemma KnownIdHasPlace(cfg: Config, s: State, c: nat, m: nat)
    requires Reachable(cfg, s) && c < |s.infos| && s.infos[c].copy.Some?
    requires s.infos[c].copy.value.at <= |s.history|
    requires m < |BufferSeen(cfg, s, c)| && BufferSeen(cfg, s, c)[m].id == s.infos[c].copy.value.resume.sinceId
    ensures |BufferSeen(cfg, s, c)| <= s.infos[c].copy.value.at
    ensures ResumesAt(s, c, s.infos[c].copy.value.at - |BufferSeen(cfg, s, c)| + m + 1)
  {
    ReachableInv(cfg, s);
    assert CopyTaken(cfg, s, c);
    var k := s.infos[c].copy.value;
    KeptIsFittingSuffix(cfg.limits, s.history[..k.at]);
    KnownIdInHistory(cfg, s.history, k, BufferSeen(cfg, s, c), m);
  }

  lemma KnownIdInHistory(cfg: Config, h: seq<LogEntry>, k: Copy, buffer: seq<LogEntry>, m: nat)
    requires NumberedFromOne(h) && k.at <= |h| && |buffer| <= k.at && buffer == h[..k.at][k.at - |buffer|..]
    requires m < |buffer| && buffer[m].id == k.resume.sinceId
    requires k.replay == Replay(cfg, buffer, k.resume, k.tail)
    ensures k.replay == h[k.at - |buffer| + m + 1..k.at]
  {
    assert NumberedFromOne(h[..k.at]) by {
      forall i | 0 <= i < k.at ensures IsNumbered(h[..k.at][i], i + 1) {
        assert IsNumbered(h[i], i + 1);
      }
    }
    ReplayAfterKnownId(cfg, h[..k.at], buffer, k.resume, k.tail, m);
  }

  // Neither the id nor the time of the request leads to any buffered entry.
  ghost predicate NothingToResume(cfg: Config, buffer: seq<LogEntry>, resume: Resume) {
    && (resume.sinceId == "" || AfterId(buffer, resume.sinceId).None?)
    && (resume.sinceTime.Some? ==>
          forall k :: 0 <= k < |buffer| ==> !IsNotBefore(cfg.parse, buffer[k], resume.sinceTime.value))
  }

  lemma ReplayIsTheTail(cfg: Config, h: seq<LogEntry>, resume: Resume, tail: int)
    requires NothingToResume(cfg, Kept(cfg.limits, h), resume) && tail > 0
    ensures var n := Min(tail, |Kept(cfg.limits, h)|);
            0 <= n <= |h| && Replay(cfg, Kept(cfg.limits, h), resume, tail) == h[|h| - n..]
  {
    if resume.sinceTime.Some? {
      NothingNotBefore(cfg.parse, Kept(cfg.limits, h), resume.sinceTime.value);
    }
    LastEntriesAreNewest(cfg.limits, h, tail);
  }

  // Without a tail request such a client gets no replay.
  lemma NothingIsReplayed(cfg: Config, buffer: seq<LogEntry>, resume: Resume, tail: int)
    requires NothingToResume(cfg, buffer, resume) && tail <= 0
    ensures Replay(cfg, buffer, resume, tail) == []
  {
    if resume.sinceTime.Some? {
      NothingNotBefore(cfg.parse, buffer, resume.sinceTime.value);
    }
  }

  // A request without a resume point, or with one the buffer knows nothing about, marks the place
  // of its tail.
  lemma TailHasPlace(cfg: Config, s: State, c: nat)
    requires Reachable(cfg, s) && c < |s.infos| && s.infos[c].copy.Some?
    requires s.infos[c].copy.value.at <= |s.history|
    requires NothingToResume(cfg, BufferSeen(cfg, s, c), s.infos[c].copy.value.resume)
    requires s.infos[c].copy.value.tail > 0
    ensures var n := Min(s.infos[c].copy.value.tail, |BufferSeen(cfg, s, c)|);
            0 <= n <= s.infos[c].copy.value.at && ResumesAt(s, c, s.infos[c].copy.value.at - n)
  {
    ReachableInv(cfg, s);
    assert CopyTaken(cfg, s, c);
    var k := s.infos[c].copy.value;
    ReplayIsTheTail(cfg, s.history[..k.at], k.resume, k.tail);
    var p := k.at - Min(k.tail, |BufferSeen(cfg, s, c)|);
    assert s.history[..k.at][p..] == s.history[p..k.at];
  }

  lemma SplitStretch(h: seq<LogEntry>, a: nat, b: nat, c: nat)
    requires a <= b <= c <= |h|
    ensures h[a..b] + h[b..c] == h[a..c] && h[a..c][b - a..] == h[b..c] && h[a..c][..b - a] == h[a..b]
  {
  }

  // What a channel was offered and when its replay was copied.
  lemma ChannelFacts(cfg: Config, s: State, c: nat)
    requires Reachable(cfg, s) && c < |s.infos| == |s.fan.chans|
    ensures var from, offered := s.infos[c].from, s.fan.chans[c].offered;
            from + |offered| <= |s.history| && offered == s.history[from..from + |offered|]
    ensures s.infos[c].copy.Some? ==>
              var k := s.infos[c].copy.value;
              && s.infos[c].from <= k.at <= |s.history|
              && k.replay == Replay(cfg, Kept(cfg.limits, s.history[..k.at]), k.resume, k.tail)
    ensures NumberedFromOne(s.history)
  {
    ReachableInv(cfg, s);
    assert OfferedStretch(s, c) && CopyTaken(cfg, s, c);
  }

  // Entries are numbered, so an entry is in a stretch of the history only at its own place.
  lemma OnlyAtItsPlace(h: seq<LogEntry>, a: nat, b: nat, k: nat)
    requires NumberedFromOne(h) && a <= b <= |h| && k < |h|
    ensures h[k] in h[a..b] <==> a <= k < b
  {
    if a <= k < b {
      assert h[a..b][k - a] == h[k];
    } else if h[k] in h[a..b] {
      var j :| 0 <= j < b - a && h[a..b][j] == h[k];
      assert h[a + j] == h[k];
      IdsDiffer(h, a + j, k);
    }
  }

  // Entry by entry, also before the channel has caught up: which entries of the history are in the
  // replay and which were offered.
  lemma EveryEntryArrives(cfg: Config, s: State, c: nat, p: nat, k: nat)
    requires Reachable(cfg, s) && ResumesAt(s, c, p) && k < |s.history|
    ensures var from, at, offered := s.infos[c].from, s.infos[c].copy.value.at, s.fan.chans[c].offered;
            var replay, end := s.infos[c].copy.value.replay, from + |offered|;
            && (s.history[k] in replay <==> p <= k < at)
            && (s.history[k] in offered <==> from <= k < end)
            && (p <= k < end ==> s.history[k] in replay || s.history[k] in offered)
  {
    ChannelFacts(cfg, s, c);
    OnlyAtItsPlace(s.history, p, s.infos[c].copy.value.at, k);
    OnlyAtItsPlace(s.history, s.infos[c].from, s.infos[c].from + |s.fan.chans[c].offered|, k);
  }

  // A replay h[p..at], copied after `at` entries of the history, and the entries h[from..end] that a
  // channel was offered: together they cover the history from the place `p` on without a gap, once the
  // channel has caught up with the copy.  What they share is the stretch appended before the copy and
  // broadcast after registration, at the end of the one and at the start of the other, and nothing else.
  ghost predicate GapFree(h: seq<LogEntry>, p: nat, from: nat, at: nat, end: nat)
    requires p <= at <= |h| && from <= at && from <= end <= |h|
  {
    && (end >= at ==> h[p..at] + h[from..end][at - from..] == h[p..end])
    && (p <= from && end >= at ==> h[p..at][from - p..] == h[from..end][..at - from] == h[from..at])
    && forall k :: 0 <= k < |h| ==> (h[k] in h[p..at] && h[k] in h[from..end] <==> Max(p, from) <= k < Min(at, end))
  }

  function Max(a: int, b: int): int {
    if a < b then b else a
  }

  lemma StretchesAreGapFree(h: seq<LogEntry>, p: nat, from: nat, at: nat, end: nat)
    requires NumberedFromOne(h) && p <= at <= |h| && from <= at && from <= end <= |h|
    ensures GapFree(h, p, from, at, end)
  {
    JoinStretches(h, p, from, at, end);
    forall k | 0 <= k < |h|
      ensures h[k] in h[p..at] && h[k] in h[from..end] <==> Max(p, from) <= k < Min(at, end)
    {
      OnlyAtItsPlace(h, p, at, k);
      OnlyAtItsPlace(h, from, end, k);
    }
  }

  // Two overlapping stretches of the history.
  lemma JoinStretches(h: seq<LogEntry>, p: nat, from: nat, at: nat, end: nat)
    requires p <= at <= |h| && from <= at && from <= end <= |h|
    ensures end >= at ==> h[p..at] + h[from..end][at - from..] == h[p..end]
    ensures p <= from && end >= at ==> h[p..at][from - p..] == h[from..end][..at - from] == h[from..at]
  {
    if end >= at {
      SplitStretch(h, from, at, end);
      SplitStretch(h, p, at, end);
      if p <= from {
        SplitStretch(h, p, from, at);
      }
    }
  }

  // Main result.
  lemma HandOverIsGapFree(cfg: Config, s: State, c: nat, p: nat)
    requires Reachable(cfg, s) && ResumesAt(s, c, p)
    ensures var from, at, end := s.infos[c].from, s.infos[c].copy.value.at, s.infos[c].from + |s.fan.chans[c].offered|;
            && p <= at && from <= at && end <= |s.history|
            && s.infos[c].copy.value.replay == s.history[p..at] && s.fan.chans[c].offered == s.history[from..end]
            && GapFree(s.history, p, from, at, end)
  {
    ChannelFacts(cfg, s, c);
    StretchesAreGapFree(s.history, p, s.infos[c].from, s.infos[c].copy.value.at,
                        s.infos[c].from + |s.fan.chans[c].offered|);
  }

  // Which entries of the history a replay by time has that was copied after `at` of them.
  lemma RecentAtTheirPlaces(cfg: Config, h: seq<LogEntry>, at: nat, resume: Resume, tail: int, k: nat)
    requires NumberedFromOne(h) && at <= |h| && k < |h| && ResumesByTime(cfg, Kept(cfg.limits, h[..at]), resume)
    ensures |Kept(cfg.limits, h[..at])| <= at
    ensures h[k] in Replay(cfg, Kept(cfg.limits, h[..at]), resume, tail) <==>
              at - |Kept(cfg.limits, h[..at])| <= k < at && IsNotBefore(cfg.parse, h[k], resume.sinceTime.value)
  {
    KeptIsFittingSuffix(cfg.limits, h[..at]);
    var gone := at - |Kept(cfg.limits, h[..at])|;
    assert h[..at][gone..] == h[gone..at];
    OnlyAtItsPlace(h, gone, at, k);
    ReplayIsTheRecent(cfg, Kept(cfg.limits, h[..at]), resume, tail, h[k]);
  }

  lemma RecentInOrder(cfg: Config, h: seq<LogEntry>, at: nat, resume: Resume, tail: int)
    requires NumberedFromOne(h) && at <= |h| && ResumesByTime(cfg, Kept(cfg.limits, h[..at]), resume)
    ensures |Kept(cfg.limits, h[..at])| <= at
    ensures var replay := Replay(cfg, Kept(cfg.limits, h[..at]), resume, tail);
            Sub(replay, h[at - |Kept(cfg.limits, h[..at])|..at]) && Distinct(replay)
  {
    KeptIsFittingSuffix(cfg.limits, h[..at]);
    var kept := Kept(cfg.limits, h[..at]);
    var gone := at - |kept|;
    assert kept == h[gone..at];
    ReplayIsByTime(cfg, kept, resume, tail);
    NotBeforeIsSub(cfg.parse, kept, resume.sinceTime.value);
    StretchIsDistinct(h, gone, at);
    SubDistinct(Replay(cfg, kept, resume, tail), kept);
  }

  lemma StretchIsDistinct(h: seq<LogEntry>, a: nat, b: nat)
    requires NumberedFromOne(h) && a <= b <= |h|
    ensures Distinct(h[a..b])
  {
    forall i, j | 0 <= i < j < b - a ensures h[a..b][i] != h[a..b][j] {
      if h[a..b][i] == h[a..b][j] {
        IdsDiffer(h, a + i, a + j);
      }
    }
  }

  // The same for one entry and a request that resumes by time: the replay has exactly the entries
  // that were still buffered at the copy and are not older than the time asked for, each once and in
  // the order of the history, and such an entry is in the replay or was offered, if the channel has
  // reached it.
  ghost predicate RecentArrives(cfg: Config, h: seq<LogEntry>, at: nat, since: int, replay: seq<LogEntry>,
                                from: nat, end: nat, k: nat)
    requires at <= |h| && from <= end <= |h| && k < |h|
  {
    var gone := at - |Kept(cfg.limits, h[..at])|;
    var wanted := IsNotBefore(cfg.parse, h[k], since);
    && 0 <= gone && from <= at
    && Sub(replay, h[gone..at]) && Distinct(replay)
    && (h[k] in replay <==> gone <= k < at && wanted)
    && (h[k] in h[from..end] <==> from <= k < end)
    && (gone <= k < end && wanted ==> h[k] in replay || h[k] in h[from..end])
  }

  lemma RecentInHistory(cfg: Config, h: seq<LogEntry>, copy: Copy, from: nat, end: nat, k: nat)
    requires NumberedFromOne(h) && from <= copy.at <= |h| && from <= end <= |h| && k < |h|
    requires ResumesByTime(cfg, Kept(cfg.limits, h[..copy.at]), copy.resume)
    requires copy.replay == Replay(cfg, Kept(cfg.limits, h[..copy.at]), copy.resume, copy.tail)
    ensures RecentArrives(cfg, h, copy.at, copy.resume.sinceTime.value, copy.replay, from, end, k)
  {
    RecentAtTheirPlaces(cfg, h, copy.at, copy.resume, copy.tail, k);
    RecentInOrder(cfg, h, copy.at, copy.resume, copy.tail);
    OnlyAtItsPlace(h, from, end, k);
  }

  // The channel `c`, whose replay was copied as the request to resume by time says.
  ghost predicate TimeResumed(cfg: Config, s: State, c: nat, k: nat)
    requires c < |s.infos| == |s.fan.chans| && s.infos[c].copy.Some? && s.infos[c].copy.value.resume.sinceTime.Some?
    requires s.infos[c].copy.value.at <= |s.history| && k < |s.history|
  {
    var from, copy, end := s.infos[c].from, s.infos[c].copy.value, s.infos[c].from + |s.fan.chans[c].offered|;
    && end <= |s.history| && s.fan.chans[c].offered == s.history[from..end]
    && RecentArrives(cfg, s.history, copy.at, copy.resume.sinceTime.value, copy.replay, from, end, k)
  }

  lemma TimeResumedInState(cfg: Config, s: State, c: nat, k: nat)
    requires c < |s.infos| == |s.fan.chans| && s.infos[c].copy.Some? && NumberedFromOne(s.history)
    requires OfferedStretch(s, c) && CopyTaken(cfg, s, c) && k < |s.history|
    requires ResumesByTime(cfg, BufferSeen(cfg, s, c), s.infos[c].copy.value.resume)
    ensures TimeResumed(cfg, s, c, k)
  {
    RecentInHistory(cfg, s.history, s.infos[c].copy.value, s.infos[c].from,
                    s.infos[c].from + |s.fan.chans[c].offered|, k);
  }

  lemma TimeResumeMissesNothing(cfg: Config, s: State, c: nat, k: nat)
    requires Reachable(cfg, s) && c < |s.infos| == |s.fan.chans| && s.infos[c].copy.Some?
    requires s.infos[c].copy.value.at <= |s.history| && k < |s.history|
    requires ResumesByTime(cfg, BufferSeen(cfg, s, c), s.infos[c].copy.value.resume)
    ensures TimeResumed(cfg, s, c, k)
  {
    ReachableInv(cfg, s);
    assert OfferedStretch(s, c) && CopyTaken(cfg, s, c);
    TimeResumedInState(cfg, s, c, k);
  }

  // While the subscriber is registered, the channel was offered everything broadcast so far.
  lemma RegisteredIsUpToDate(cfg: Config, s: State, id: string)
    requires Reachable(cfg, s) && id in s.fan.subscribers
    ensures UpToDate(s, s.fan.subscribers[id])
  {
    ReachableInv(cfg, s);
  }

  // End to end: a registered client whose channel dropped nothing and was drained, once everything
  // appended is broadcast, has seen all of the history after its place, repeating only the overlap.
  lemma DrainedClientMissesNothing(cfg: Config, s: State, id: string, p: nat)
    requires Reachable(cfg, s) && id in s.fan.subscribers && !s.pending
    requires ResumesAt(s, s.fan.subscribers[id], p)
    requires var ch := s.fan.chans[s.fan.subscribers[id]]; ch.dropped == 0 && ch.queue == []
    ensures var c := s.fan.subscribers[id];
            var overlap, got := s.infos[c].copy.value.at - s.infos[c].from, s.fan.chans[c].received;
            && 0 <= overlap <= |got|
            && s.infos[c].copy.value.replay + got[overlap..] == s.history[p..]
  {
    var c := s.fan.subscribers[id];
    RegisteredIsUpToDate(cfg, s, id);
    ReachableInv(cfg, s);
    HandOverIsGapFree(cfg, s, c, p);
    assert F.Conserved(cfg.cap, s.fan.chans[c]);
    F.NoDropMeansEverything(cfg.cap, s.fan.chans[c]);
    assert s.fan.chans[c].received == s.fan.chans[c].offered;
    assert s.history[p..|s.history|] == s.history[p..];
  }

  // ---- Lines in, channels out ----

  // Registration notes how much was broadcast, and the copy is taken from the buffer as it is then.
  lemma SubscribingTakesPlace(cfg: Config, s: State, id: string, c: nat, resume: Resume, tail: int)
    requires Inv(cfg, s)
    ensures var t := Apply(cfg, s, Register(id));
            && |t.infos| == |s.infos| + 1 && t.fan.subscribers[id] == |s.infos|
            && t.infos[|s.infos|].copy == None
            && t.infos[|s.infos|].from == |s.history| - (if s.pending then 1 else 0)
    ensures c < |s.infos| && s.infos[c].copy.None? ==>
              var copy := Apply(cfg, s, TakeReplay(c, resume, tail)).infos[c].copy;
              copy.Some? && copy.value.at == |s.history| && copy.value.resume == resume && copy.value.tail == tail
  {
  }

  // The lines ingested so far: the goroutine reads the next one only after it has broadcast the last.
  ghost function Ingested(cfg: Config, es: seq<Event>): seq<LogEntry> {
    if es == [] then []
    else
      var n := |es| - 1;
      Ingested(cfg, es[..n]) + if es[n].Append? && !Exec(cfg, es[..n]).pending then [es[n].line] else []
  }

  // An entry of the history is the line, with its number.
  ghost predicate IsLine(e: LogEntry, line: LogEntry, n: nat) {
    && e.message == line.message && e.timestamp == line.timestamp
    && e.podName == line.podName && e.containerName == line.containerName
    && e.seqNo == n && IsNumbered(e, n)
  }

  ghost predicate AreLines(h: seq<LogEntry>, lines: seq<LogEntry>) {
    |h| == |lines| && forall k :: 0 <= k < |h| ==> IsLine(h[k], lines[k], k + 1)
  }

  lemma HistoryStep(cfg: Config, s: State, e: Event)
    ensures if e.Append? && !s.pending
            then exists x :: Apply(cfg, s, e).history == s.history + [x] && IsLine(x, e.line, |s.history| + 1)
            else Apply(cfg, s, e).history == s.history
  {
    if e.Append? && !s.pending {
      assert Apply(cfg, s, e).history == s.history + [Numbered(e.line, |s.history| + 1)];
    }
  }

  // The history has exactly those lines, in order, numbered from one.
  lemma {:induction false} HistoryIsIngested(cfg: Config, es: seq<Event>)
    ensures AreLines(Exec(cfg, es).history, Ingested(cfg, es))
  {
    if es != [] {
      HistoryIsIngested(cfg, es[..|es| - 1]);
      HistoryStep(cfg, Exec(cfg, es[..|es| - 1]), es[|es| - 1]);
    }
  }

  // What a step does to the channels: at most one of their operations.
  function FanStep(s: State, e: Event): Option<F.Event<LogEntry>> {
    match e
    case Broadcast => if s.pending && s.history != [] then Some(F.Broadcast(s.history[|s.history| - 1])) else None
    case Register(id) => Some(F.Subscribe(id))
    case Receive(c) => Some(F.Receive(c))
    case Unsubscribe(id) => Some(F.Unsubscribe(id))
    case _ => None
  }

  ghost function FanEvents(cfg: Config, es: seq<Event>): seq<F.Event<LogEntry>> {
    if es == [] then []
    else
      var n := |es| - 1;
      var step := FanStep(Exec(cfg, es[..n]), es[n]);
      FanEvents(cfg, es[..n]) + if step.Some? then [step.value] else []
  }

  lemma FanStepIsStep(cfg: Config, s: State, e: Event)
    requires s.pending ==> s.history != []
    ensures Apply(cfg, s, e).fan == if FanStep(s, e).None? then s.fan else F.Apply(cfg.cap, s.fan, FanStep(s, e).value)
  {
  }

  lemma {:induction false} FanIsRun(cfg: Config, es: seq<Event>)
    ensures Exec(cfg, es).fan == F.Exec(cfg.cap, FanEvents(cfg, es))
  {
    if es != [] {
      var n := |es| - 1;
      FanIsRun(cfg, es[..n]);
      RunsKeepInv(cfg, es[..n]);
      FanStepIsStep(cfg, Exec(cfg, es[..n]), es[n]);
      var step := FanStep(Exec(cfg, es[..n]), es[n]);
      if step.Some? {
        F.ExecSnoc(cfg.cap, FanEvents(cfg, es[..n]), step.value);
      } else {
        assert FanEvents(cfg, es[..n]) + [] == FanEvents(cfg, es[..n]);
      }
    }
  }

  // So a channel drops an entry exactly when it is broadcast while the channel is registered and its
  // queue is at capacity.
  lemma DropsAreOverflows(cfg: Config, es: seq<Event>, c: nat)
    requires c < |Exec(cfg, es).fan.chans|
    ensures var ch, fs := Exec(cfg, es).fan.chans[c], FanEvents(cfg, es);
            && ch.offered == F.Sent(cfg.cap, fs, c) && ch.received + ch.queue == F.Fitting(cfg.cap, fs, c)
            && ch.dropped == F.Overflows(cfg.cap, fs, c)
  {
    FanIsRun(cfg, es);
    F.ChannelHistory(cfg.cap, FanEvents(cfg, es), c);
  }
}
