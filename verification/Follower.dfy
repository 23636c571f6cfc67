/**
  A follower replica reading the shared Redis stream
  (backend/internal/api/log_stream_hub.go: consumeRedis, fetchRedisTail, parseRedisMessage,
  addRedisEntry).

  Redis is an append-only list of messages with growing ids, of which an oldest part can have
  been trimmed.  A session sees it at several moments: once for the prefill, once per XREAD.
 */
module Follower {
  import opened LogEntries
  import opened Subsequences
  import opened Wrappers
  import Decimal

  datatype RedisId = RedisId(ms: nat, n: nat)

  predicate Before(a: RedisId, b: RedisId) {
    a.ms < b.ms || (a.ms == b.ms && a.n < b.n)
  }

  const ZERO := RedisId(0, 0)

  function IdText(id: RedisId): string {
    Decimal.Render(id.ms) + "-" + Decimal.Render(id.n)
  }

  datatype Msg = Msg(id: RedisId, fields: map<string, string>)

  // The stream at one moment.
  datatype Snapshot = Snapshot(log: seq<Msg>, trimmed: nat)

  // The stream of one pod and container; `clock(id)` is the time at which a message was parsed.
  datatype Source = Source(pod: string, container: string, clock: RedisId -> string)

  // How many messages are prefilled, and how messages are parsed.
  datatype Config = Config(count: int, parse: Msg -> Option<LogEntry>)

  const UINT64: nat := 0x1_0000_0000_0000_0000

  function FieldOr(m: Msg, name: string, default: string): string {
    if name in m.fields && m.fields[name] != "" then m.fields[name] else default
  }

  // parseRedisMessage
  function Parse(src: Source, m: Msg): Option<LogEntry> {
    var seqNo := Decimal.Parse(FieldOr(m, "seq", ""), UINT64);
    if FieldOr(m, "msg", "") == "" then None
    else Some(LogEntry(IdText(m.id), if seqNo.Some? then seqNo.value else 0,
                       FieldOr(m, "ts", src.clock(m.id)), FieldOr(m, "msg", ""),
                       FieldOr(m, "pod", src.pod), FieldOr(m, "container", src.container)))
  }

  function FollowerConfig(src: Source, count: int): Config {
    Config(count, m => Parse(src, m))
  }

  // ---- What the leader writes is what a follower reads ----

  // addRedisEntry, with the id that Redis assigned.
  function Written(id: RedisId, e: LogEntry): Msg {
    Msg(id, map["ts" := e.timestamp, "msg" := e.message, "pod" := e.podName,
                "container" := e.containerName, "seq" := Decimal.Render(e.seqNo)])
  }

  // Of any message: it is refused exactly without a text, its number is the decimal one it carries or
  // zero, and what it does not say about its origin is that of the stream.
  lemma AnyMessage(src: Source, m: Msg, n: nat)
    ensures Parse(src, m).None? <==> "msg" !in m.fields || m.fields["msg"] == ""
    ensures var e := Parse(src, m);
            e.Some? ==>
              && e.value.id == IdText(m.id) && e.value.message == m.fields["msg"]
              && (n < UINT64 && "seq" in m.fields && m.fields["seq"] == Decimal.Render(n) ==> e.value.seqNo == n)
              && ("seq" !in m.fields ==> e.value.seqNo == 0)
              && e.value.timestamp == (if Says(m, "ts") then m.fields["ts"] else src.clock(m.id))
              && e.value.podName == (if Says(m, "pod") then m.fields["pod"] else src.pod)
              && e.value.containerName == (if Says(m, "container") then m.fields["container"] else src.container)
  {
    Decimal.ParseRendered(n, UINT64);
    Decimal.RenderedValue(n);
  }

  predicate Says(m: Msg, name: string) {
    name in m.fields && m.fields[name] != ""
  }

  // What the leader of this stream ingests.
  predicate Ingested(src: Source, e: LogEntry) {
    e.podName == src.pod && e.containerName == src.container && e.timestamp != "" && e.seqNo < UINT64
  }

  // An entry of this stream comes back unchanged, under its Redis id, exactly when it has a text:
  // empty lines reach the leader's subscribers but no follower's.
  lemma LeaderToFollower(src: Source, id: RedisId, e: LogEntry)
    requires Ingested(src, e)
    ensures Parse(src, Written(id, e)) == Some(e.(id := IdText(id))) <==> e.message != ""
    ensures Parse(src, Written(id, e)) == None <==> e.message == ""
  {
    Decimal.ParseRendered(e.seqNo, UINT64);
    Decimal.RenderedValue(e.seqNo);
  }

  // ---- Redis commands ----

  ghost predicate Ordered(log: seq<Msg>) {
    && (forall i, j :: 0 <= i < j < |log| ==> Before(log[i].id, log[j].id))
    && forall i :: 0 <= i < |log| ==> Before(ZERO, log[i].id)
  }

  ghost predicate Proper(s: Snapshot) {
    Ordered(s.log) && s.trimmed <= |s.log|
  }

  ghost predicate Later(a: Snapshot, b: Snapshot) {
    a.log <= b.log && a.trimmed <= b.trimmed
  }

  function Visible(s: Snapshot): seq<Msg>
    requires s.trimmed <= |s.log|
  {
    s.log[s.trimmed..]
  }

  // XREVRANGE + - COUNT n, in ascending order.
  function Newest(s: Snapshot, n: nat): seq<Msg>
    requires s.trimmed <= |s.log|
  {
    var v := Visible(s);
    if n < |v| then v[|v| - n..] else v
  }

  // XREAD: the visible messages after the cursor.
  function Beyond(ms: seq<Msg>, cursor: RedisId): seq<Msg> {
    if ms == [] then [] else (if Before(cursor, ms[0].id) then [ms[0]] else []) + Beyond(ms[1..], cursor)
  }

  // The entries of the messages that can be parsed, in order.
  function Parsed(cfg: Config, ms: seq<Msg>): seq<LogEntry> {
    if ms == [] then []
    else Parsed(cfg, ms[..|ms| - 1]) + Entry(cfg, ms[|ms| - 1])
  }

  function Entry(cfg: Config, m: Msg): seq<LogEntry> {
    var e := cfg.parse(m);
    if e.Some? then [e.value] else []
  }

  lemma {:induction false} ParsedAppend(cfg: Config, a: seq<Msg>, b: seq<Msg>)
    ensures Parsed(cfg, a + b) == Parsed(cfg, a) + Parsed(cfg, b)
    decreases |b|
  {
    if b == [] {
      assert a + b == a;
    } else {
      var n := |b| - 1;
      assert (a + b)[..|a| + n] == a + b[..n];
      ParsedAppend(cfg, a, b[..n]);
      Assoc(Parsed(cfg, a), Parsed(cfg, b[..n]), Entry(cfg, b[n]));
    }
  }

  // Ids grow, so what is beyond a cursor is a suffix.
  lemma {:induction false} BeyondIsSuffix(ms: seq<Msg>, k: nat, cursor: RedisId)
    requires k <= |ms|
    requires forall i :: 0 <= i < k ==> !Before(cursor, ms[i].id)
    requires forall i :: k <= i < |ms| ==> Before(cursor, ms[i].id)
    ensures Beyond(ms, cursor) == ms[k..]
  {
    if ms != [] {
      assert ms == [ms[0]] + ms[1..];
      BeyondIsSuffix(ms[1..], if k == 0 then 0 else k - 1, cursor);
    }
  }

  // ---- A session on values ----

  // `start` counts the messages before the first one the session was given, `reached` those that
  // existed at its last successful command.
  datatype Session = Session(start: nat, reached: nat, delivered: seq<LogEntry>)

  function Max(a: nat, b: nat): nat {
    if a > b then a else b
  }

  function Prefill(cfg: Config, tail: Option<Snapshot>): Session
    requires tail.Some? ==> tail.value.trimmed <= |tail.value.log|
  {
    if tail.None? || cfg.count <= 0 || Visible(tail.value) == [] then Session(0, 0, [])
    else
      var n, newest := |tail.value.log|, Newest(tail.value, cfg.count);
      Session(n - |newest|, n, Parsed(cfg, newest))
  }

  // Where a prefill of `count` messages starts: nothing trimmed, and no more than asked for.
  function TailStart(count: int, tail: Snapshot): int {
    if count < |tail.log| - tail.trimmed then |tail.log| - count else tail.trimmed
  }

  // The prefill reaches to the end of the stream and takes the newest messages, as many as were asked
  // for and are there.
  lemma PrefillIsNewest(cfg: Config, tail: Snapshot)
    requires tail.trimmed < |tail.log| && cfg.count > 0
    ensures var s := Prefill(cfg, Some(tail)); var n := |tail.log| - s.start;
            && s.reached == |tail.log| && tail.trimmed <= s.start == TailStart(cfg.count, tail) < |tail.log|
            && n <= cfg.count && (n < cfg.count ==> s.start == tail.trimmed)
            && s.delivered == Parsed(cfg, tail.log[s.start..])
  {
    assert Newest(tail, cfg.count) == tail.log[TailStart(cfg.count, tail)..];
  }

  // A session that was given everything parseable up to `reached` gets everything after it that
  // was not trimmed.
  function AfterPoll(cfg: Config, s: Session, now: Snapshot): Session {
    if s.reached > |now.log| || now.trimmed > |now.log| then s else
    Session(if s.reached == 0 then now.trimmed else s.start, |now.log|,
            s.delivered + Parsed(cfg, now.log[Max(s.reached, now.trimmed)..]))
  }

  // A poll that failed or timed out changes nothing.
  function AfterPolls(cfg: Config, s: Session, polls: seq<Option<Snapshot>>): Session {
    if polls == [] then s
    else
      var before, last := AfterPolls(cfg, s, polls[..|polls| - 1]), polls[|polls| - 1];
      if last.None? then before else AfterPoll(cfg, before, last.value)
  }

  // The moments of a session, in order: the stream only grows, and trimming never goes back.
  ghost predicate Timeline(first: Snapshot, polls: seq<Option<Snapshot>>) {
    && Proper(first)
    && (forall k :: 0 <= k < |polls| && polls[k].Some? ==> Proper(polls[k].value) && Later(first, polls[k].value))
    && (forall j, k :: 0 <= j < k < |polls| && polls[j].Some? && polls[k].Some? ==>
          Later(polls[j].value, polls[k].value))
  }

  // The stream at the last successful poll, or at the start.
  function LastSeen(first: Snapshot, polls: seq<Option<Snapshot>>): Snapshot {
    if polls == [] then first
    else if polls[|polls| - 1].Some? then polls[|polls| - 1].value
    else LastSeen(first, polls[..|polls| - 1])
  }

  lemma {:induction false} LastSeenInTime(first: Snapshot, polls: seq<Option<Snapshot>>)
    requires Timeline(first, polls)
    ensures Proper(LastSeen(first, polls)) && Later(first, LastSeen(first, polls))
  {
    if polls != [] && polls[|polls| - 1].None? {
      LastSeenInTime(first, polls[..|polls| - 1]);
    }
  }

  lemma {:induction false} LastSeenBefore(first: Snapshot, polls: seq<Option<Snapshot>>, k: nat)
    requires Timeline(first, polls) && k < |polls| && polls[k].Some?
    ensures Later(LastSeen(first, polls[..k]), polls[k].value)
    decreases k
  {
    if k > 0 {
      var front := polls[..k];
      if front[k - 1].Some? {
        assert Later(polls[k - 1].value, polls[k].value);
      } else {
        assert front[..k - 1] == polls[..k - 1];
        var shorter := polls[..k - 1] + [polls[k]];
        assert Timeline(first, shorter);
        LastSeenBefore(first, shorter, k - 1);
        assert shorter[..k - 1] == polls[..k - 1];
      }
    }
  }

  // Nothing that could be parsed was trimmed before this poll could see it.
  ghost predicate Lossless(cfg: Config, s: Session, now: Snapshot) {
    s.reached == 0 || s.reached >= now.trimmed || now.trimmed > |now.log|
    || Parsed(cfg, now.log[s.reached..now.trimmed]) == []
  }

  ghost predicate LosslessPolls(cfg: Config, s: Session, polls: seq<Option<Snapshot>>) {
    polls != [] ==>
      var front, last := polls[..|polls| - 1], polls[|polls| - 1];
      LosslessPolls(cfg, s, front) && (last.Some? ==> Lossless(cfg, AfterPolls(cfg, s, front), last.value))
  }

  // The session was given the parseable messages of the stretch, or some of them, in order.
  ghost predicate Stretch(cfg: Config, s: Session, log: seq<Msg>) {
    s.start <= s.reached <= |log| && Sub(s.delivered, Parsed(cfg, log[s.start..s.reached]))
  }

  ghost predicate Exact(cfg: Config, s: Session, log: seq<Msg>) {
    s.start <= s.reached <= |log| && s.delivered == Parsed(cfg, log[s.start..s.reached])
  }

  lemma StretchGrows(cfg: Config, s: Session, a: seq<Msg>, b: seq<Msg>)
    requires a <= b && s.reached <= |a|
    ensures Stretch(cfg, s, a) ==> Stretch(cfg, s, b)
    ensures Exact(cfg, s, a) <==> Exact(cfg, s, b)
  {
    if s.start <= s.reached {
      assert a[s.start..s.reached] == b[s.start..s.reached];
    }
  }

  // The parseable messages of a stretch, cut at the point from which the poll could see them.
  lemma CutStretch(cfg: Config, log: seq<Msg>, a: nat, b: nat, c: nat)
    requires a <= b <= c <= |log|
    ensures Parsed(cfg, log[a..c]) == Parsed(cfg, log[a..b]) + Parsed(cfg, log[b..c])
  {
    assert log[a..c] == log[a..b] + log[b..c];
    ParsedAppend(cfg, log[a..b], log[b..c]);
  }

  lemma PollExtends(cfg: Config, s: Session, now: Snapshot)
    requires now.trimmed <= |now.log| && Stretch(cfg, s, now.log) && (s.reached == 0 ==> s.delivered == [])
    ensures Stretch(cfg, AfterPoll(cfg, s, now), now.log)
    ensures Exact(cfg, AfterPoll(cfg, s, now), now.log) <==> Exact(cfg, s, now.log) && Lossless(cfg, s, now)
  {
    var n, from := |now.log|, Max(s.reached, now.trimmed);
    var gain := Parsed(cfg, now.log[from..]);
    assert now.log[from..n] == now.log[from..];
    if s.reached == 0 {
      assert [] + gain == gain && now.log[0..0] == [];
      SubRefl(gain);
    } else {
      var old', lost := Parsed(cfg, now.log[s.start..s.reached]), Parsed(cfg, now.log[s.reached..from]);
      CutStretch(cfg, now.log, s.start, s.reached, n);
      CutStretch(cfg, now.log, s.reached, from, n);
      assert Parsed(cfg, now.log[s.start..n]) == old' + (lost + gain);
      assert AfterPoll(cfg, s, now) == Session(s.start, n, s.delivered + gain);
      assert lost == [] <==> Lossless(cfg, s, now) by {
        assert now.log[s.reached..s.reached] == [];
      }
      SubRefl(gain);
      SubConcat([], lost, gain, gain);
      assert [] + gain == gain;
      SubConcat(s.delivered, old', gain, lost + gain);
      ExactSum(s.delivered, old', lost, gain);
    }
  }

  lemma ExactSum<T>(d: seq<T>, o: seq<T>, lost: seq<T>, gain: seq<T>)
    requires Sub(d, o)
    ensures d + gain == o + (lost + gain) <==> d == o && lost == []
  {
    SubLength(d, o);
    if d == o && lost == [] {
      assert lost + gain == gain;
    }
    assert |d + gain| == |d| + |gain| && |o + (lost + gain)| == |o| + |lost| + |gain|;
  }

  lemma PrefillIsExact(cfg: Config, tail: Snapshot)
    requires Proper(tail)
    ensures Exact(cfg, Prefill(cfg, Some(tail)), tail.log)
  {
    var s := Prefill(cfg, Some(tail));
    if s.reached > 0 {
      assert tail.log[s.start..s.reached] == Newest(tail, cfg.count);
    } else {
      assert tail.log[0..0] == [];
    }
  }

  lemma TimelinePrefix(first: Snapshot, polls: seq<Option<Snapshot>>, n: nat)
    requires Timeline(first, polls) && n <= |polls|
    ensures Timeline(first, polls[..n])
  {
  }

  // One more poll, from what holds of a session `t` that saw the stream as `log`; `whole` says that
  // no poll so far lost anything.
  lemma StretchAfterPoll(cfg: Config, t: Session, log: seq<Msg>, now: Snapshot, whole: bool)
    requires Stretch(cfg, t, log) && (t.reached == 0 ==> t.delivered == []) && (Exact(cfg, t, log) <==> whole)
    requires log <= now.log && now.trimmed <= |now.log|
    ensures var u := AfterPoll(cfg, t, now);
            && Stretch(cfg, u, now.log) && (u.reached == 0 ==> u.delivered == [])
            && (Exact(cfg, u, now.log) <==> whole && Lossless(cfg, t, now))
  {
    StretchGrows(cfg, t, log, now.log);
    PollExtends(cfg, t, now);
  }

  // Main result: what a session delivers is, in order and each at most once, from a contiguous
  // stretch of the stream, and it is the whole stretch exactly when no poll came too late for a
  // trimmed message that could be parsed.
  lemma {:induction false} SessionIsStretch(cfg: Config, first: Snapshot, s: Session, polls: seq<Option<Snapshot>>)
    requires Timeline(first, polls) && Exact(cfg, s, first.log) && (s.reached == 0 ==> s.delivered == [])
    ensures var t, log := AfterPolls(cfg, s, polls), LastSeen(first, polls).log;
            && Stretch(cfg, t, log) && (t.reached == 0 ==> t.delivered == [])
            && (Exact(cfg, t, log) <==> LosslessPolls(cfg, s, polls))
  {
    if polls == [] {
      SubRefl(s.delivered);
    } else {
      var n := |polls| - 1;
      var front := polls[..n];
      TimelinePrefix(first, polls, n);
      SessionIsStretch(cfg, first, s, front);
      if polls[n].Some? {
        LastSeenBefore(first, polls, n);
        StretchAfterPoll(cfg, AfterPolls(cfg, s, front), LastSeen(first, front).log, polls[n].value,
                         LosslessPolls(cfg, s, front));
      }
    }
  }

  // The same for a session that starts as consumeRedis does.
  lemma FollowerExactlyOnce(cfg: Config, tail: Snapshot, fetched: bool, polls: seq<Option<Snapshot>>)
    requires Timeline(tail, polls)
    ensures var s := Prefill(cfg, if fetched then Some(tail) else None);
            var t, log := AfterPolls(cfg, s, polls), LastSeen(tail, polls).log;
            Stretch(cfg, t, log) && (Exact(cfg, t, log) <==> LosslessPolls(cfg, s, polls))
  {
    if fetched {
      PrefillIsExact(cfg, tail);
    } else {
      assert tail.log[0..0] == [];
    }
    SessionIsStretch(cfg, tail, Prefill(cfg, if fetched then Some(tail) else None), polls);
  }

  // The entries the leader wrote under these ids, as a follower shows them.
  function Shown(ids: seq<RedisId>, es: seq<LogEntry>): seq<LogEntry>
    requires |ids| == |es|
  {
    if es == [] then []
    else
      var n := |es| - 1;
      Shown(ids[..n], es[..n]) + (if es[n].message == "" then [] else [es[n].(id := IdText(ids[n]))])
  }

  ghost predicate WrittenAs(ms: seq<Msg>, ids: seq<RedisId>, es: seq<LogEntry>) {
    |ms| == |ids| == |es| && forall k :: 0 <= k < |es| ==> ms[k] == Written(ids[k], es[k])
  }

  // What a follower makes of one entry.
  function ShownAs(id: RedisId, e: LogEntry): Option<LogEntry> {
    if e.message == "" then None else Some(e.(id := IdText(id)))
  }

  lemma {:induction false} ParsedIsShown(cfg: Config, ms: seq<Msg>, ids: seq<RedisId>, es: seq<LogEntry>)
    requires |ms| == |ids| == |es| && forall k :: 0 <= k < |es| ==> cfg.parse(ms[k]) == ShownAs(ids[k], es[k])
    ensures Parsed(cfg, ms) == Shown(ids, es)
    decreases |es|
  {
    if es != [] {
      var n := |es| - 1;
      ParsedIsShown(cfg, ms[..n], ids[..n], es[..n]);
      assert Entry(cfg, ms[n]) == if es[n].message == "" then [] else [es[n].(id := IdText(ids[n]))];
    }
  }

  // From leader to follower: when the stream holds what the leader ingested, a session without
  // loss delivers the leader's lines of one stretch, without the empty ones, under their Redis ids.
  lemma FollowersShowLeaderLines(src: Source, count: int, tail: Snapshot, fetched: bool, polls: seq<Option<Snapshot>>,
                                 ids: seq<RedisId>, es: seq<LogEntry>)
    requires Timeline(tail, polls) && WrittenAs(LastSeen(tail, polls).log, ids, es)
    requires forall k :: 0 <= k < |es| ==> Ingested(src, es[k])
    requires LosslessPolls(FollowerConfig(src, count),
                           Prefill(FollowerConfig(src, count), if fetched then Some(tail) else None), polls)
    ensures var cfg := FollowerConfig(src, count);
            var t := AfterPolls(cfg, Prefill(cfg, if fetched then Some(tail) else None), polls);
            && t.start <= t.reached <= |es|
            && t.delivered == Shown(ids[t.start..t.reached], es[t.start..t.reached])
  {
    var cfg := FollowerConfig(src, count);
    var t := AfterPolls(cfg, Prefill(cfg, if fetched then Some(tail) else None), polls);
    var log := LastSeen(tail, polls).log;
    FollowerExactlyOnce(cfg, tail, fetched, polls);
    forall k | 0 <= k < |es| ensures cfg.parse(log[k]) == ShownAs(ids[k], es[k]) {
      LeaderToFollower(src, ids[k], es[k]);
    }
    ParsedIsShown(cfg, log[t.start..t.reached], ids[t.start..t.reached], es[t.start..t.reached]);
  }

  // ---- The loop with its cursor ----

  // The cursor is right behind a message of the log, or at the very beginning.
  ghost predicate CursorAt(log: seq<Msg>, at: nat, cursor: RedisId) {
    at <= |log| && cursor == if at == 0 then ZERO else log[at - 1].id
  }

  ghost predicate Unparsable(cfg: Config, log: seq<Msg>, a: nat, b: nat) {
    forall k :: a <= k < b && k < |log| ==> cfg.parse(log[k]).None?
  }

  lemma {:induction false} UnparsableGivesNothing(cfg: Config, log: seq<Msg>, a: nat, b: nat)
    requires a <= b <= |log| && Unparsable(cfg, log, a, b)
    ensures Parsed(cfg, log[a..b]) == []
    decreases b
  {
    if a < b {
      UnparsableGivesNothing(cfg, log, a, b - 1);
      var ms := log[a..b];
      assert ms[..|ms| - 1] == log[a..b - 1];
    }
  }

  // Everything between the cursor and `reached` that is still there could not be parsed.
  ghost predicate CursorFits(cfg: Config, at: nat, reached: nat, seen: Snapshot, cursor: RedisId) {
    && at <= reached <= |seen.log| && seen.trimmed <= |seen.log| && CursorAt(seen.log, at, cursor)
    && Unparsable(cfg, seen.log, Max(at, seen.trimmed), reached)
  }

  lemma XReadResult(now: Snapshot, at: nat, cursor: RedisId)
    requires Proper(now) && CursorAt(now.log, at, cursor)
    ensures Beyond(Visible(now), cursor) == now.log[Max(at, now.trimmed)..]
  {
    var v := Visible(now);
    var k := if at <= now.trimmed then 0 else at - now.trimmed;
    forall i | 0 <= i < k ensures !Before(cursor, v[i].id) {
      assert v[i] == now.log[now.trimmed + i];
    }
    forall i | k <= i < |v| ensures Before(cursor, v[i].id) {
      assert v[i] == now.log[now.trimmed + i];
    }
    BeyondIsSuffix(v, k, cursor);
    assert v[k..] == now.log[Max(at, now.trimmed)..];
  }

  lemma FitsLater(cfg: Config, at: nat, reached: nat, seen: Snapshot, now: Snapshot, cursor: RedisId)
    requires CursorFits(cfg, at, reached, seen, cursor) && Proper(now) && Later(seen, now)
    ensures CursorFits(cfg, at, reached, now, cursor)
  {
    assert forall k :: 0 <= k < reached ==> seen.log[k] == now.log[k];
  }

  // Reading messages again that could not be parsed delivers nothing twice and skips nothing.
  lemma ReReadIsHarmless(cfg: Config, at: nat, reached: nat, now: Snapshot, cursor: RedisId)
    requires Proper(now) && CursorFits(cfg, at, reached, now, cursor)
    ensures Parsed(cfg, Beyond(Visible(now), cursor)) == Parsed(cfg, now.log[Max(reached, now.trimmed)..])
  {
    XReadResult(now, at, cursor);
    var a := Max(at, now.trimmed);
    if a < reached {
      DropUnparsable(cfg, now.log, a, reached);
    }
  }

  lemma DropUnparsable(cfg: Config, log: seq<Msg>, a: nat, b: nat)
    requires a <= b <= |log| && Unparsable(cfg, log, a, b)
    ensures Parsed(cfg, log[a..]) == Parsed(cfg, log[b..])
  {
    assert log[a..] == log[a..b] + log[b..];
    ParsedAppend(cfg, log[a..b], log[b..]);
    UnparsableGivesNothing(cfg, log, a, b);
    assert [] + Parsed(cfg, log[b..]) == Parsed(cfg, log[b..]);
  }

  // The cursor moves to the last message that could be parsed.
  function CursorAfter(cfg: Config, ms: seq<Msg>, cursor: RedisId): RedisId {
    if ms == [] then cursor
    else if cfg.parse(ms[|ms| - 1]).Some? then ms[|ms| - 1].id
    else CursorAfter(cfg, ms[..|ms| - 1], cursor)
  }

  lemma CursorUnfold(cfg: Config, log: seq<Msg>, a: nat, b: nat, cursor: RedisId)
    requires a < b <= |log|
    ensures CursorAfter(cfg, log[a..b], cursor) ==
              if cfg.parse(log[b - 1]).Some? then log[b - 1].id else CursorAfter(cfg, log[a..b - 1], cursor)
  {
    var ms := log[a..b];
    assert ms[..|ms| - 1] == log[a..b - 1];
  }

  // The cursor is the id of the last message that could be parsed; one that could not leaves it alone.
  lemma {:induction false} CursorIsLastParsed(cfg: Config, msgs: seq<Msg>, cursor: RedisId) returns (k: int)
    ensures -1 <= k < |msgs| && (k >= 0 ==> cfg.parse(msgs[k]).Some?)
    ensures forall j :: k < j < |msgs| ==> cfg.parse(msgs[j]).None?
    ensures CursorAfter(cfg, msgs, cursor) == if k == -1 then cursor else msgs[k].id
  {
    k := |msgs| - 1;
    if msgs != [] && cfg.parse(msgs[k]).None? {
      k := CursorIsLastParsed(cfg, msgs[..k], cursor);
    }
  }

  // How many messages are up to the cursor once those from `a` to `b` were handled.
  function Moved(cfg: Config, log: seq<Msg>, a: nat, b: nat, at: nat): (at': nat)
    requires at <= a <= b <= |log|
    ensures at <= at' <= b
  {
    if a == b then at
    else if cfg.parse(log[b - 1]).Some? then b
    else Moved(cfg, log, a, b - 1, at)
  }

  lemma {:induction false} CursorMoves(cfg: Config, log: seq<Msg>, a: nat, b: nat, at: nat, cursor: RedisId)
    requires CursorAt(log, at, cursor) && at <= a <= b <= |log|
    ensures CursorAt(log, Moved(cfg, log, a, b, at), CursorAfter(cfg, log[a..b], cursor))
    decreases b
  {
    if a < b {
      CursorUnfold(cfg, log, a, b, cursor);
      CursorMoves(cfg, log, a, b - 1, at, cursor);
    }
  }

  lemma {:induction false} RestIsUnparsable(cfg: Config, log: seq<Msg>, a: nat, b: nat, at: nat)
    requires at <= a <= b <= |log|
    ensures Unparsable(cfg, log, Max(Moved(cfg, log, a, b, at), a), b)
    decreases b
  {
    if a < b && cfg.parse(log[b - 1]).None? {
      RestIsUnparsable(cfg, log, a, b - 1, at);
    }
  }

  // Parses and passes on the messages of one poll.
  method Handle(cfg: Config, msgs: seq<Msg>, cursor: RedisId) returns (next: RedisId, out: seq<LogEntry>)
    ensures next == CursorAfter(cfg, msgs, cursor) && out == Parsed(cfg, msgs)
  {
    next, out := cursor, [];
    for k := 0 to |msgs|
      invariant next == CursorAfter(cfg, msgs[..k], cursor) && out == Parsed(cfg, msgs[..k])
    {
      assert msgs[..k + 1][..k] == msgs[..k];
      var entry := cfg.parse(msgs[k]);
      if entry.None? {
        continue;
      }
      next := msgs[k].id;
      out := out + [entry.value];
    }
    assert msgs[..|msgs|] == msgs;
  }

  lemma CursorFitsAfter(cfg: Config, now: Snapshot, cursor: RedisId, at: nat)
    requires Proper(now) && CursorAt(now.log, at, cursor)
    ensures var at' := Moved(cfg, now.log, Max(at, now.trimmed), |now.log|, at);
            CursorFits(cfg, at', |now.log|, now, CursorAfter(cfg, Beyond(Visible(now), cursor), cursor))
  {
    var a, n := Max(at, now.trimmed), |now.log|;
    XReadResult(now, at, cursor);
    assert now.log[a..n] == now.log[a..];
    CursorMoves(cfg, now.log, a, n, at, cursor);
    RestIsUnparsable(cfg, now.log, a, n, at);
    assert Max(Moved(cfg, now.log, a, n, at), a) == Max(Moved(cfg, now.log, a, n, at), now.trimmed);
  }

  // One XREAD and what follows from it.
  method Poll(cfg: Config, now: Snapshot, cursor: RedisId, ghost at: nat, ghost reached: nat)
    returns (next: RedisId, out: seq<LogEntry>, ghost at': nat)
    requires Proper(now) && CursorFits(cfg, at, reached, now, cursor)
    ensures out == Parsed(cfg, now.log[Max(reached, now.trimmed)..])
    ensures CursorFits(cfg, at', |now.log|, now, next)
  {
    ReReadIsHarmless(cfg, at, reached, now, cursor);
    CursorFitsAfter(cfg, now, cursor, at);
    next, out := Handle(cfg, Beyond(Visible(now), cursor), cursor);
    at' := Moved(cfg, now.log, Max(at, now.trimmed), |now.log|, at);
  }

  lemma NextPoll(cfg: Config, tail: Snapshot, s: Session, polls: seq<Option<Snapshot>>, k: nat)
    requires k < |polls|
    ensures var t := AfterPolls(cfg, s, polls[..k]);
            AfterPolls(cfg, s, polls[..k + 1]) == if polls[k].None? then t else AfterPoll(cfg, t, polls[k].value)
    ensures LastSeen(tail, polls[..k + 1]) == if polls[k].None? then LastSeen(tail, polls[..k]) else polls[k].value
  {
    assert polls[..k + 1][..k] == polls[..k];
  }

  lemma PrefillCursor(cfg: Config, tail: Snapshot)
    requires Proper(tail)
    ensures var s := Prefill(cfg, Some(tail));
            CursorFits(cfg, s.reached, s.reached, tail, if s.reached == 0 then ZERO else tail.log[|tail.log| - 1].id)
  {
  }

  // consumeRedis: `tail` is the stream when the tail was fetched (and `fetched` whether that
  // worked), `polls` what each XREAD found.  `appended` goes to the buffer, `sent` to subscribers.
  method ConsumeRedis(cfg: Config, tail: Snapshot, fetched: bool, polls: seq<Option<Snapshot>>)
    returns (appended: seq<LogEntry>, sent: seq<LogEntry>)
    requires Timeline(tail, polls)
    ensures var s := Prefill(cfg, if fetched then Some(tail) else None);
            && appended == AfterPolls(cfg, s, polls).delivered
            && appended == s.delivered + sent
  {
    ghost var first := Prefill(cfg, if fetched then Some(tail) else None);
    ghost var at := first.reached;
    var cursor;
    cursor, appended := FetchTail(cfg, tail, fetched);
    sent := [];
    for k := 0 to |polls|
      invariant appended == AfterPolls(cfg, first, polls[..k]).delivered == first.delivered + sent
      invariant CursorFits(cfg, at, AfterPolls(cfg, first, polls[..k]).reached, LastSeen(tail, polls[..k]), cursor)
    {
      NextPoll(cfg, tail, first, polls, k);
      if polls[k].Some? {
        LastSeenBefore(tail, polls, k);
        ghost var reached := AfterPolls(cfg, first, polls[..k]).reached;
        FitsLater(cfg, at, reached, LastSeen(tail, polls[..k]), polls[k].value, cursor);
        var more;
        cursor, more, at := Poll(cfg, polls[k].value, cursor, at, reached);
        Assoc(first.delivered, sent, more);
        appended := appended + more;
        sent := sent + more;
      }
    }
    assert polls[..|polls|] == polls;
  }

  // fetchRedisTail and the initial cursor.
  method FetchTail(cfg: Config, tail: Snapshot, fetched: bool) returns (cursor: RedisId, prefill: seq<LogEntry>)
    requires Proper(tail)
    ensures var s := Prefill(cfg, if fetched then Some(tail) else None);
            prefill == s.delivered && CursorFits(cfg, s.reached, s.reached, tail, cursor)
    ensures if fetched && cfg.count > 0 && tail.trimmed < |tail.log|
            then prefill == Parsed(cfg, tail.log[TailStart(cfg.count, tail)..]) && cursor == tail.log[|tail.log| - 1].id
            else prefill == [] && cursor == ZERO
  {
    if fetched && cfg.count > 0 && |Visible(tail)| > 0 {
      var msgs := Newest(tail, cfg.count);
      var _, entries := Handle(cfg, msgs, ZERO);
      prefill := entries;
      cursor := msgs[|msgs| - 1].id;
      PrefillCursor(cfg, tail);
      PrefillIsNewest(cfg, tail);
    } else {
      cursor, prefill := ZERO, [];
    }
  }
}
