/** The log entry that travels through the whole engine (backend/internal/api/logs.go). */
module LogEntries {

  datatype LogEntry = LogEntry(id: string, seqNo: nat, timestamp: string, message: string,
                               podName: string, containerName: string)
}

/**
  The doubly bounded replay buffer of a log stream
  (backend/internal/api/log_stream_hub.go, logBuffer).

  A limit that is not positive means "no limit", as in the source.
 */
module LogBuffer {
  import opened LogEntries
  import opened Subsequences
  import opened Wrappers

  datatype Limits = Limits(maxEntries: int, maxBytes: int)

  function EntrySize(e: LogEntry): (size: nat)
    ensures size >= 16
  {
    |e.timestamp| + |e.message| + |e.podName| + |e.containerName| + 16
  }

  function Bytes(s: seq<LogEntry>): nat {
    if s == [] then 0 else EntrySize(s[0]) + Bytes(s[1..])
  }

  predicate Fits(l: Limits, s: seq<LogEntry>) {
    (l.maxEntries > 0 ==> |s| <= l.maxEntries) && (l.maxBytes > 0 ==> Bytes(s) <= l.maxBytes)
  }

  // What is left of a history once entries were dropped from its front until the rest fits.
  function Kept(l: Limits, history: seq<LogEntry>): seq<LogEntry> {
    if Fits(l, history) then history else Kept(l, history[1..])
  }

  lemma {:induction false} KeptIsFittingSuffix(l: Limits, history: seq<LogEntry>)
    ensures var kept := Kept(l, history);
            |kept| <= |history| && kept == history[|history| - |kept|..] && Fits(l, kept)
  {
    if !Fits(l, history) {
      KeptIsFittingSuffix(l, history[1..]);
    }
  }

  lemma {:induction false} BytesAppend(a: seq<LogEntry>, b: seq<LogEntry>)
    ensures Bytes(a + b) == Bytes(a) + Bytes(b)
  {
    if a == [] {
      assert a + b == b;
    } else {
      assert (a + b)[1..] == a[1..] + b;
      BytesAppend(a[1..], b);
    }
  }

  // Shortening a history at the front keeps it within the limits.
  lemma SuffixFits(l: Limits, s: seq<LogEntry>, n: nat)
    requires n <= |s| && Fits(l, s)
    ensures Fits(l, s[n..])
  {
    assert s == s[..n] + s[n..];
    BytesAppend(s[..n], s[n..]);
  }

  // Main result about the specification: the kept part is the longest suffix within both limits.
  lemma {:induction false} KeptIsLongest(l: Limits, history: seq<LogEntry>, n: nat)
    requires n <= |history|
    ensures Fits(l, history[n..]) <==> |history[n..]| <= |Kept(l, history)|
    decreases |history|
  {
    KeptIsFittingSuffix(l, history);
    if Fits(l, history) {
      SuffixFits(l, history, n);
    } else if n > 0 {
      assert history[n..] == history[1..][n - 1..];
      KeptIsLongest(l, history[1..], n - 1);
    } else {
      assert history[0..] == history;
    }
  }

  // The same with the limits written out: a suffix of the history that has at most `maxEntries` entries
  // and `maxBytes` bytes, as far as these are positive, is no longer than the kept part, and a longer
  // one breaks a limit.
  lemma LimitsDecide(l: Limits, history: seq<LogEntry>, n: nat)
    requires n <= |history|
    ensures |history| - n <= |Kept(l, history)| <==>
              && (l.maxEntries <= 0 || |history| - n <= l.maxEntries)
              && (l.maxBytes <= 0 || |AllText(history[n..])| + 16 * (|history| - n) <= l.maxBytes)
  {
    KeptIsLongest(l, history, n);
    BytesAreText(history[n..]);
  }

  // Every text of the entries, one after the other.
  function AllText(s: seq<LogEntry>): string {
    if s == [] then ""
    else s[0].timestamp + s[0].message + s[0].podName + s[0].containerName + AllText(s[1..])
  }

  // The size is the length of all texts and sixteen for each entry.
  lemma {:induction false} BytesAreText(s: seq<LogEntry>)
    ensures Bytes(s) == |AllText(s)| + 16 * |s|
  {
    if s != [] {
      BytesAreText(s[1..]);
    }
  }

  // The dropped entries never matter again, so the buffer needs no memory of them.
  lemma {:induction false} KeptIsIncremental(l: Limits, history: seq<LogEntry>, e: LogEntry)
    ensures Kept(l, Kept(l, history) + [e]) == Kept(l, history + [e])
    decreases |history|
  {
    if !Fits(l, history) {
      assert (history + [e])[1..] == history[1..] + [e];
      BytesAppend(history, [e]);
      KeptIsIncremental(l, history[1..], e);
    }
  }

  function LastEntries(s: seq<LogEntry>, count: int): seq<LogEntry> {
    if count <= 0 || count >= |s| then s else s[|s| - count..]
  }

  function Min(a: int, b: int): int {
    if a < b then a else b
  }

  // A tail request gives the newest entries of the history, as many as asked for and kept; one that is
  // not positive asks for all.
  lemma LastEntriesAreNewest(l: Limits, history: seq<LogEntry>, count: int)
    ensures var n := if count <= 0 then |Kept(l, history)| else Min(count, |Kept(l, history)|);
            0 <= n <= |history| && LastEntries(Kept(l, history), count) == history[|history| - n..]
  {
    KeptIsFittingSuffix(l, history);
    var kept := Kept(l, history);
    var n := if count <= 0 then |kept| else Min(count, |kept|);
    SliceOfSuffix(history, |history| - |kept|, |kept| - n);
  }

  lemma SliceOfSuffix<T>(s: seq<T>, from: nat, n: nat)
    requires from + n <= |s|
    ensures s[from..][n..] == s[from + n..]
  {
  }

  // The entries after the first one with this id.
  function AfterId(s: seq<LogEntry>, id: string): Option<seq<LogEntry>> {
    if s == [] then None
    else if s[0].id == id then Some(s[1..])
    else AfterId(s[1..], id)
  }

  lemma {:induction false} AfterIdFound(s: seq<LogEntry>, id: string, k: nat)
    requires k < |s| && s[k].id == id && forall m :: 0 <= m < k ==> s[m].id != id
    ensures AfterId(s, id) == Some(s[k + 1..])
  {
    if k > 0 {
      AfterIdFound(s[1..], id, k - 1);
      assert s[1..][k..] == s[k + 1..];
    }
  }

  lemma {:induction false} AfterIdIffPresent(s: seq<LogEntry>, id: string)
    ensures AfterId(s, id).None? <==> forall k :: 0 <= k < |s| ==> s[k].id != id
  {
    if s != [] {
      AfterIdIffPresent(s[1..], id);
      assert forall k :: 1 <= k < |s| ==> s[k] == s[1..][k - 1];
      if s[0].id != id && AfterId(s[1..], id).None? {
        forall k | 0 <= k < |s| ensures s[k].id != id {
          if k > 0 { assert s[k] == s[1..][k - 1]; }
        }
      }
    }
  }

  // The entries whose timestamp parses to an instant not before `since`; `parse` is time.Parse.
  function NotBefore(parse: string -> Option<int>, s: seq<LogEntry>, since: int): seq<LogEntry> {
    if s == [] then []
    else
      var last := s[|s| - 1];
      NotBefore(parse, s[..|s| - 1], since) + (if IsNotBefore(parse, last, since) then [last] else [])
  }

  // Parts of the buffer contribute in their order, and one entry contributes itself exactly if it has a
  // timestamp that parses to an instant at or after `since`.
  lemma {:induction false} NotBeforeConcat(parse: string -> Option<int>, a: seq<LogEntry>, b: seq<LogEntry>, since: int)
    ensures NotBefore(parse, a + b, since) == NotBefore(parse, a, since) + NotBefore(parse, b, since)
    decreases |b|
  {
    if b == [] {
      assert a + b == a;
    } else {
      var n := |b| - 1;
      assert (a + b)[..|a| + n] == a + b[..n];
      NotBeforeConcat(parse, a, b[..n], since);
      Assoc(NotBefore(parse, a, since), NotBefore(parse, b[..n], since),
            if IsNotBefore(parse, b[n], since) then [b[n]] else []);
    }
  }

  lemma NotBeforeOne(parse: string -> Option<int>, e: LogEntry, since: int)
    ensures NotBefore(parse, [e], since) ==
              if e.timestamp != "" && parse(e.timestamp).Some? && since <= parse(e.timestamp).value then [e] else []
  {
    assert [e][..0] == [];
  }

  lemma {:induction false} NotBeforeIsSub(parse: string -> Option<int>, s: seq<LogEntry>, since: int)
    ensures Sub(NotBefore(parse, s, since), s)
  {
    if s != [] {
      var n := |s| - 1;
      NotBeforeIsSub(parse, s[..n], since);
      assert s == s[..n] + [s[n]];
      SubSkip(NotBefore(parse, s[..n], since), s[..n], s[n]);
      SubKeep(NotBefore(parse, s[..n], since), s[..n], s[n]);
      assert NotBefore(parse, s[..n], since) + [] == NotBefore(parse, s[..n], since);
    }
  }

  predicate IsNotBefore(parse: string -> Option<int>, e: LogEntry, since: int) {
    e.timestamp != "" && parse(e.timestamp).Some? && parse(e.timestamp).value >= since
  }

  class Buffer {
    const limits: Limits
    var entries: seq<LogEntry>
    var bytes: int
    ghost var history: seq<LogEntry>  // everything ever appended

    ghost predicate Valid()
      reads this
    {
      entries == Kept(limits, history) && bytes == Bytes(entries)
    }

    constructor (limits: Limits)
      ensures Valid() && this.limits == limits && history == []
    {
      this.limits := limits;
      entries, bytes, history := [], 0, [];
    }

    method Append(e: LogEntry)
      requires Valid()
      modifies this
      ensures Valid() && history == old(history) + [e]
    {
      KeptIsIncremental(limits, history, e);
      BytesAppend(entries, [e]);
      ghost var target := Kept(limits, history + [e]);
      history := history + [e];
      entries := entries + [e];
      bytes := bytes + EntrySize(e);
      while (limits.maxEntries > 0 && |entries| > limits.maxEntries)
         || (limits.maxBytes > 0 && bytes > limits.maxBytes)
        invariant Kept(limits, entries) == target && bytes == Bytes(entries)
        invariant history == old(history) + [e]
        decreases |entries|
      {
        if |entries| == 0 {
          assert false;  // the guard of the source against an empty buffer is never needed
          break;
        }
        var removed := entries[0];
        entries := entries[1..];
        bytes := bytes - EntrySize(removed);
      }
    }

    method Snapshot() returns (lines: nat, size: int)
      requires Valid()
      ensures lines == |Kept(limits, history)| && size == Bytes(Kept(limits, history))
    {
      lines, size := |entries|, bytes;
    }

    method Tail(count: int) returns (r: seq<LogEntry>)
      requires Valid()
      ensures r == LastEntries(Kept(limits, history), count)
    {
      if count <= 0 || count >= |entries| {
        r := entries;
      } else {
        r := entries[|entries| - count..];
      }
    }

    method SinceId(id: string) returns (r: seq<LogEntry>, found: bool)
      requires Valid()
      ensures found == AfterId(entries, id).Some?
      ensures r == if found then AfterId(entries, id).value else []
    {
      var i := 0;
      while i < |entries|
        invariant 0 <= i <= |entries|
        invariant forall m :: 0 <= m < i ==> entries[m].id != id
      {
        if entries[i].id == id {
          AfterIdFound(entries, id, i);
          return entries[i + 1..], true;
        }
        i := i + 1;
      }
      AfterIdIffPresent(entries, id);
      return [], false;
    }

    method SinceTime(parse: string -> Option<int>, since: int) returns (r: seq<LogEntry>)
      requires Valid()
      ensures r == NotBefore(parse, entries, since)
    {
      r := [];
      var i := 0;
      while i < |entries|
        invariant 0 <= i <= |entries|
        invariant r == NotBefore(parse, entries[..i], since)
      {
        var entry := entries[i];
        assert entries[..i + 1][..i] == entries[..i];
        i := i + 1;
        if entry.timestamp == "" {
          continue;
        }
        var parsed := parse(entry.timestamp);
        if parsed.None? {
          continue;
        }
        if parsed.value > since || parsed.value == since {
          r := r + [entry];
        }
      }
      assert entries[..i] == entries;
    }
  }
}
