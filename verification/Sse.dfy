/**
  The event stream between server and browser: the printer of backend/internal/api/logs.go and
  the reader of frontend/components/LogView.tsx.

  JSON payloads are opaque texts; `json` says which of them JSON.parse accepts.
 */
module Sse {
  import opened Text
  import opened Wrappers

  datatype Message = Message(id: string, event: string, data: string)

  // ---- Server ----

  function Normal(m: Message): Message {
    if m.event == "" then m.(event := "message") else m
  }

  function Head(m: Message): seq<string> {
    (if m.id != "" then ["id: " + m.id] else []) + ["event: " + Normal(m).event]
  }

  // What writeSSEEvent writes.
  function Print(m: Message): string {
    (if m.id != "" then "id: " + m.id + "\n" else "")
    + "event: " + Normal(m).event + "\n"
    + "data: " + m.data + "\n\n"
  }

  function PrintAll(ms: seq<Message>): string {
    if ms == [] then "" else Print(ms[0]) + PrintAll(ms[1..])
  }

  method WriteEvent(m: Message, out: string) returns (r: string)
    ensures r == out + Print(m)
  {
    var event := m.event;
    if event == "" {
      event := "message";
    }
    r := out;
    if m.id != "" {
      r := r + "id: " + m.id + "\n";
    }
    r := r + "event: " + event + "\n";
    r := r + "data: " + m.data + "\n\n";
  }

  // ---- Client: one event ----

  datatype Fields = Fields(id: string, event: string, dataLines: seq<string>)

  predicate StartsWith(s: string, prefix: string) {
    prefix <= s
  }

  function Field(f: Fields, line: string): Fields {
    if StartsWith(line, "id:") then f.(id := Trim(line[3..]))
    else if StartsWith(line, "event:") then f.(event := Trim(line[6..]))
    else if StartsWith(line, "data:") then f.(dataLines := f.dataLines + [TrimStart(line[5..])])
    else f
  }

  function FieldsOf(lines: seq<string>): Fields {
    if lines == [] then Fields("", "log", []) else Field(FieldsOf(lines[..|lines| - 1]), lines[|lines| - 1])
  }

  function ParseEvent(json: string -> bool, raw: string): Option<Message> {
    var f := FieldsOf(Lines(raw));
    if f.dataLines == [] || !json(Join(f.dataLines)) then None
    else Some(Message(f.id, f.event, Join(f.dataLines)))
  }

  method ParseSseEvent(json: string -> bool, raw: string) returns (r: Option<Message>)
    ensures r == ParseEvent(json, raw)
  {
    var lines := Lines(raw);
    var id, eventType, dataLines := "", "log", [];
    for i := 0 to |lines|
      invariant Fields(id, eventType, dataLines) == FieldsOf(lines[..i])
    {
      var line := lines[i];
      assert lines[..i + 1][..i] == lines[..i];
      if StartsWith(line, "id:") {
        id := Trim(line[3..]);
      } else if StartsWith(line, "event:") {
        eventType := Trim(line[6..]);
      } else if StartsWith(line, "data:") {
        dataLines := dataLines + [TrimStart(line[5..])];
      }
    }
    assert lines[..|lines|] == lines;
    if |dataLines| == 0 {
      return None;
    }
    if json(Join(dataLines)) {
      return Some(Message(id, eventType, Join(dataLines)));
    }
    return None;
  }

  // ---- Client: the read loop ----

  // buffer.indexOf('\n\n')
  function IndexOfBlank(s: string): (i: int)
    ensures -1 <= i <= |s| - 2 || i == -1
    ensures i >= 0 ==> s[i] == '\n' && s[i + 1] == '\n'
  {
    if |s| < 2 then -1
    else if s[0] == '\n' && s[1] == '\n' then 0
    else
      var i := IndexOfBlank(s[1..]);
      if i == -1 then -1 else i + 1
  }

  function Parser(json: string -> bool): string -> Option<Message> {
    raw => ParseEvent(json, raw)
  }

  datatype Reading = Reading(messages: seq<Message>, rest: string)

  function Found(o: Option<Message>): seq<Message> {
    match o
    case None => []
    case Some(m) => [m]
  }

  // What a client that gets the text in one piece recovers, and what is left in its buffer.
  function Read(parse: string -> Option<Message>, text: string): Reading {
    var i := IndexOfBlank(text);
    if i == -1 then Reading([], text)
    else
      var later := Read(parse, text[i + 2..]);
      later.(messages := Found(parse(text[..i])) + later.messages)
  }

  function Concat(chunks: seq<string>): string {
    if chunks == [] then "" else Concat(chunks[..|chunks| - 1]) + chunks[|chunks| - 1]
  }

  lemma {:induction false} BlankIndexStays(a: string, b: string)
    requires IndexOfBlank(a) >= 0
    ensures IndexOfBlank(a + b) == IndexOfBlank(a)
  {
    assert (a + b)[1..] == a[1..] + b;
    if IndexOfBlank(a) > 0 {
      BlankIndexStays(a[1..], b);
    }
  }

  lemma ReadFirst(parse: string -> Option<Message>, text: string, i: nat)
    requires IndexOfBlank(text) == i
    ensures var later := Read(parse, text[i + 2..]);
            Read(parse, text) == Reading(Found(parse(text[..i])) + later.messages, later.rest)
  {
  }

  lemma ReadFirstOfMore(parse: string -> Option<Message>, a: string, b: string, i: nat)
    requires IndexOfBlank(a) == i
    ensures var later := Read(parse, a[i + 2..] + b);
            Read(parse, a + b) == Reading(Found(parse(a[..i])) + later.messages, later.rest)
  {
    BlankIndexStays(a, b);
    assert (a + b)[..i] == a[..i];
    assert (a + b)[i + 2..] == a[i + 2..] + b;
    ReadFirst(parse, a + b, i);
  }

  lemma {:induction false} IncrementalStep(parse: string -> Option<Message>, a: string, b: string, i: nat,
                                           later: Reading, second: Reading)
    requires IndexOfBlank(a) == i && later == Read(parse, a[i + 2..])
    requires Read(parse, a[i + 2..] + b) == Reading(later.messages + second.messages, second.rest)
    ensures Read(parse, a).rest == later.rest
    ensures Read(parse, a + b) == Reading(Read(parse, a).messages + second.messages, second.rest)
  {
    ReadFirst(parse, a, i);
    ReadFirstOfMore(parse, a, b, i);
    Assoc(Found(parse(a[..i])), later.messages, second.messages);
  }

  lemma ReadIncomplete(parse: string -> Option<Message>, a: string)
    requires IndexOfBlank(a) == -1
    ensures Read(parse, a) == Reading([], a)
  {
  }

  // More text never changes the events already split off.
  lemma {:induction false} ReadIsIncremental(parse: string -> Option<Message>, a: string, b: string)
    ensures var first := Read(parse, a); var second := Read(parse, first.rest + b);
            Read(parse, a + b) == Reading(first.messages + second.messages, second.rest)
    decreases |a|
  {
    var i := IndexOfBlank(a);
    if i == -1 {
      ReadIncomplete(parse, a);
    } else {
      var later := Read(parse, a[i + 2..]);
      ReadIsIncremental(parse, a[i + 2..], b);
      IncrementalStep(parse, a, b, i, later, Read(parse, later.rest + b));
    }
  }

  // The inner loop: it splits off and parses every complete event in the buffer.
  method Drain(json: string -> bool, pending: string) returns (messages: seq<Message>, buffer: string)
    ensures Reading(messages, buffer) == Read(Parser(json), pending)
  {
    messages, buffer := [], pending;
    var splitIndex := IndexOfBlank(buffer);
    while splitIndex != -1
      invariant splitIndex == IndexOfBlank(buffer)
      invariant Read(Parser(json), pending).messages == messages + Read(Parser(json), buffer).messages
      invariant Read(Parser(json), pending).rest == Read(Parser(json), buffer).rest
      decreases |buffer|
    {
      ReadFirst(Parser(json), buffer, splitIndex);
      var rawEvent := buffer[..splitIndex];
      buffer := buffer[splitIndex + 2..];
      var parsed := ParseSseEvent(json, rawEvent);
      Assoc(messages, Found(parsed), Read(Parser(json), buffer).messages);
      messages := messages + Found(parsed);
      splitIndex := IndexOfBlank(buffer);
    }
  }

  // What a client recovers that reads one chunk after the other: each is added to what the buffer
  // still held, and only what is complete by then is split off.
  function ReadChunks(parse: string -> Option<Message>, chunks: seq<string>): Reading {
    if chunks == [] then Reading([], "")
    else
      var before := ReadChunks(parse, chunks[..|chunks| - 1]);
      var more := Read(parse, before.rest + chunks[|chunks| - 1]);
      Reading(before.messages + more.messages, more.rest)
  }

  // Chunk by chunk gives what the whole text gives, however it was cut.
  lemma {:induction false} ChunksDoNotMatter(parse: string -> Option<Message>, chunks: seq<string>)
    ensures ReadChunks(parse, chunks) == Read(parse, Concat(chunks))
  {
    if chunks != [] {
      var n := |chunks| - 1;
      ChunksDoNotMatter(parse, chunks[..n]);
      ReadIsIncremental(parse, Concat(chunks[..n]), chunks[n]);
    }
  }

  method ReadLoop(json: string -> bool, chunks: seq<string>) returns (messages: seq<Message>, buffer: string)
    ensures Reading(messages, buffer) == ReadChunks(Parser(json), chunks)
  {
    messages, buffer := [], "";
    for k := 0 to |chunks|
      invariant Reading(messages, buffer) == ReadChunks(Parser(json), chunks[..k])
    {
      assert chunks[..k + 1][..k] == chunks[..k];
      buffer := buffer + chunks[k];
      var more;
      more, buffer := Drain(json, buffer);
      messages := messages + more;
    }
    assert chunks[..|chunks|] == chunks;
  }

  // ---- Round trip ----

  // The fields survive printing and parsing: no line breaks, and no white space where it is trimmed.
  predicate Clean(m: Message) {
    && NewlineFree(m.id) && !Ragged(m.id) && !RaggedEnd(m.id)
    && NewlineFree(m.event) && !Ragged(m.event) && !RaggedEnd(m.event)
    && NewlineFree(m.data) && !Ragged(m.data)
  }

  ghost predicate PlainLines(lines: seq<string>) {
    lines != [] && forall k :: 0 <= k < |lines| ==> lines[k] != "" && NewlineFree(lines[k])
  }

  lemma {:induction false} BlankAfterLine(line: string, t: string)
    requires NewlineFree(line) && (t == "" || t[0] != '\n')
    ensures IndexOfBlank(line + "\n" + t) == if IndexOfBlank(t) == -1 then -1 else |line| + 1 + IndexOfBlank(t)
  {
    var s := line + "\n" + t;
    if line == "" {
      assert s[1..] == t;
    } else {
      assert line[0] in line;
      assert s[1..] == line[1..] + "\n" + t;
      BlankAfterLine(line[1..], t);
    }
  }

  lemma {:induction false} BlankAtEnd(line: string, rest: string)
    requires NewlineFree(line)
    ensures IndexOfBlank(line + "\n\n" + rest) == |line|
  {
    var s := line + "\n\n" + rest;
    if line != "" {
      assert line[0] in line;
      assert s[1..] == line[1..] + "\n\n" + rest;
      BlankAtEnd(line[1..], rest);
    }
  }

  // Joining nonempty lines makes no blank line, so the first one is where the joined text ends.
  lemma {:induction false} JoinHasNoBlank(lines: seq<string>, rest: string)
    requires PlainLines(lines)
    ensures IndexOfBlank(Join(lines) + "\n\n" + rest) == |Join(lines)|
    ensures Join(lines) != "" && Join(lines)[0] != '\n'
  {
    assert lines[0] != "" && NewlineFree(lines[0]) && lines[0][0] in lines[0];
    if |lines| == 1 {
      BlankAtEnd(lines[0], rest);
    } else {
      assert PlainLines(lines[1..]);
      JoinHasNoBlank(lines[1..], rest);
      var t := Join(lines[1..]) + "\n\n" + rest;
      BlankAfterLine(lines[0], t);
      assert Join(lines) + "\n\n" + rest == lines[0] + "\n" + t;
    }
  }

  function PrintedLines(m: Message): seq<string> {
    Head(m) + ["data: " + m.data]
  }

  lemma PrintIsJoin(m: Message)
    ensures Print(m) == Join(PrintedLines(m)) + "\n\n"
  {
    var e, d := "event: " + Normal(m).event, "data: " + m.data;
    assert Join([e, d]) == e + "\n" + d;
    if m.id != "" {
      var i := "id: " + m.id;
      assert PrintedLines(m) == [i, e, d] && [i, e, d][1..] == [e, d];
      assert Join([i, e, d]) == i + "\n" + (e + "\n" + d);
    } else {
      assert PrintedLines(m) == [e, d];
    }
  }

  lemma FieldsSnoc(lines: seq<string>, line: string)
    ensures FieldsOf(lines + [line]) == Field(FieldsOf(lines), line)
  {
    assert (lines + [line])[..|lines|] == lines;
  }

  lemma IdField(f: Fields, id: string)
    requires !Ragged(id) && !RaggedEnd(id)
    ensures Field(f, "id: " + id) == f.(id := id)
  {
    assert ("id: " + id)[3..] == " " + id;
    TrimSpace(id);
  }

  lemma EventField(f: Fields, event: string)
    requires !Ragged(event) && !RaggedEnd(event)
    ensures Field(f, "event: " + event) == f.(event := event)
  {
    var line := "event: " + event;
    assert line[..3][0] == 'e' && line[..6] == "event:";
    assert line[6..] == " " + event;
    TrimSpace(event);
  }

  lemma DataField(f: Fields, data: string)
    ensures Field(f, "data: " + data) == f.(dataLines := f.dataLines + [TrimStart(data)])
  {
    var line := "data: " + data;
    assert line[..3][0] == 'd' && line[..5] == "data:" && (|line| >= 6 ==> line[..6][0] == 'd');
    assert line[5..] == " " + data && (" " + data)[1..] == data;
    assert TrimStart(" " + data) == TrimStart(data);
  }

  lemma HeadFields(m: Message)
    requires Clean(Normal(m))
    ensures FieldsOf(Head(m)) == Fields(m.id, Normal(m).event, [])
  {
    var start := if m.id != "" then ["id: " + m.id] else [];
    assert FieldsOf(start) == Fields(m.id, "log", []) by {
      if m.id != "" {
        FieldsSnoc([], "id: " + m.id);
        assert [] + ["id: " + m.id] == ["id: " + m.id];
        IdField(FieldsOf([]), m.id);
      }
    }
    FieldsSnoc(start, "event: " + Normal(m).event);
    EventField(FieldsOf(start), Normal(m).event);
  }

  lemma PrintedArePlain(m: Message)
    requires Clean(Normal(m))
    ensures PlainLines(PrintedLines(m))
  {
    assert NewlineFree("id: " + m.id) && NewlineFree("event: " + Normal(m).event) && NewlineFree("data: " + m.data);
  }

  lemma PrintedFields(m: Message)
    requires Clean(Normal(m))
    ensures FieldsOf(PrintedLines(m)) == Fields(m.id, Normal(m).event, [m.data])
  {
    HeadFields(m);
    FieldsSnoc(Head(m), "data: " + m.data);
    DataField(FieldsOf(Head(m)), m.data);
    TrimStartFixed(m.data);
    assert [] + [m.data] == [m.data];
  }

  lemma ParsePrinted(json: string -> bool, m: Message)
    requires Clean(Normal(m)) && json(m.data)
    ensures ParseEvent(json, Join(PrintedLines(m))) == Some(Normal(m))
  {
    PrintedArePlain(m);
    LinesOfJoin(PrintedLines(m));
    PrintedFields(m);
  }

  lemma {:induction false} ReadOnePrinted(json: string -> bool, m: Message, rest: string)
    requires Clean(Normal(m)) && json(m.data)
    ensures var later := Read(Parser(json), rest);
            Read(Parser(json), Print(m) + rest) == Reading([Normal(m)] + later.messages, later.rest)
  {
    var raw := Join(PrintedLines(m));
    ParsePrinted(json, m);
    PrintedArePlain(m);
    JoinHasNoBlank(PrintedLines(m), rest);
    var text := raw + "\n\n" + rest;
    assert text == Print(m) + rest by { PrintIsJoin(m); }
    assert text[..|raw|] == raw && text[|raw| + 2..] == rest;
    ReadFirst(Parser(json), text, |raw|);
  }

  // The event as the client names it: one without a name is a "message".
  lemma NameOf(m: Message)
    ensures Normal(m) == Message(m.id, if m.event != "" then m.event else "message", m.data)
    ensures Clean(Normal(m)) <==> Clean(m)
  {
  }

  // The messages are the events, in order, those without a name as "message".
  ghost predicate Same(got: seq<Message>, ms: seq<Message>) {
    |got| == |ms| && forall k :: 0 <= k < |ms| ==>
      got[k] == Message(ms[k].id, if ms[k].event != "" then ms[k].event else "message", ms[k].data)
  }

  ghost predicate AllClean(json: string -> bool, ms: seq<Message>) {
    forall k :: 0 <= k < |ms| ==> Clean(ms[k]) && json(ms[k].data)
  }

  lemma {:induction false} ReadPrinted(json: string -> bool, ms: seq<Message>)
    requires AllClean(json, ms)
    ensures Same(Read(Parser(json), PrintAll(ms)).messages, ms) && Read(Parser(json), PrintAll(ms)).rest == ""
  {
    if ms != [] {
      assert AllClean(json, ms[1..]);
      ReadPrinted(json, ms[1..]);
      NameOf(ms[0]);
      ReadOnePrinted(json, ms[0], PrintAll(ms[1..]));
      SameCons(Read(Parser(json), PrintAll(ms[1..])).messages, ms);
    }
  }

  lemma SameCons(got: seq<Message>, ms: seq<Message>)
    requires ms != [] && Same(got, ms[1..])
    ensures Same([Normal(ms[0])] + got, ms)
  {
    NameOf(ms[0]);
    forall k | 0 <= k < |ms|
      ensures ([Normal(ms[0])] + got)[k] ==
                Message(ms[k].id, if ms[k].event != "" then ms[k].event else "message", ms[k].data)
    {
      if k > 0 {
        assert ms[1..][k - 1] == ms[k];
      }
    }
  }

  // Main result: reading the chunks one after the other recovers the printed events in order, and
  // the buffer is empty at the end, wherever the text was cut.
  lemma {:induction false} RoundTrip(json: string -> bool, ms: seq<Message>, chunks: seq<string>)
    requires AllClean(json, ms) && Concat(chunks) == PrintAll(ms)
    ensures Same(ReadChunks(Parser(json), chunks).messages, ms) && ReadChunks(Parser(json), chunks).rest == ""
  {
    ChunksDoNotMatter(Parser(json), chunks);
    ReadPrinted(json, ms);
  }

  lemma ReadOfBeginning(parse: string -> Option<Message>, got: string, text: string)
    requires got <= text
    ensures Read(parse, got).messages <= Read(parse, text).messages
  {
    assert text == got + text[|got|..];
    ReadIsIncremental(parse, got, text[|got|..]);
  }

  // At any moment on the way, what was read so far is the beginning of what was printed.
  lemma {:induction false} PartialRead(json: string -> bool, ms: seq<Message>, chunks: seq<string>)
    requires AllClean(json, ms) && Concat(chunks) <= PrintAll(ms)
    ensures var got := ReadChunks(Parser(json), chunks).messages; |got| <= |ms| && Same(got, ms[..|got|])
  {
    ChunksDoNotMatter(Parser(json), chunks);
    ReadPrinted(json, ms);
    ReadOfBeginning(Parser(json), Concat(chunks), PrintAll(ms));
    var got, all := ReadChunks(Parser(json), chunks).messages, Read(Parser(json), PrintAll(ms)).messages;
    assert forall k :: 0 <= k < |got| ==> got[k] == all[k];
  }

  // ---- What the client makes of other events ----

  // The last line of a kind decides, trimmed; without one there is no id, and the event is a log line.
  lemma {:induction false} LastIdWins(lines: seq<string>, k: nat)
    requires k < |lines| && StartsWith(lines[k], "id:")
    requires forall j :: k < j < |lines| ==> !StartsWith(lines[j], "id:")
    ensures FieldsOf(lines).id == Trim(lines[k][3..])
    decreases |lines|
  {
    if k < |lines| - 1 {
      LastIdWins(lines[..|lines| - 1], k);
    }
  }

  lemma {:induction false} LastEventWins(lines: seq<string>, k: nat)
    requires k < |lines| && StartsWith(lines[k], "event:")
    requires forall j :: k < j < |lines| ==> !StartsWith(lines[j], "event:")
    ensures FieldsOf(lines).event == Trim(lines[k][6..])
    decreases |lines|
  {
    if k < |lines| - 1 {
      LastEventWins(lines[..|lines| - 1], k);
    } else {
      assert lines[k][..6] == "event:" && lines[k][0] == 'e';
      assert lines[k][..3][0] == 'e';
    }
  }

  lemma {:induction false} DefaultFields(lines: seq<string>)
    ensures (forall j :: 0 <= j < |lines| ==> !StartsWith(lines[j], "id:")) ==> FieldsOf(lines).id == ""
    ensures (forall j :: 0 <= j < |lines| ==> !StartsWith(lines[j], "event:")) ==> FieldsOf(lines).event == "log"
  {
    if lines != [] {
      DefaultFields(lines[..|lines| - 1]);
    }
  }
}
