/**
  The printed events against the rules for event streams of the WHATWG HTML Living Standard,
  section 9.2.6 (backend/internal/api/logs.go, writeSSEEvent).

  The rules are stated here on the lines of a stream, independently of the client of this program.
 */
module SseStandard {
  import opened Sse
  import opened Text
  import opened Wrappers

  const NUL: char := '\0'

  // The buffers of an interpreter of event streams, and the events it dispatched.
  datatype Interpreter = Interpreter(lastId: string, event: string, data: string, dispatched: seq<Message>)

  function IndexOfColon(line: string): (i: nat)
    ensures i <= |line| && (i < |line| ==> line[i] == ':') && forall k :: 0 <= k < i ==> line[k] != ':'
  {
    if line == "" || line[0] == ':' then 0
    else
      var i := IndexOfColon(line[1..]);
      assert forall k :: 1 <= k < i + 1 ==> line[k] == line[1..][k - 1];
      i + 1
  }

  // One space after the colon is not part of the value.
  function ValueOf(line: string): string {
    var i := IndexOfColon(line);
    if i == |line| then ""
    else if i + 1 < |line| && line[i + 1] == ' ' then line[i + 2..]
    else line[i + 1..]
  }

  function ProcessField(s: Interpreter, field: string, value: string): Interpreter {
    if field == "event" then s.(event := value)
    else if field == "data" then s.(data := s.data + value + "\n")
    else if field == "id" then if NUL in value then s else s.(lastId := value)
    else s
  }

  // An empty line dispatches what was collected, if there is data.
  function Dispatch(s: Interpreter): Interpreter {
    if s.data == "" then s.(event := "")
    else
      var event := if s.event == "" then "message" else s.event;
      Interpreter(s.lastId, "", "", s.dispatched + [Message(s.lastId, event, s.data[..|s.data| - 1])])
  }

  function Process(s: Interpreter, line: string): Interpreter {
    if line == "" then Dispatch(s)
    else if line[0] == ':' then s
    else ProcessField(s, line[..IndexOfColon(line)], ValueOf(line))
  }

  function ProcessAll(s: Interpreter, lines: seq<string>): Interpreter
    decreases |lines|
  {
    if lines == [] then s else ProcessAll(Process(s, lines[0]), lines[1..])
  }

  lemma ColonAfter(field: string, value: string)
    requires ':' !in field
    ensures IndexOfColon(field + ":" + value) == |field|
  {
    var line := field + ":" + value;
    assert line[|field|] == ':';
    forall k | 0 <= k < |field| ensures line[k] != ':' {
      assert line[k] == field[k] && field[k] in field;
    }
  }

  // A line as the printer writes it.
  lemma PrintedField(s: Interpreter, field: string, value: string)
    requires field != "" && ':' !in field
    ensures Process(s, field + ":" + (" " + value)) == ProcessField(s, field, value)
  {
    var line := field + ":" + (" " + value);
    ColonAfter(field, " " + value);
    assert line[..|field|] == field && line[|field| + 2..] == value;
    assert field[0] in field && line[0] == field[0];
  }

  // The lines of a printed event.
  lemma LinesOfPrinted(m: Message)
    requires NewlineFree(m.id) && NewlineFree(m.event) && NewlineFree(m.data)
    ensures Lines(Print(m)) == PrintedLines(m) + ["", ""]
  {
    PrintIsJoin(m);
    var lines := PrintedLines(m);
    assert forall k :: 0 <= k < |lines| ==> NewlineFree(lines[k]) by {
      assert NewlineFree("id: " + m.id) && NewlineFree("event: " + Normal(m).event) && NewlineFree("data: " + m.data);
    }
    JoinBlankLines(lines);
    LinesOfJoin(lines + ["", ""]);
  }

  lemma {:induction false} JoinBlankLines(lines: seq<string>)
    requires lines != []
    ensures Join(lines + ["", ""]) == Join(lines) + "\n\n"
  {
    if |lines| == 1 {
      assert lines + ["", ""] == [lines[0]] + ["", ""] && ["", ""][1..] == [""];
      JoinUnfold(lines[0], ["", ""]);
    } else {
      JoinBlankLines(lines[1..]);
      assert lines + ["", ""] == [lines[0]] + (lines[1..] + ["", ""]) && lines == [lines[0]] + lines[1..];
      JoinUnfold(lines[0], lines[1..] + ["", ""]);
      JoinUnfold(lines[0], lines[1..]);
    }
  }

  lemma ProcessFirst(s: Interpreter, a: string, rest: seq<string>)
    ensures ProcessAll(s, [a] + rest) == ProcessAll(Process(s, a), rest)
  {
    assert ([a] + rest)[1..] == rest;
  }

  lemma ProcessThree(s: Interpreter, a: string, b: string, c: string)
    ensures ProcessAll(s, [a, b, c]) == Process(Process(Process(s, a), b), c)
  {
    assert [a, b, c] == [a] + [b, c] && [b, c] == [b] + [c] && [c] == [c] + [];
    ProcessFirst(s, a, [b, c]);
    ProcessFirst(Process(s, a), b, [c]);
    ProcessFirst(Process(Process(s, a), b), c, []);
  }

  lemma IdLine(s: Interpreter, id: string)
    requires NUL !in id
    ensures Process(s, "id: " + id) == s.(lastId := id)
  {
    assert "id: " + id == "id" + ":" + (" " + id);
    PrintedField(s, "id", id);
  }

  lemma EventLine(s: Interpreter, event: string)
    ensures Process(s, "event: " + event) == s.(event := event)
  {
    assert "event: " + event == "event" + ":" + (" " + event);
    PrintedField(s, "event", event);
  }

  lemma DataLine(s: Interpreter, data: string)
    requires s.data == ""
    ensures Process(s, "data: " + data) == s.(data := data + "\n")
  {
    assert "data: " + data == "data" + ":" + (" " + data);
    PrintedField(s, "data", data);
    assert "" + data == data;
  }

  lemma BlankLine(s: Interpreter, data: string)
    requires s.data == data + "\n"
    ensures Process(s, "") ==
              Interpreter(s.lastId, "", "",
                          s.dispatched + [Message(s.lastId, if s.event == "" then "message" else s.event, data)])
  {
    assert (data + "\n")[..|data|] == data;
  }

  // The event and data lines and the blank line after them.
  lemma EventAndData(s: Interpreter, event: string, data: string)
    requires s.data == ""
    ensures ProcessAll(s, ["event: " + event, "data: " + data, ""]) ==
              Interpreter(s.lastId, "", "",
                          s.dispatched + [Message(s.lastId, if event == "" then "message" else event, data)])
  {
    ProcessThree(s, "event: " + event, "data: " + data, "");
    EventLine(s, event);
    DataLine(s.(event := event), data);
    BlankLine(s.(event := event, data := data + "\n"), data);
  }

  lemma Framed(s: Interpreter, m: Message)
    requires s.data == "" && NUL !in m.id
    ensures var id := if m.id != "" then m.id else s.lastId;
            ProcessAll(s, PrintedLines(m) + [""]) ==
              Interpreter(id, "", "", s.dispatched + [Message(id, Normal(m).event, m.data)])
  {
    var e, d := "event: " + Normal(m).event, "data: " + m.data;
    if m.id != "" {
      assert PrintedLines(m) + [""] == ["id: " + m.id] + [e, d, ""];
      ProcessFirst(s, "id: " + m.id, [e, d, ""]);
      IdLine(s, m.id);
      EventAndData(s.(lastId := m.id), Normal(m).event, m.data);
    } else {
      assert PrintedLines(m) + [""] == [e, d, ""];
      EventAndData(s, Normal(m).event, m.data);
    }
  }

  // Main result: an interpreter of event streams that has nothing collected dispatches exactly the
  // printed event, whatever the printed fields are, as long as none has a line break and the id no
  // zero byte.
  lemma PrintedIsStandard(s: Interpreter, m: Message)
    requires s.data == "" && NewlineFree(m.id) && NewlineFree(m.event) && NewlineFree(m.data) && NUL !in m.id
    ensures Lines(Print(m)) == PrintedLines(m) + ["", ""]
    ensures var id := if m.id != "" then m.id else s.lastId;
            ProcessAll(s, PrintedLines(m) + [""]) ==
              Interpreter(id, "", "",
                          s.dispatched + [Message(id, if m.event != "" then m.event else "message", m.data)])
  {
    LinesOfPrinted(m);
    NameOf(m);
    Framed(s, m);
  }
}
