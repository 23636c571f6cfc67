/**
  The exact condition under which one printed event reaches the browser unchanged
  (backend/internal/api/logs.go and frontend/components/LogView.tsx).
 */
module SseExactness {
  import opened Sse
  import opened Text
  import opened Wrappers

  function DataIn(line: string): seq<string> {
    if StartsWith(line, "data:") then [TrimStart(line[5..])] else []
  }

  function DataOf(lines: seq<string>): seq<string> {
    if lines == [] then [] else DataIn(lines[0]) + DataOf(lines[1..])
  }

  lemma {:induction false} DataOfSnoc(lines: seq<string>, line: string)
    ensures DataOf(lines + [line]) == DataOf(lines) + DataIn(line)
  {
    if lines == [] {
      assert lines + [line] == [line];
      assert [line][1..] == [];
    } else {
      assert (lines + [line])[1..] == lines[1..] + [line];
      DataOfSnoc(lines[1..], line);
      Assoc(DataIn(lines[0]), DataOf(lines[1..]), DataIn(line));
    }
  }

  lemma NotTwoFields(line: string)
    requires StartsWith(line, "data:")
    ensures !StartsWith(line, "id:") && !StartsWith(line, "event:")
  {
    assert line[0] == 'd' && line[..3][0] == 'd';
    assert |line| >= 6 ==> line[..6][0] == 'd';
  }

  // What parsing leaves in the fields is always clean.
  ghost predicate CleanFields(f: Fields) {
    && NewlineFree(f.id) && !Ragged(f.id) && !RaggedEnd(f.id)
    && NewlineFree(f.event) && !Ragged(f.event) && !RaggedEnd(f.event)
    && forall k :: 0 <= k < |f.dataLines| ==> NewlineFree(f.dataLines[k]) && !Ragged(f.dataLines[k])
  }

  lemma FieldStaysClean(f: Fields, line: string)
    requires CleanFields(f) && NewlineFree(line)
    ensures CleanFields(Field(f, line))
    ensures Field(f, line).dataLines == f.dataLines + DataIn(line)
  {
    if StartsWith(line, "id:") {
      TrimFixed(line[3..]);
    } else if StartsWith(line, "event:") {
      TrimFixed(line[6..]);
    } else if StartsWith(line, "data:") {
      TrimStartFixed(line[5..]);
    }
    if StartsWith(line, "data:") {
      NotTwoFields(line);
    }
  }

  lemma {:induction false} ParsedIsClean(lines: seq<string>)
    requires forall k :: 0 <= k < |lines| ==> NewlineFree(lines[k])
    ensures CleanFields(FieldsOf(lines)) && FieldsOf(lines).dataLines == DataOf(lines)
  {
    if lines != [] {
      var front, last := lines[..|lines| - 1], lines[|lines| - 1];
      ParsedIsClean(front);
      FieldStaysClean(FieldsOf(front), last);
      DataOfSnoc(front, last);
      assert lines == front + [last];
    }
  }

  lemma JoinLength(line: string, lines: seq<string>)
    ensures |Join([line] + lines)| == |line| + if lines == [] then 0 else 1 + |Join(lines)|
  {
    assert ([line] + lines)[1..] == lines;
  }

  // Every data line costs its five-letter label.
  lemma {:induction false} DataIsShorter(lines: seq<string>)
    ensures |Join(DataOf(lines))| + 5 * |DataOf(lines)| <= |Join(lines)|
    ensures DataOf(lines) == [] ==> Join(DataOf(lines)) == ""
  {
    if lines != [] {
      DataIsShorter(lines[1..]);
      var later := DataOf(lines[1..]);
      assert lines == [lines[0]] + lines[1..];
      JoinLength(lines[0], lines[1..]);
      if StartsWith(lines[0], "data:") {
        TrimStartFixed(lines[0][5..]);
        JoinLength(TrimStart(lines[0][5..]), later);
      } else {
        assert DataOf(lines) == later;
      }
    }
  }

  function HeadText(m: Message): string {
    (if m.id != "" then "id: " + m.id + "\n" else "") + "event: " + Normal(m).event + "\n"
  }

  lemma HeadTextThen(m: Message, t: string)
    ensures HeadText(m) + t ==
              var rest := ("event: " + Normal(m).event) + "\n" + t;
              if m.id != "" then ("id: " + m.id) + "\n" + rest else rest
  {
  }

  lemma EventLineThen(event: string, t: string)
    requires NewlineFree(event) && t != "" && t[0] != '\n' && IndexOfBlank(t) >= 0
    ensures var rest := ("event: " + event) + "\n" + t;
            IndexOfBlank(rest) == |event| + 8 + IndexOfBlank(t) && rest[0] == 'e'
  {
    BlankAfterLine("event: " + event, t);
  }

  // With a proper head, the first raw event is the head followed by a piece of the data part.
  lemma HeadComesFirst(m: Message, t: string)
    requires NewlineFree(m.id) && NewlineFree(m.event) && t != "" && t[0] != '\n' && IndexOfBlank(t) >= 0
    ensures IndexOfBlank(HeadText(m) + t) == |HeadText(m)| + IndexOfBlank(t)
  {
    HeadTextThen(m, t);
    EventLineThen(Normal(m).event, t);
    if m.id != "" {
      BlankAfterLine("id: " + m.id, ("event: " + Normal(m).event) + "\n" + t);
    }
  }

  lemma {:induction false} BlankAfterPrefix(p: string, t: string)
    requires NewlineFree(p) && IndexOfBlank(t) >= 0
    ensures IndexOfBlank(p + t) == |p| + IndexOfBlank(t)
  {
    if p == "" {
      assert p + t == t;
    } else {
      assert p[0] in p;
      assert (p + t)[1..] == p[1..] + t;
      BlankAfterPrefix(p[1..], t);
    }
  }

  lemma {:induction false} DataPartEnds(data: string)
    ensures 6 <= IndexOfBlank("data: " + data + "\n\n") <= 6 + |data|
  {
    FindsSomeBlank(data + "\n\n", |data|);
    BlankAfterPrefix("data: ", data + "\n\n");
    Assoc("data: ", data, "\n\n");
  }

  lemma {:induction false} FindsSomeBlank(s: string, i: nat)
    requires i + 1 < |s| && s[i] == '\n' && s[i + 1] == '\n'
    ensures 0 <= IndexOfBlank(s) <= i
  {
    if !(s[0] == '\n' && s[1] == '\n') {
      FindsSomeBlank(s[1..], i - 1);
    }
  }

  lemma TwoLines(a: string, b: string, part: string)
    requires NewlineFree(a) && NewlineFree(b)
    ensures Lines(a + "\n" + (b + "\n" + part)) == [a, b] + Lines(part)
  {
    var rest := b + "\n" + part;
    LinesStep(b, part);
    LinesStep(a, rest);
    Assoc([a], [b], Lines(part));
    assert [a] + [b] == [a, b];
  }

  lemma HeadLines(m: Message, part: string)
    requires NewlineFree(m.id) && NewlineFree(m.event)
    ensures Lines(HeadText(m) + part) == Head(m) + Lines(part)
  {
    HeadTextThen(m, part);
    var i, e := "id: " + m.id, "event: " + Normal(m).event;
    assert Head(m) == if m.id != "" then [i, e] else [e];
    if m.id != "" {
      TwoLines(i, e, part);
    } else {
      LinesStep(e, part);
    }
  }

  lemma HeadHasNoData(m: Message, lines: seq<string>)
    ensures DataOf(Head(m) + lines) == DataOf(lines)
  {
    var e := "event: " + Normal(m).event;
    assert e[..5][0] == 'e';
    assert ([e] + lines)[1..] == lines;
    if m.id != "" {
      var i := "id: " + m.id;
      assert |i| >= 5 ==> i[..5][0] == 'i';
      assert Head(m) + lines == [i] + ([e] + lines);
      assert ([i] + ([e] + lines))[1..] == [e] + lines;
    } else {
      assert Head(m) + lines == [e] + lines;
    }
  }

  function FirstRaw(m: Message): string
    requires IndexOfBlank(Print(m)) >= 0
  {
    Print(m)[..IndexOfBlank(Print(m))]
  }

  lemma FirstRawSplits(m: Message) returns (part: string)
    requires NewlineFree(m.id) && NewlineFree(m.event)
    ensures IndexOfBlank(Print(m)) >= 0 && FirstRaw(m) == HeadText(m) + part
    ensures StartsWith(part, "data: ") && |part| <= 6 + |m.data|
  {
    var t := "data: " + m.data + "\n\n";
    DataPartEnds(m.data);
    assert t[0] == 'd';
    HeadComesFirst(m, t);
    assert Print(m) == HeadText(m) + t;
    part := t[..IndexOfBlank(t)];
    assert (HeadText(m) + t)[..|HeadText(m)| + |part|] == HeadText(m) + part;
    assert part[..6] == "data: ";
  }

  lemma LinesParseClean(raw: string)
    ensures CleanFields(FieldsOf(Lines(raw))) && FieldsOf(Lines(raw)).dataLines == DataOf(Lines(raw))
  {
    forall k | 0 <= k < |Lines(raw)| ensures NewlineFree(Lines(raw)[k]) {
      LinesAreNewlineFree(raw, k);
    }
    ParsedIsClean(Lines(raw));
  }

  // The data lines of the first raw event are shorter than the data they came from, or there is
  // only one.
  lemma {:induction false} FirstDataLines(m: Message) returns (dataLines: seq<string>)
    requires NewlineFree(m.id) && NewlineFree(m.event)
    ensures IndexOfBlank(Print(m)) >= 0 && dataLines == FieldsOf(Lines(FirstRaw(m))).dataLines
    ensures |dataLines| >= 1 && |Join(dataLines)| + 5 * |dataLines| <= 6 + |m.data|
  {
    var part := FirstRawSplits(m);
    HeadLines(m, part);
    HeadHasNoData(m, Lines(part));
    LinesParseClean(FirstRaw(m));
    dataLines := DataOf(Lines(part));
    JoinOfLines(part);
    DataIsShorter(Lines(part));
    FirstLineIsData(part);
  }

  lemma FirstLineIsData(s: string)
    requires StartsWith(s, "data: ")
    ensures DataOf(Lines(s)) != []
  {
    assert forall k :: 0 <= k < 6 ==> s[k] == "data: "[k];
    var line := Lines(s)[0];
    assert IndexOfNewline(s) == -1 || IndexOfNewline(s) >= 6;
    assert line[..5] == s[..5] == "data:";
    assert StartsWith(line, "data:");
  }

  // Every message read was parsed from a raw event that lies, with its end, in the text.
  lemma {:induction false} EveryReadIsParsed(json: string -> bool, text: string, k: nat) returns (raw: string)
    requires k < |Read(Parser(json), text).messages|
    ensures |raw| + 2 <= |text| && ParseEvent(json, raw) == Some(Read(Parser(json), text).messages[k])
    decreases |text|
  {
    var i := IndexOfBlank(text);
    ReadFirst(Parser(json), text, i);
    var first := Found(ParseEvent(json, text[..i]));
    raw := text[..i];
    if k >= |first| {
      raw := EveryReadIsParsed(json, text[i + 2..], k - |first|);
    }
  }

  // The data of a parsed event is shorter than the event.
  lemma ParsedDataIsShort(json: string -> bool, raw: string)
    requires ParseEvent(json, raw).Some?
    ensures |ParseEvent(json, raw).value.data| + 5 <= |raw|
  {
    LinesParseClean(raw);
    DataIsShorter(Lines(raw));
    JoinOfLines(raw);
  }

  lemma FaithfulHead(json: string -> bool, m: Message)
    requires Read(Parser(json), Print(m)).messages == [Normal(m)]
    ensures NewlineFree(m.id) && !Ragged(m.id) && !RaggedEnd(m.id)
    ensures var e := Normal(m).event; NewlineFree(e) && !Ragged(e) && !RaggedEnd(e)
    ensures json(m.data)
  {
    var raw := EveryReadIsParsed(json, Print(m), 0);
    LinesParseClean(raw);
  }

  // If the client refuses the first raw event, what is left is too short to give the data back.
  lemma RestIsTooShort(json: string -> bool, m: Message)
    requires NewlineFree(m.id) && NewlineFree(m.event)
    requires IndexOfBlank(Print(m)) >= 0 && ParseEvent(json, FirstRaw(m)) == None
    ensures Read(Parser(json), Print(m)).messages != [Normal(m)]
  {
    var i := IndexOfBlank(Print(m));
    var rest := Print(m)[i + 2..];
    var part := FirstRawSplits(m);
    assert i == |HeadText(m)| + |part| && |Print(m)| == |HeadText(m)| + 6 + |m.data| + 2;
    ReadFirst(Parser(json), Print(m), i);
    assert Found(ParseEvent(json, FirstRaw(m))) == [];
    var later := Read(Parser(json), rest).messages;
    if later == [Normal(m)] {
      var raw := EveryReadIsParsed(json, rest, 0);
      ParsedDataIsShort(json, raw);
    }
  }

  // If it accepts the first raw event, that event gives the data.
  lemma {:induction false} FirstGivesData(json: string -> bool, m: Message)
    requires IndexOfBlank(Print(m)) >= 0 && ParseEvent(json, FirstRaw(m)).Some?
    requires Read(Parser(json), Print(m)).messages == [Normal(m)]
    ensures Join(FieldsOf(Lines(FirstRaw(m))).dataLines) == m.data
  {
    var first := ParseEvent(json, FirstRaw(m));
    ReadFirst(Parser(json), Print(m), IndexOfBlank(Print(m)));
    assert Parser(json)(FirstRaw(m)) == first;
    assert Found(first) == [first.value];
    assert Read(Parser(json), Print(m)).messages[0] == first.value;
  }

  lemma FaithfulData(json: string -> bool, m: Message)
    requires NewlineFree(m.id) && NewlineFree(m.event)
    requires Read(Parser(json), Print(m)).messages == [Normal(m)]
    ensures NewlineFree(m.data) && !Ragged(m.data)
  {
    var dataLines := FirstDataLines(m);
    if ParseEvent(json, FirstRaw(m)) == None {
      RestIsTooShort(json, m);
    } else {
      FirstGivesData(json, m);
      LinesParseClean(FirstRaw(m));
      if |dataLines| == 1 {
        assert m.data == dataLines[0];
      }
    }
  }

  // Main result: whatever the client takes for JSON, an event survives the wire, as itself or as a
  // "message" if it has no name, exactly when its fields are clean and its data is JSON.
  lemma FaithfulIffClean(json: string -> bool, m: Message)
    ensures Read(Parser(json), Print(m)) ==
              Reading([Message(m.id, if m.event != "" then m.event else "message", m.data)], "") <==>
            Clean(m) && json(m.data)
  {
    NameOf(m);
    if Clean(m) && json(m.data) {
      ReadOnePrinted(json, m, "");
      assert Print(m) + "" == Print(m);
      ReadIncomplete(Parser(json), "");
      assert [Normal(m)] + [] == [Normal(m)];
    } else if Read(Parser(json), Print(m)) == Reading([Normal(m)], "") {
      FaithfulHead(json, m);
      FaithfulData(json, m);
    }
  }
}
