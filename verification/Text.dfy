/** Text operations of the browser client: split into lines, trim, search. */
module Text {

  // Characters removed by String.prototype.trim: white space and line terminators of ECMAScript.
  predicate IsSpace(c: char) {
    || c == '\t' || c == '\n' || c == '\U{000B}' || c == '\U{000C}' || c == '\r' || c == ' '
    || c == '\U{00A0}' || c == '\U{1680}' || '\U{2000}' <= c <= '\U{200A}'
    || c == '\U{2028}' || c == '\U{2029}' || c == '\U{202F}' || c == '\U{205F}'
    || c == '\U{3000}' || c == '\U{FEFF}'
  }

  function TrimStart(s: string): string {
    if s != "" && IsSpace(s[0]) then TrimStart(s[1..]) else s
  }

  function TrimEnd(s: string): string {
    if s != "" && IsSpace(s[|s| - 1]) then TrimEnd(s[..|s| - 1]) else s
  }

  function Trim(s: string): string {
    TrimEnd(TrimStart(s))
  }

  predicate NewlineFree(s: string) {
    '\n' !in s
  }

  function IndexOfNewline(s: string): (i: int)
    ensures -1 <= i < |s|
    ensures i == -1 ==> NewlineFree(s)
    ensures i >= 0 ==> s[i] == '\n' && NewlineFree(s[..i])
  {
    if s == "" then -1
    else if s[0] == '\n' then 0
    else
      var i := IndexOfNewline(s[1..]);
      assert i >= 0 ==> s[..i + 1] == [s[0]] + s[1..][..i];
      if i == -1 then -1 else i + 1
  }

  // s.split('\n')
  function Lines(s: string): (lines: seq<string>)
    ensures lines != []
  {
    var i := IndexOfNewline(s);
    if i == -1 then [s] else [s[..i]] + Lines(s[i + 1..])
  }

  // lines.join('\n')
  function Join(lines: seq<string>): string {
    if lines == [] then ""
    else if |lines| == 1 then lines[0]
    else lines[0] + "\n" + Join(lines[1..])
  }

  lemma NewlineIndexUnique(s: string, i: nat)
    requires i < |s| && s[i] == '\n' && NewlineFree(s[..i])
    ensures IndexOfNewline(s) == i
  {
  }

  lemma LinesStep(a: string, s: string)
    requires NewlineFree(a)
    ensures Lines(a + "\n" + s) == [a] + Lines(s)
  {
    var t := a + "\n" + s;
    assert t[..|a|] == a;
    NewlineIndexUnique(t, |a|);
    assert t[|a| + 1..] == s;
  }

  lemma {:induction false} LinesOfJoin(lines: seq<string>)
    requires lines != [] && forall k :: 0 <= k < |lines| ==> NewlineFree(lines[k])
    ensures Lines(Join(lines)) == lines
  {
    assert NewlineFree(lines[0]);
    if |lines| == 1 {
    } else {
      LinesOfJoin(lines[1..]);
      LinesStep(lines[0], Join(lines[1..]));
    }
  }

  lemma LinesUnfold(s: string, i: nat)
    requires IndexOfNewline(s) == i
    ensures Lines(s) == [s[..i]] + Lines(s[i + 1..]) && s == s[..i] + "\n" + s[i + 1..]
  {
  }

  lemma JoinUnfold(line: string, lines: seq<string>)
    requires lines != []
    ensures Join([line] + lines) == line + "\n" + Join(lines)
  {
    assert ([line] + lines)[1..] == lines;
  }

  lemma {:induction false} LinesAreNewlineFree(s: string, k: nat)
    requires k < |Lines(s)|
    ensures NewlineFree(Lines(s)[k])
    decreases |s|
  {
    var i := IndexOfNewline(s);
    if i >= 0 {
      LinesUnfold(s, i);
      if k > 0 {
        LinesAreNewlineFree(s[i + 1..], k - 1);
      }
    }
  }

  lemma {:induction false} JoinOfLines(s: string)
    ensures Join(Lines(s)) == s
    decreases |s|
  {
    var i := IndexOfNewline(s);
    if i >= 0 {
      LinesUnfold(s, i);
      JoinUnfold(s[..i], Lines(s[i + 1..]));
      JoinOfLines(s[i + 1..]);
    }
  }

  // ---- Trimming ----

  predicate Ragged(s: string) {
    s != "" && IsSpace(s[0])
  }

  lemma {:induction false} TrimStartFixed(s: string)
    ensures !Ragged(TrimStart(s))
    ensures TrimStart(s) == s <==> !Ragged(s)
    ensures |TrimStart(s)| <= |s| && TrimStart(s) == s[|s| - |TrimStart(s)|..]
  {
    if Ragged(s) {
      TrimStartFixed(s[1..]);
    }
  }

  predicate RaggedEnd(s: string) {
    s != "" && IsSpace(s[|s| - 1])
  }

  lemma {:induction false} TrimEndFixed(s: string)
    ensures !RaggedEnd(TrimEnd(s))
    ensures TrimEnd(s) == s <==> !RaggedEnd(s)
    ensures |TrimEnd(s)| <= |s| && TrimEnd(s) == s[..|TrimEnd(s)|]
  {
    if RaggedEnd(s) {
      TrimEndFixed(s[..|s| - 1]);
    }
  }

  // Trimming leaves exactly the texts alone that have no space at either end.
  lemma TrimFixed(s: string)
    ensures !Ragged(Trim(s)) && !RaggedEnd(Trim(s))
    ensures Trim(s) == s <==> !Ragged(s) && !RaggedEnd(s)
    ensures NewlineFree(s) ==> NewlineFree(Trim(s))
  {
    TrimStartFixed(s);
    TrimEndFixed(TrimStart(s));
    TrimEndFixed(s);
  }

  lemma TrimSpace(s: string)
    requires !Ragged(s) && !RaggedEnd(s)
    ensures Trim(" " + s) == s
  {
    assert (" " + s)[1..] == s;
    assert TrimStart(" " + s) == TrimStart(s);
    TrimStartFixed(s);
    TrimEndFixed(s);
  }
}
