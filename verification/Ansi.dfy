/**
  Coloured log lines in the browser (frontend/components/LogView.tsx: stripAnsi,
  parseAnsiSegments, renderAnsiWithHighlight).

  The one pattern that matters is ESC, '[', digits and semicolons, 'm'.  The letter 'm' is not a
  parameter character, so at most one match starts at any position.
 */
module Ansi {
  import opened Wrappers
  import Decimal

  const ESC: char := '\U{001B}'

  predicate IsParam(c: char) {
    Decimal.IsDigit(c) || c == ';'
  }

  // How many parameter characters come first.
  function ParamSpan(s: string): (n: nat)
    ensures n <= |s| && (forall k :: 0 <= k < n ==> IsParam(s[k])) && (n < |s| ==> !IsParam(s[n]))
  {
    if s == "" || !IsParam(s[0]) then 0
    else
      var n := ParamSpan(s[1..]);
      assert forall k :: 1 <= k < n + 1 ==> s[k] == s[1..][k - 1];
      n + 1
  }

  // The length of the match at the start of the text; 0 means there is none.
  function MatchLength(s: string): (n: nat)
    ensures n <= |s| && (n > 0 ==> n >= 3)
  {
    if |s| >= 3 && s[0] == ESC && s[1] == '[' then
      var n := ParamSpan(s[2..]);
      if 2 + n < |s| && s[2 + n] == 'm' then n + 3 else 0
    else 0
  }

  // ---- Styles ----

  datatype Style = Style(bold: bool, dim: bool, italic: bool, underline: bool,
                         color: Option<string>, background: Option<string>)

  const PLAIN := Style(false, false, false, false, None, None)

  const COLORS: seq<string> :=
    ["#000000", "#cc0000", "#4e9a06", "#c4a000", "#3465a4", "#75507b", "#06989a", "#d3d7cf"]

  const BRIGHT_COLORS: seq<string> :=
    ["#555753", "#ef2929", "#8ae234", "#fce94f", "#729fcf", "#ad7fa8", "#34e2e2", "#eeeeec"]

  function ApplyCode(s: Style, code: nat): Style {
    if code == 0 then PLAIN
    else if code == 1 then s.(bold := true)
    else if code == 2 then s.(dim := true)
    else if code == 3 then s.(italic := true)
    else if code == 4 then s.(underline := true)
    else if code == 22 then s.(bold := false, dim := false)
    else if code == 23 then s.(italic := false)
    else if code == 24 then s.(underline := false)
    else if code == 39 then s.(color := None)
    else if code == 49 then s.(background := None)
    else if 30 <= code <= 37 then s.(color := Some(COLORS[code - 30]))
    else if 90 <= code <= 97 then s.(color := Some(BRIGHT_COLORS[code - 90]))
    else if 40 <= code <= 47 then s.(background := Some(COLORS[code - 40]))
    else if 100 <= code <= 107 then s.(background := Some(BRIGHT_COLORS[code - 100]))
    else s
  }

  function ApplyCodes(s: Style, codes: seq<nat>): Style {
    if codes == [] then s else ApplyCode(ApplyCodes(s, codes[..|codes| - 1]), codes[|codes| - 1])
  }

  // Where the last of the codes in `which` is, or -1.
  function LastOf(codes: seq<nat>, which: set<nat>): (k: int)
    ensures -1 <= k < |codes| && (k >= 0 ==> codes[k] in which)
    ensures forall j :: k < j < |codes| ==> codes[j] !in which
  {
    if codes == [] then -1
    else if codes[|codes| - 1] in which then |codes| - 1
    else LastOf(codes[..|codes| - 1], which)
  }

  const COLOR_CODES: set<nat> := set c: nat | c <= 97 && (c == 0 || 30 <= c <= 37 || c == 39 || 90 <= c)

  const BACKGROUND_CODES: set<nat> := set c: nat | c <= 107 && (c == 0 || 40 <= c <= 47 || c == 49 || 100 <= c)

  // The colour that a decisive code asks for; `base` and `bright` are the first codes of the two tables.
  function ColorOf(code: nat, base: nat, bright: nat): Option<string> {
    if base <= code < base + 8 then Some(COLORS[code - base])
    else if bright <= code < bright + 8 then Some(BRIGHT_COLORS[code - bright])
    else None
  }

  // What one code does to each attribute.
  lemma CodeEffect(s: Style, code: nat)
    ensures var r := ApplyCode(s, code);
            && r.bold == (if code in {0, 1, 22} then code == 1 else s.bold)
            && r.dim == (if code in {0, 2, 22} then code == 2 else s.dim)
            && r.italic == (if code in {0, 3, 23} then code == 3 else s.italic)
            && r.underline == (if code in {0, 4, 24} then code == 4 else s.underline)
            && r.color == (if code in COLOR_CODES then ColorOf(code, 30, 90) else s.color)
            && r.background == (if code in BACKGROUND_CODES then ColorOf(code, 40, 100) else s.background)
  {
  }

  // An attribute that only the codes in `which` set, each to a value of its own.
  ghost predicate SetBy<T(!new)>(get: Style -> T, which: set<nat>, value: nat -> T) {
    forall s, code :: get(ApplyCode(s, code)) == if code in which then value(code) else get(s)
  }

  lemma {:induction false} AttributeIsLast<T(!new)>(get: Style -> T, which: set<nat>, value: nat -> T,
                                                    s: Style, codes: seq<nat>)
    requires SetBy(get, which, value)
    ensures var k := LastOf(codes, which);
            get(ApplyCodes(s, codes)) == if k == -1 then get(s) else value(codes[k])
  {
    if codes != [] {
      AttributeIsLast(get, which, value, s, codes[..|codes| - 1]);
    }
  }

  // For every attribute the last code that concerns it decides, and codes that do not concern it leave
  // it alone.
  ghost predicate IsLast<T>(now: T, was: T, codes: seq<nat>, which: set<nat>, value: nat -> T) {
    var k := LastOf(codes, which);
    now == if k == -1 then was else value(codes[k])
  }

  lemma LastCodeDecides(s: Style, codes: seq<nat>)
    ensures var r := ApplyCodes(s, codes);
            && IsLast(r.bold, s.bold, codes, {0, 1, 22}, c => c == 1)
            && IsLast(r.dim, s.dim, codes, {0, 2, 22}, c => c == 2)
            && IsLast(r.italic, s.italic, codes, {0, 3, 23}, c => c == 3)
            && IsLast(r.underline, s.underline, codes, {0, 4, 24}, c => c == 4)
            && IsLast(r.color, s.color, codes, COLOR_CODES, c => ColorOf(c, 30, 90))
            && IsLast(r.background, s.background, codes, BACKGROUND_CODES, c => ColorOf(c, 40, 100))
  {
    BoldAndDim(s, codes);
    ItalicAndUnderline(s, codes);
    ColorAndBackground(s, codes);
  }

  lemma BoldAndDim(s: Style, codes: seq<nat>)
    ensures IsLast(ApplyCodes(s, codes).bold, s.bold, codes, {0, 1, 22}, c => c == 1)
    ensures IsLast(ApplyCodes(s, codes).dim, s.dim, codes, {0, 2, 22}, c => c == 2)
  {
    var bold, dim := (st: Style) => st.bold, (st: Style) => st.dim;
    var one, two := (c: nat) => c == 1, (c: nat) => c == 2;
    forall st, code
      ensures bold(ApplyCode(st, code)) == if code in {0, 1, 22} then one(code) else bold(st)
      ensures dim(ApplyCode(st, code)) == if code in {0, 2, 22} then two(code) else dim(st)
    {
      CodeEffect(st, code);
    }
    AttributeIsLast(bold, {0, 1, 22}, one, s, codes);
    AttributeIsLast(dim, {0, 2, 22}, two, s, codes);
  }

  lemma ItalicAndUnderline(s: Style, codes: seq<nat>)
    ensures IsLast(ApplyCodes(s, codes).italic, s.italic, codes, {0, 3, 23}, c => c == 3)
    ensures IsLast(ApplyCodes(s, codes).underline, s.underline, codes, {0, 4, 24}, c => c == 4)
  {
    var italic, underline := (st: Style) => st.italic, (st: Style) => st.underline;
    var three, four := (c: nat) => c == 3, (c: nat) => c == 4;
    forall st, code
      ensures italic(ApplyCode(st, code)) == if code in {0, 3, 23} then three(code) else italic(st)
      ensures underline(ApplyCode(st, code)) == if code in {0, 4, 24} then four(code) else underline(st)
    {
      CodeEffect(st, code);
    }
    AttributeIsLast(italic, {0, 3, 23}, three, s, codes);
    AttributeIsLast(underline, {0, 4, 24}, four, s, codes);
  }

  lemma ColorAndBackground(s: Style, codes: seq<nat>)
    ensures IsLast(ApplyCodes(s, codes).color, s.color, codes, COLOR_CODES, c => ColorOf(c, 30, 90))
    ensures IsLast(ApplyCodes(s, codes).background, s.background, codes, BACKGROUND_CODES, c => ColorOf(c, 40, 100))
  {
    var color, background := (st: Style) => st.color, (st: Style) => st.background;
    var text, back := (c: nat) => ColorOf(c, 30, 90), (c: nat) => ColorOf(c, 40, 100);
    forall st, code
      ensures color(ApplyCode(st, code)) == if code in COLOR_CODES then text(code) else color(st)
      ensures background(ApplyCode(st, code)) == if code in BACKGROUND_CODES then back(code) else background(st)
    {
      CodeEffect(st, code);
    }
    AttributeIsLast(color, COLOR_CODES, text, s, codes);
    AttributeIsLast(background, BACKGROUND_CODES, back, s, codes);
  }

  // match[1].split(';').filter(Boolean).map(Number); `digits` is the field being read.
  function Codes(params: string, digits: string): seq<nat>
    requires forall k :: 0 <= k < |params| ==> IsParam(params[k])
    requires forall k :: 0 <= k < |digits| ==> Decimal.IsDigit(digits[k])
  {
    var field := if digits == "" then [] else [Decimal.Value(digits)];
    if params == "" then field
    else if params[0] == ';' then field + Codes(params[1..], "")
    else
      assert IsParam(params[0]);
      Codes(params[1..], digits + [params[0]])
  }

  // What the match at the start of the text does to the style; without codes it resets it.
  function Restyle(s: Style, text: string): Style {
    if MatchLength(text) == 0 then s else
    var codes := Codes(Params(text), "");
    if codes == [] then PLAIN else ApplyCodes(s, codes)
  }

  function Params(text: string): (params: string)
    requires MatchLength(text) > 0
    ensures forall k :: 0 <= k < |params| ==> IsParam(params[k])
  {
    var n := ParamSpan(text[2..]);
    assert forall k :: 0 <= k < n ==> text[2..][..n][k] == text[2..][k];
    text[2..][..n]
  }

  // ---- The pattern and the codes against their texts ----

  function Escape(params: string): string {
    [ESC, '['] + params + "m"
  }

  lemma {:induction false} SpanOfParams(params: string, rest: string)
    requires forall k :: 0 <= k < |params| ==> IsParam(params[k])
    requires rest != "" && !IsParam(rest[0])
    ensures ParamSpan(params + rest) == |params|
  {
    if params == "" {
      assert params + rest == rest;
    } else {
      assert (params + rest)[1..] == params[1..] + rest;
      SpanOfParams(params[1..], rest);
    }
  }

  // An escape sequence is matched as a whole, whatever follows it.
  lemma EscapeIsMatched(params: string, rest: string)
    requires forall k :: 0 <= k < |params| ==> IsParam(params[k])
    ensures MatchLength(Escape(params) + rest) == |Escape(params)|
    ensures Params(Escape(params) + rest) == params
  {
    var text := Escape(params) + rest;
    var tail := "m" + rest;
    assert text[2..] == params + tail;
    SpanOfParams(params, tail);
    assert text[2 + |params|] == 'm';
    assert (params + tail)[..|params|] == params;
  }

  // Only escape sequences are matched.
  lemma MatchIsEscape(text: string)
    requires MatchLength(text) > 0
    ensures text[..MatchLength(text)] == Escape(Params(text))
  {
    var n := ParamSpan(text[2..]);
    assert text[..n + 3] == text[..2] + text[2..n + 2] + [text[n + 2]];
    assert text[2..][..n] == text[2..n + 2];
    assert text[..2] == [ESC, '['];
  }

  function JoinCodes(codes: seq<nat>): string {
    if codes == [] then ""
    else if |codes| == 1 then Decimal.Render(codes[0])
    else Decimal.Render(codes[0]) + (";" + JoinCodes(codes[1..]))
  }

  lemma {:induction false} CodesReadDigits(ds: string, rest: string, digits: string)
    requires forall k :: 0 <= k < |ds| ==> Decimal.IsDigit(ds[k])
    requires forall k :: 0 <= k < |rest| ==> IsParam(rest[k])
    requires forall k :: 0 <= k < |digits| ==> Decimal.IsDigit(digits[k])
    ensures Codes(ds + rest, digits) == Codes(rest, digits + ds)
    decreases |ds|
  {
    if ds == "" {
      assert ds + rest == rest && digits + ds == digits;
    } else {
      assert (ds + rest)[1..] == ds[1..] + rest;
      CodesReadDigits(ds[1..], rest, digits + [ds[0]]);
      assert digits + [ds[0]] + ds[1..] == digits + ds;
    }
  }

  lemma CodesLast(n: nat)
    ensures forall k :: 0 <= k < |Decimal.Render(n)| ==> IsParam(Decimal.Render(n)[k])
    ensures Codes(Decimal.Render(n), "") == [n]
  {
    Decimal.RenderedValue(n);
    CodesReadDigits(Decimal.Render(n), "", "");
    assert Decimal.Render(n) + "" == Decimal.Render(n) && "" + Decimal.Render(n) == Decimal.Render(n);
  }

  lemma CodesSemicolon(later: string, digits: string)
    requires forall k :: 0 <= k < |later| ==> IsParam(later[k])
    requires digits != "" && forall k :: 0 <= k < |digits| ==> Decimal.IsDigit(digits[k])
    ensures Codes(";" + later, digits) == [Decimal.Value(digits)] + Codes(later, "")
  {
    assert (";" + later)[1..] == later;
  }

  lemma CodesFirst(n: nat, later: string)
    requires forall k :: 0 <= k < |later| ==> IsParam(later[k])
    ensures var text := Decimal.Render(n) + (";" + later);
            (forall k :: 0 <= k < |text| ==> IsParam(text[k])) && Codes(text, "") == [n] + Codes(later, "")
  {
    Decimal.RenderedValue(n);
    var ds := Decimal.Render(n);
    CodesSemicolon(later, ds);
    CodesReadDigits(ds, ";" + later, "");
    assert "" + ds == ds;
  }

  // Codes separated by semicolons are read back.
  lemma {:induction false} CodesOfJoined(codes: seq<nat>)
    ensures forall k :: 0 <= k < |JoinCodes(codes)| ==> IsParam(JoinCodes(codes)[k])
    ensures Codes(JoinCodes(codes), "") == codes
  {
    if codes != [] {
      JoinedCodes(codes[0], codes[1..]);
      assert codes == [codes[0]] + codes[1..];
    }
  }

  lemma {:induction false} JoinedCodes(first: nat, codes: seq<nat>)
    ensures var text := JoinCodes([first] + codes);
            (forall k :: 0 <= k < |text| ==> IsParam(text[k])) && Codes(text, "") == [first] + codes
    decreases |codes|
  {
    if codes == [] {
      CodesLast(first);
    } else {
      assert codes == [codes[0]] + codes[1..];
      JoinedCodes(codes[0], codes[1..]);
      assert ([first] + codes)[1..] == codes;
      OneMoreCode(first, JoinCodes(codes), codes, JoinCodes([first] + codes));
    }
  }

  lemma OneMoreCode(n: nat, later: string, codes: seq<nat>, text: string)
    requires forall k :: 0 <= k < |later| ==> IsParam(later[k])
    requires Codes(later, "") == codes && text == Decimal.Render(n) + (";" + later)
    ensures forall k :: 0 <= k < |text| ==> IsParam(text[k])
    ensures Codes(text, "") == [n] + codes
  {
    CodesFirst(n, later);
  }

  // ---- Scanning for a pattern ----

  // A pattern: the length of the match at the start of a text (0 for none), and its effect.
  datatype Pattern = Pattern(length: string -> nat, effect: (Style, string) -> Style)

  const ANSI: Pattern := Pattern(MatchLength, Restyle)

  function Hit(p: Pattern, text: string): (n: nat)
    ensures n <= |text|
  {
    if p.length(text) <= |text| then p.length(text) else 0
  }

  lemma AnsiHit(text: string)
    ensures Hit(ANSI, text) == MatchLength(text)
  {
  }

  // message.replace(regex, '')
  function Strip(p: Pattern, text: string): string {
    if text == "" then ""
    else if Hit(p, text) > 0 then Strip(p, text[Hit(p, text)..])
    else [text[0]] + Strip(p, text[1..])
  }

  // Reference: every visible character with the style made by all the matches before it.
  function Styled(p: Pattern, text: string, s: Style): seq<(char, Style)>
    decreases |text|
  {
    if text == "" then []
    else if Hit(p, text) > 0 then Styled(p, text[Hit(p, text)..], p.effect(s, text))
    else [(text[0], s)] + Styled(p, text[1..], s)
  }

  // ---- The segmenter ----

  datatype Segment = Segment(text: string, style: Style)

  function Paint(text: string, s: Style): seq<(char, Style)> {
    seq(|text|, k requires 0 <= k < |text| => (text[k], s))
  }

  function Flatten(segs: seq<Segment>): seq<(char, Style)> {
    if segs == [] then [] else Flatten(segs[..|segs| - 1]) + Paint(segs[|segs| - 1].text, segs[|segs| - 1].style)
  }

  function Texts(segs: seq<Segment>): string {
    if segs == [] then "" else Texts(segs[..|segs| - 1]) + segs[|segs| - 1].text
  }

  function Letters(cs: seq<(char, Style)>): string {
    seq(|cs|, k requires 0 <= k < |cs| => cs[k].0)
  }

  // regex.exec: where the next match starts, or the length of the text.
  function NextMatch(p: Pattern, text: string): (i: nat)
    ensures i <= |text|
    ensures i < |text| ==> Hit(p, text[i..]) > 0
  {
    if text == "" || Hit(p, text) > 0 then 0 else 1 + NextMatch(p, text[1..])
  }

  // Up to the next match the style does not change.
  lemma {:induction false} StyledUpToMatch(p: Pattern, text: string, s: Style)
    ensures var i := NextMatch(p, text); Styled(p, text, s) == Paint(text[..i], s) + Styled(p, text[i..], s)
  {
    var i := NextMatch(p, text);
    if i == 0 {
      assert text[0..] == text;
    } else {
      StyledUpToMatch(p, text[1..], s);
      assert text[1..][..i - 1] == text[1..i] && text[1..][i - 1..] == text[i..];
      PaintFirst(text[..i], s);
      Assoc([(text[0], s)], Paint(text[1..i], s), Styled(p, text[i..], s));
      assert text[..i][1..] == text[1..i];
    }
  }

  lemma PaintFirst(text: string, s: Style)
    requires text != ""
    ensures Paint(text, s) == [(text[0], s)] + Paint(text[1..], s)
  {
  }

  lemma StyledAtMatch(p: Pattern, text: string, s: Style)
    requires Hit(p, text) > 0
    ensures Styled(p, text, s) == Styled(p, text[Hit(p, text)..], p.effect(s, text))
  {
  }

  // A piece of text becomes a segment unless it is empty.
  lemma FlattenPush(segs: seq<Segment>, text: string, s: Style)
    ensures Flatten(segs + [Segment(text, s)]) == Flatten(segs) + Paint(text, s)
  {
    assert (segs + [Segment(text, s)])[..|segs|] == segs;
  }

  predicate NoneEmpty(segs: seq<Segment>) {
    forall k :: 0 <= k < |segs| ==> segs[k].text != ""
  }

  // The segments paint the text as the reference does, and none is empty.
  predicate Paints(p: Pattern, input: string, segs: seq<Segment>) {
    Flatten(segs) == Styled(p, input, PLAIN) && NoneEmpty(segs)
  }

  method PushText(segs: seq<Segment>, text: string, s: Style) returns (r: seq<Segment>)
    requires NoneEmpty(segs)
    ensures Flatten(r) == Flatten(segs) + Paint(text, s) && NoneEmpty(r)
  {
    r := segs;
    if text != "" {
      FlattenPush(segs, text, s);
      r := segs + [Segment(text, s)];
    } else {
      assert Paint(text, s) == [];
    }
  }

  // `rest` is the input from the last index of the regular expression on.
  method ParseSegments(p: Pattern, input: string) returns (segs: seq<Segment>)
    ensures Paints(p, input, segs)
  {
    segs := [];
    var rest, style := input, PLAIN;
    while true
      invariant Flatten(segs) + Styled(p, rest, style) == Styled(p, input, PLAIN)
      invariant NoneEmpty(segs)
      decreases |rest|
    {
      var i := NextMatch(p, rest);
      SegmentStep(p, rest, style);
      Assoc(Flatten(segs), Paint(rest[..i], style), Later(p, rest[i..], style));
      segs := PushText(segs, rest[..i], style);
      rest := rest[i..];
      if rest == "" {
        break;
      }
      style, rest := p.effect(style, rest), rest[Hit(p, rest)..];
    }
  }

  // What is left after a match; `text` starts with one or is empty.
  function Later(p: Pattern, text: string, s: Style): seq<(char, Style)> {
    if text == "" then [] else Styled(p, text[Hit(p, text)..], p.effect(s, text))
  }

  lemma {:induction false} SegmentStep(p: Pattern, rest: string, s: Style)
    ensures var i := NextMatch(p, rest); Styled(p, rest, s) == Paint(rest[..i], s) + Later(p, rest[i..], s)
  {
    var i := NextMatch(p, rest);
    StyledUpToMatch(p, rest, s);
    if i < |rest| {
      StyledAtMatch(p, rest[i..], s);
    }
  }

  // ---- Segments agree with stripping ----

  lemma {:induction false} StyledLetters(p: Pattern, text: string, s: Style)
    ensures Letters(Styled(p, text, s)) == Strip(p, text)
    decreases |text|
  {
    if text != "" {
      if Hit(p, text) > 0 {
        StyledLetters(p, text[Hit(p, text)..], p.effect(s, text));
      } else {
        StyledLetters(p, text[1..], s);
        LettersAppend([(text[0], s)], Styled(p, text[1..], s));
      }
    }
  }

  lemma LettersAppend(a: seq<(char, Style)>, b: seq<(char, Style)>)
    ensures Letters(a + b) == Letters(a) + Letters(b)
  {
  }

  lemma {:induction false} FlattenLetters(segs: seq<Segment>)
    ensures Letters(Flatten(segs)) == Texts(segs)
  {
    if segs != [] {
      var n := |segs| - 1;
      FlattenLetters(segs[..n]);
      LettersAppend(Flatten(segs[..n]), Paint(segs[n].text, segs[n].style));
      assert Letters(Paint(segs[n].text, segs[n].style)) == segs[n].text;
    }
  }

  // Main result: segments that paint the text as the reference does show exactly the stripped text.
  lemma SegmentsShowStrippedText(p: Pattern, input: string, segs: seq<Segment>)
    requires Flatten(segs) == Styled(p, input, PLAIN)
    ensures Texts(segs) == Strip(p, input)
  {
    StyledLetters(p, input, PLAIN);
    FlattenLetters(segs);
  }

  // The same for the pattern of the log view.
  method ParseAnsiSegments(input: string) returns (segs: seq<Segment>)
    ensures Paints(ANSI, input, segs) && Texts(segs) == Strip(ANSI, input)
  {
    segs := ParseSegments(ANSI, input);
    SegmentsShowStrippedText(ANSI, input, segs);
  }

  // A text without escape characters is shown as it is.
  lemma {:induction false} StripKeepsPlainText(text: string)
    requires ESC !in text
    ensures Strip(ANSI, text) == text
  {
    if text != "" {
      assert text[0] in text;
      AnsiHit(text);
      StripKeepsPlainText(text[1..]);
      assert text == [text[0]] + text[1..];
    }
  }

  // Main result about styles: text without escape characters is painted in the style before it, and an
  // escape sequence changes the style by its codes, or resets it if it has none.
  lemma {:induction false} StyledThroughEscape(plain: string, codes: seq<nat>, rest: string, s: Style)
    requires ESC !in plain
    ensures Styled(ANSI, plain + (Escape(JoinCodes(codes)) + rest), s) ==
              Paint(plain, s) + Styled(ANSI, rest, if codes == [] then PLAIN else ApplyCodes(s, codes))
    ensures Strip(ANSI, plain + (Escape(JoinCodes(codes)) + rest)) == plain + Strip(ANSI, rest)
    decreases |plain|
  {
    var tail := Escape(JoinCodes(codes)) + rest;
    var text := plain + tail;
    AnsiHit(text);
    if plain == "" {
      assert text == tail;
      EscapeChangesStyle(codes, rest, s);
    } else {
      assert plain[0] in plain && text[1..] == plain[1..] + tail && text[0] == plain[0];
      assert forall c :: c in plain[1..] ==> c in plain;
      StyledThroughEscape(plain[1..], codes, rest, s);
      PaintFirst(plain, s);
      var after := if codes == [] then PLAIN else ApplyCodes(s, codes);
      Assoc([(plain[0], s)], Paint(plain[1..], s), Styled(ANSI, rest, after));
      assert plain == [plain[0]] + plain[1..];
      Assoc([plain[0]], plain[1..], Strip(ANSI, rest));
    }
  }

  lemma EscapeChangesStyle(codes: seq<nat>, rest: string, s: Style)
    ensures var text := Escape(JoinCodes(codes)) + rest;
            && Styled(ANSI, text, s) == Styled(ANSI, rest, if codes == [] then PLAIN else ApplyCodes(s, codes))
            && Strip(ANSI, text) == Strip(ANSI, rest)
  {
    var text := Escape(JoinCodes(codes)) + rest;
    CodesOfJoined(codes);
    EscapeIsMatched(JoinCodes(codes), rest);
    AnsiHit(text);
    StyledAtMatch(ANSI, text, s);
    assert text[|Escape(JoinCodes(codes))|..] == rest;
  }

  // ---- Highlighting ----

  // `hit` says whether the query occurs at the start of a text, `n` is the query's length.
  function NextOccurrence(hit: string -> bool, n: nat, text: string): (i: nat)
    requires n > 0
    ensures i <= |text| && (i < |text| ==> i + n <= |text| && hit(text[i..]))
    ensures forall j :: 0 <= j < i && j + n <= |text| ==> !hit(text[j..])
  {
    if text == "" then 0
    else if n <= |text| && hit(text) then assert text[0..] == text; 0
    else
      var i := NextOccurrence(hit, n, text[1..]);
      assert forall j :: 1 <= j <= |text| ==> text[j..] == text[1..][j - 1..];
      assert text[0..] == text;
      1 + i
  }

  // text.match(regex), with no match as the empty list
  function Matches(hit: string -> bool, n: nat, text: string): seq<string>
    requires n > 0
  {
    var i := NextOccurrence(hit, n, text);
    if i == |text| then [] else [text[i..i + n]] + Matches(hit, n, text[i + n..])
  }

  // text.split(regex)
  function Parts(hit: string -> bool, n: nat, text: string): seq<string>
    requires n > 0
  {
    var i := NextOccurrence(hit, n, text);
    if i == |text| then [text] else [text[..i]] + Parts(hit, n, text[i + n..])
  }

  // parts and matches in turn; the marked pieces are the matches.
  function Interleave(parts: seq<string>, matches: seq<string>): string {
    if parts == [] then ""
    else parts[0] + (if matches == [] then Interleave(parts[1..], [])
                     else matches[0] + Interleave(parts[1..], matches[1..]))
  }

  lemma {:induction false} InterleaveIsText(hit: string -> bool, n: nat, text: string)
    requires n > 0
    ensures |Parts(hit, n, text)| == |Matches(hit, n, text)| + 1
    ensures Interleave(Parts(hit, n, text), Matches(hit, n, text)) == text
    decreases |text|
  {
    var i := NextOccurrence(hit, n, text);
    if i == |text| {
      assert Parts(hit, n, text) == [text] && Matches(hit, n, text) == [];
      InterleaveOne(text);
    } else {
      var rest := text[i + n..];
      InterleaveIsText(hit, n, rest);
      PiecesUnfold(hit, n, text);
      InterleaveGrows(text, i, i + n, Parts(hit, n, rest), Matches(hit, n, rest));
    }
  }

  lemma InterleaveOne(text: string)
    ensures Interleave([text], []) == text
  {
    assert [text][1..] == [];
    assert Interleave([], []) == "";
  }

  lemma PiecesUnfold(hit: string -> bool, n: nat, text: string)
    requires n > 0 && NextOccurrence(hit, n, text) < |text|
    ensures var i := NextOccurrence(hit, n, text); var rest := text[i + n..];
            && Parts(hit, n, text) == [text[..i]] + Parts(hit, n, rest)
            && Matches(hit, n, text) == [text[i..i + n]] + Matches(hit, n, rest)
  {
  }

  lemma InterleaveGrows(text: string, a: nat, b: nat, ps: seq<string>, ms: seq<string>)
    requires a <= b <= |text| && Interleave(ps, ms) == text[b..]
    ensures Interleave([text[..a]] + ps, [text[a..b]] + ms) == text
  {
    InterleaveStep(text[..a], text[a..b], ps, ms);
    CutTwice(text, a, b);
  }

  lemma CutTwice(text: string, a: nat, b: nat)
    requires a <= b <= |text|
    ensures text == text[..a] + (text[a..b] + text[b..])
  {
  }

  lemma InterleaveStep(part: string, hit: string, ps: seq<string>, ms: seq<string>)
    ensures Interleave([part] + ps, [hit] + ms) == part + (hit + Interleave(ps, ms))
  {
    assert ([part] + ps)[1..] == ps && ([hit] + ms)[1..] == ms;
  }

  // `same` is the comparison of characters without regard to case.
  function OccursAtStart(same: (char, char) -> bool, query: string): string -> bool {
    text => |query| <= |text| && forall k :: 0 <= k < |query| ==> same(query[k], text[k])
  }

  // The query occurs in the text from `j` on.
  predicate OccursAt(same: (char, char) -> bool, query: string, text: string, j: nat) {
    j + |query| <= |text| && forall k :: 0 <= k < |query| ==> same(query[k], text[j + k])
  }

  ghost predicate AllOccur(same: (char, char) -> bool, query: string, matches: seq<string>) {
    forall k :: 0 <= k < |matches| ==> |matches[k]| == |query| && OccursAt(same, query, matches[k], 0)
  }

  ghost predicate Free(same: (char, char) -> bool, query: string, text: string) {
    forall j: nat :: !OccursAt(same, query, text, j)
  }

  ghost predicate AllFree(same: (char, char) -> bool, query: string, parts: seq<string>) {
    forall k :: 0 <= k < |parts| ==> Free(same, query, parts[k])
  }

  // What holds of the first part and match of every text holds of all parts and matches.
  lemma {:induction false} PiecesShare(hit: string -> bool, n: nat, text: string,
                                       part: string -> bool, match': string -> bool)
    requires n > 0 && FirstPieces(hit, n, part, match')
    ensures forall k :: 0 <= k < |Parts(hit, n, text)| ==> part(Parts(hit, n, text)[k])
    ensures forall k :: 0 <= k < |Matches(hit, n, text)| ==> match'(Matches(hit, n, text)[k])
    decreases |text|
  {
    var i := NextOccurrence(hit, n, text);
    assert FirstPiecesOf(hit, n, text, part, match');
    if i < |text| {
      PiecesShare(hit, n, text[i + n..], part, match');
      PiecesUnfold(hit, n, text);
    } else {
      assert text[..i] == text;
    }
  }

  ghost predicate FirstPieces(hit: string -> bool, n: nat, part: string -> bool, match': string -> bool)
    requires n > 0
  {
    forall text :: FirstPiecesOf(hit, n, text, part, match')
  }

  ghost predicate FirstPiecesOf(hit: string -> bool, n: nat, text: string, part: string -> bool, match': string -> bool)
    requires n > 0
  {
    var i := NextOccurrence(hit, n, text);
    part(text[..i]) && (i < |text| ==> match'(text[i..i + n]))
  }

  lemma FirstPiecesAreRight(same: (char, char) -> bool, query: string, part: string -> bool, match': string -> bool)
    requires query != "" && forall t :: Free(same, query, t) ==> part(t)
    requires forall t :: |t| == |query| && OccursAt(same, query, t, 0) ==> match'(t)
    ensures FirstPieces(OccursAtStart(same, query), |query|, part, match')
  {
    var hit := OccursAtStart(same, query);
    forall t ensures FirstPiecesOf(hit, |query|, t, part, match') {
      FirstPieceOfText(same, query, hit, t);
    }
  }

  lemma FirstPieceOfText(same: (char, char) -> bool, query: string, hit: string -> bool, t: string)
    requires query != "" && hit == OccursAtStart(same, query)
    ensures var i := NextOccurrence(hit, |query|, t);
            Free(same, query, t[..i])
            && (i < |t| ==> |t[i..i + |query|]| == |query| && OccursAt(same, query, t[i..i + |query|], 0))
  {
    var i := NextOccurrence(hit, |query|, t);
    FirstPartHasNone(same, query, t, i);
    if i < |t| {
      MatchOccurs(same, query, t, i);
    }
  }

  // The matches are occurrences of the query, and the parts between them contain none.
  lemma MatchesAreOccurrences(same: (char, char) -> bool, query: string, text: string)
    requires query != ""
    ensures AllOccur(same, query, Matches(OccursAtStart(same, query), |query|, text))
    ensures AllFree(same, query, Parts(OccursAtStart(same, query), |query|, text))
  {
    ghost var part := (t: string) => Free(same, query, t);
    var match' := (t: string) => |t| == |query| && OccursAt(same, query, t, 0);
    FirstPiecesAreRight(same, query, part, match');
    PiecesShare(OccursAtStart(same, query), |query|, text, part, match');
    AllByPredicates(same, query, Parts(OccursAtStart(same, query), |query|, text),
                    Matches(OccursAtStart(same, query), |query|, text), part, match');
  }

  lemma AllByPredicates(same: (char, char) -> bool, query: string, parts: seq<string>, matches: seq<string>,
                        part: string -> bool, match': string -> bool)
    requires forall k :: 0 <= k < |parts| ==> part(parts[k])
    requires forall k :: 0 <= k < |matches| ==> match'(matches[k])
    requires forall t :: part(t) ==> Free(same, query, t)
    requires forall t :: match'(t) ==> |t| == |query| && OccursAt(same, query, t, 0)
    ensures AllFree(same, query, parts) && AllOccur(same, query, matches)
  {
  }

  lemma MatchOccurs(same: (char, char) -> bool, query: string, text: string, i: nat)
    requires i + |query| <= |text| && OccursAtStart(same, query)(text[i..])
    ensures OccursAt(same, query, text[i..i + |query|], 0)
  {
    forall k | 0 <= k < |query| ensures same(query[k], text[i..i + |query|][0 + k]) {
      assert text[i..][k] == text[i..i + |query|][k];
    }
  }

  lemma FirstPartHasNone(same: (char, char) -> bool, query: string, text: string, i: nat)
    requires query != "" && i == NextOccurrence(OccursAtStart(same, query), |query|, text)
    ensures Free(same, query, text[..i])
  {
    forall j: nat ensures !OccursAt(same, query, text[..i], j) {
      if j + |query| <= i {
        assert !OccursAtStart(same, query)(text[j..]);
        var k :| 0 <= k < |query| && !same(query[k], text[j..][k]);
        assert text[..i][j + k] == text[j..][k];
      }
    }
  }

  // ---- What is rendered ----

  datatype Node = Piece(text: string) | Marked(text: string)

  datatype Span = Span(style: Style, nodes: seq<Node>)

  function TextOf(nodes: seq<Node>): string {
    if nodes == [] then "" else TextOf(nodes[..|nodes| - 1]) + nodes[|nodes| - 1].text
  }

  function MarksOf(nodes: seq<Node>): seq<string> {
    if nodes == [] then []
    else MarksOf(nodes[..|nodes| - 1]) + if nodes[|nodes| - 1].Marked? then [nodes[|nodes| - 1].text] else []
  }

  lemma NodesSnoc(nodes: seq<Node>, node: Node)
    ensures TextOf(nodes + [node]) == TextOf(nodes) + node.text
    ensures MarksOf(nodes + [node]) == MarksOf(nodes) + if node.Marked? then [node.text] else []
  {
    assert (nodes + [node])[..|nodes|] == nodes;
  }

  // The occurrences that are marked; an empty query marks nothing.
  function Occurrences(same: (char, char) -> bool, query: string, text: string): seq<string> {
    if query == "" then [] else Matches(OccursAtStart(same, query), |query|, text)
  }

  // One rendered segment shows its text and marks the occurrences of the query.
  method RenderSegment(same: (char, char) -> bool, query: string, text: string) returns (nodes: seq<Node>)
    ensures TextOf(nodes) == text && MarksOf(nodes) == Occurrences(same, query, text)
  {
    nodes := [Piece(text)];
    NodesSnoc([], Piece(text));
    assert [] + [Piece(text)] == nodes;
    if query != "" {
      var matches := Matches(OccursAtStart(same, query), |query|, text);
      if matches != [] {
        var parts := Parts(OccursAtStart(same, query), |query|, text);
        InterleaveIsText(OccursAtStart(same, query), |query|, text);
        nodes := Alternate(parts, matches);
      }
    }
  }

  method Alternate(parts: seq<string>, matches: seq<string>) returns (nodes: seq<Node>)
    requires |matches| < |parts|
    ensures TextOf(nodes) == Interleave(parts, matches) && MarksOf(nodes) == matches
  {
    nodes := [];
    var ps, ms := parts, matches;
    while ps != []
      invariant TextOf(nodes) + Interleave(ps, ms) == Interleave(parts, matches)
      invariant MarksOf(nodes) + ms == matches && |ms| <= |ps| && (ps != [] ==> |ms| < |ps|)
      decreases |ps|
    {
      ghost var before := TextOf(nodes);
      NodesSnoc(nodes, Piece(ps[0]));
      nodes := nodes + [Piece(ps[0])];
      if ms != [] {
        NodesSnoc(nodes, Marked(ms[0]));
        nodes := nodes + [Marked(ms[0])];
        Assoc(before + ps[0], ms[0], Interleave(ps[1..], ms[1..]));
        Assoc(before, ps[0], ms[0] + Interleave(ps[1..], ms[1..]));
        assert ms == [ms[0]] + ms[1..];
        ps, ms := ps[1..], ms[1..];
      } else {
        Assoc(before, ps[0], Interleave(ps[1..], []));
        ps := ps[1..];
      }
    }
  }

  function PaintSpans(spans: seq<Span>): seq<(char, Style)> {
    if spans == [] then []
    else PaintSpans(spans[..|spans| - 1]) + Paint(TextOf(spans[|spans| - 1].nodes), spans[|spans| - 1].style)
  }

  // Main result: whatever the query, the rendered line shows the stripped text, every character in its
  // style, and marks the occurrences of the query in each span.
  method RenderAnsiWithHighlight(same: (char, char) -> bool, text: string, query: string) returns (spans: seq<Span>)
    ensures PaintSpans(spans) == Styled(ANSI, text, PLAIN) && Letters(PaintSpans(spans)) == Strip(ANSI, text)
    ensures MarksOccurrences(same, query, spans)
  {
    var segs := ParseAnsiSegments(text);
    StyledLetters(ANSI, text, PLAIN);
    spans := RenderSegments(same, segs, query);
  }

  ghost predicate MarksOccurrences(same: (char, char) -> bool, query: string, spans: seq<Span>) {
    forall k :: 0 <= k < |spans| ==> MarksOf(spans[k].nodes) == Occurrences(same, query, TextOf(spans[k].nodes))
  }

  method RenderSegments(same: (char, char) -> bool, segs: seq<Segment>, query: string) returns (spans: seq<Span>)
    ensures PaintSpans(spans) == Flatten(segs) && MarksOccurrences(same, query, spans)
  {
    spans := [];
    for k := 0 to |segs|
      invariant PaintSpans(spans) == Flatten(segs[..k]) && MarksOccurrences(same, query, spans)
    {
      var nodes := RenderSegment(same, query, segs[k].text);
      SpansSnoc(same, query, spans, Span(segs[k].style, nodes));
      assert segs[..k + 1][..k] == segs[..k];
      spans := spans + [Span(segs[k].style, nodes)];
    }
    assert segs[..|segs|] == segs;
  }

  lemma SpansSnoc(same: (char, char) -> bool, query: string, spans: seq<Span>, span: Span)
    requires MarksOccurrences(same, query, spans)
    requires MarksOf(span.nodes) == Occurrences(same, query, TextOf(span.nodes))
    ensures PaintSpans(spans + [span]) == PaintSpans(spans) + Paint(TextOf(span.nodes), span.style)
    ensures MarksOccurrences(same, query, spans + [span])
  {
    assert (spans + [span])[..|spans|] == spans;
  }
}
