/** Decimal rendering of natural numbers (strconv.FormatUint and strconv.ParseUint, base 10). */
module Decimal {
  import opened Wrappers

  function Digit(d: nat): (c: char)
    requires d < 10
    ensures '0' <= c <= '9' && c as int - '0' as int == d
  {
    '0' + d as char
  }

  predicate IsDigit(c: char) {
    '0' <= c <= '9'
  }

  function Render(n: nat): string {
    if n < 10 then [Digit(n)] else Render(n / 10) + [Digit(n % 10)]
  }

  function DigitValue(c: char): nat
    requires IsDigit(c)
  {
    c as int - '0' as int
  }

  function Value(s: string): nat
    requires forall k :: 0 <= k < |s| ==> IsDigit(s[k])
  {
    if s == [] then 0 else 10 * Value(s[..|s| - 1]) + DigitValue(s[|s| - 1])
  }

  // `limit` is the first value that is out of range.
  function Parse(s: string, limit: nat): Option<nat> {
    if s == [] || exists k :: 0 <= k < |s| && !IsDigit(s[k]) then None
    else if Value(s) < limit then Some(Value(s))
    else None
  }

  lemma {:induction false} RenderedValue(n: nat)
    ensures Render(n) != []
    ensures forall k :: 0 <= k < |Render(n)| ==> IsDigit(Render(n)[k])
    ensures Value(Render(n)) == n
  {
    var s := Render(n);
    if n < 10 {
      assert s[..|s| - 1] == [];
    } else {
      RenderedValue(n / 10);
      assert s[..|s| - 1] == Render(n / 10);
    }
  }

  lemma RenderIsInjective(m: nat, n: nat)
    requires Render(m) == Render(n)
    ensures m == n
  {
    RenderedValue(m);
    RenderedValue(n);
  }

  lemma ParseRendered(n: nat, limit: nat)
    ensures Parse(Render(n), limit) == if n < limit then Some(n) else None
  {
    RenderedValue(n);
  }
}
