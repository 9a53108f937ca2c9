/** The relative-duration parser (crates/tinyagents-harness-tools/src/time_parse.rs). */
module DurationParse {
  import opened Text
  import opened Decimal

  const I64_MAX: nat := 0x7FFF_FFFF_FFFF_FFFF
  /** Largest whole number of seconds the duration type can hold. */
  const MAX_SECONDS: nat := I64_MAX / 1000

  // ----------------------------------------------------------------- tokens

  predicate IsWordChar(c: char) {
    IsDigit(c) || IsAlpha(c)
  }

  predicate IsGapChar(c: char) {
    IsWhitespace(c) || c == ','
  }

  /** A run: characters of a word, all digits or all letters. */
  predicate IsRun(run: string) {
    run != [] && forall i :: 0 <= i < |run| ==> IsWordChar(run[i]) && IsDigit(run[i]) == IsDigit(run[0])
  }

  /** Length of the maximal run that starts `s`. */
  function RunLength(s: string): (n: nat)
    requires s != [] && IsWordChar(s[0])
    ensures 0 < n <= |s| && IsRun(s[..n])
    ensures n < |s| ==> !(IsWordChar(s[n]) && IsDigit(s[n]) == IsDigit(s[0]))
  {
    if |s| > 1 && IsWordChar(s[1]) && IsDigit(s[1]) == IsDigit(s[0]) then
      assert s[..1 + RunLength(s[1..])] == [s[0]] + s[1..][..RunLength(s[1..])];
      1 + RunLength(s[1..])
    else 1
  }

  function Prepend(tokens: seq<string>, rest: Option<seq<string>>): Option<seq<string>> {
    if rest.None? then None else Some(tokens + rest.value)
  }

  /** The maximal runs of a text of words and gaps; `None` if it holds anything else. */
  function Tokens(s: string): Option<seq<string>>
    decreases |s|
  {
    if s == [] then Some([])
    else if IsGapChar(s[0]) then Tokens(s[1..])
    else if IsWordChar(s[0]) then var n := RunLength(s); Prepend([s[..n]], Tokens(s[n..]))
    else None
  }

  predicate Extends(run: string, rest: string)
    requires run != []
  {
    rest != [] && IsWordChar(rest[0]) && IsDigit(rest[0]) == IsDigit(run[0])
  }

  lemma RunThen(run: string, rest: string)
    requires IsRun(run) && !Extends(run, rest)
    ensures Tokens(run + rest) == Prepend([run], Tokens(rest))
  {
    var s := run + rest;
    var n := RunLength(s);
    assert forall i :: 0 <= i < |run| ==> s[i] == run[i];
    assert rest != [] ==> s[|run|] == rest[0];
    assert forall i :: 0 <= i < n ==> s[..n][i] == s[i];
    assert n == |run|;
    assert s[..n] == run && s[n..] == rest;
  }

  lemma PrependTwice(a: seq<string>, b: seq<string>, rest: Option<seq<string>>)
    ensures Prepend(a, Prepend(b, rest)) == Prepend(a + b, rest)
  {
    if rest.Some? {
      assert a + (b + rest.value) == (a + b) + rest.value;
    }
  }

  /** A finished run can be set aside before the rest is read. */
  lemma Flush(tokens: seq<string>, current: string, rest: string)
    requires IsRun(current) && !Extends(current, rest)
    ensures Prepend(tokens, Tokens(current + rest)) == Prepend(tokens + [current], Tokens("" + rest))
  {
    RunThen(current, rest);
    PrependTwice(tokens, [current], Tokens(rest));
    assert "" + rest == rest;
  }

  lemma SkipGap(rest: string)
    requires rest != [] && IsGapChar(rest[0])
    ensures Tokens("" + rest) == Tokens("" + rest[1..])
  {
    assert "" + rest == rest && "" + rest[1..] == rest[1..];
  }

  lemma NoTokens(current: string, rest: string)
    requires current == [] || IsRun(current)
    requires rest != [] && !IsGapChar(rest[0]) && !IsWordChar(rest[0])
    ensures Tokens(current + rest) == None
  {
    if current == [] {
      assert current + rest == rest;
    } else {
      RunThen(current, rest);
    }
  }

  lemma Shift(current: string, s: string, i: nat)
    requires i < |s|
    ensures current + s[i..] == (current + [s[i]]) + s[i + 1..]
    ensures s[i..] != [] && s[i..][0] == s[i] && s[i..][1..] == s[i + 1..]
  {
  }

  lemma PrependNothing(s: string)
    ensures Prepend([], Tokens("" + s[0..])) == Tokens(s)
  {
    assert "" + s[0..] == s;
    if Tokens(s).Some? {
      assert [] + Tokens(s).value == Tokens(s).value;
    }
  }

  /** The character loop of the tokeniser. */
  method Tokenize(s: string) returns (result: Option<seq<string>>)
    ensures result == Tokens(s)
  {
    var tokens: seq<string> := [];
    var current := "";
    var wasDigit: Option<bool> := None;
    PrependNothing(s);
    for i := 0 to |s|
      invariant current != [] ==> IsRun(current) && wasDigit == Some(IsDigit(current[0]))
      invariant Prepend(tokens, Tokens(current + s[i..])) == Tokens(s)
    {
      var c := s[i];
      Shift(current, s, i);
      if IsDigit(c) || IsAlpha(c) {
        var isDigit := IsDigit(c);
        if wasDigit.Some? && wasDigit.value != isDigit && current != [] {
          Flush(tokens, current, s[i..]);
          tokens, current := tokens + [current], "";
          Shift(current, s, i);
        }
        current := current + [c];
        wasDigit := Some(isDigit);
      } else if IsWhitespace(c) || c == ',' {
        if current != [] {
          Flush(tokens, current, s[i..]);
          tokens, current := tokens + [current], "";
        }
        SkipGap(s[i..]);
        wasDigit := None;
      } else {
        NoTokens(current, s[i..]);
        return None;
      }
    }
    result := Finish(tokens, current, s[|s|..]);
  }

  /** The last token, if one is still open at the end. */
  method Finish(tokens: seq<string>, current: string, ghost rest: string) returns (result: Option<seq<string>>)
    requires rest == [] && (current == [] || IsRun(current))
    ensures result == Prepend(tokens, Tokens(current + rest))
  {
    if current != [] {
      Flush(tokens, current, rest);
      assert tokens + [current] + [] == tokens + [current];
      result := Some(tokens + [current]);
    } else {
      assert current + rest == [] && tokens + [] == tokens;
      result := Some(tokens);
    }
  }

  // ------------------------------------------------------------------ units

  function UnitSeconds(unit: string): Option<nat> {
    if unit in {"s", "sec", "secs", "second", "seconds"} then Some(1)
    else if unit in {"m", "min", "mins", "minute", "minutes"} then Some(60)
    else if unit in {"h", "hr", "hrs", "hour", "hours"} then Some(3_600)
    else if unit in {"d", "day", "days"} then Some(86_400)
    else if unit in {"w", "wk", "wks", "week", "weeks"} then Some(604_800)
    else None
  }

  function WithoutAnd(tokens: seq<string>): seq<string> {
    if tokens == [] then []
    else (if tokens[0] == "and" then [] else [tokens[0]]) + WithoutAnd(tokens[1..])
  }

  /** What a list of number and unit tokens amounts to, in unbounded arithmetic. */
  function Total(parts: seq<string>): Option<nat> {
    if parts == [] then Some(0)
    else if |parts| == 1 || parts[0] == [] || !AllDigits(parts[0]) || UnitSeconds(parts[1]).None? then None
    else match Total(parts[2..])
      case None => None
      case Some(rest) => Some(DigitsValue(parts[0]) * UnitSeconds(parts[1]).value + rest)
  }

  function Checked(n: nat): Option<nat> {
    if n <= I64_MAX then Some(n) else None
  }

  /** The summing loop, with the source's checked 64-bit arithmetic and range limit. */
  method SumPairs(parts: seq<string>) returns (seconds: Option<nat>)
    ensures seconds ==
      if parts != [] && Total(parts).Some? && Total(parts).value <= MAX_SECONDS then Total(parts) else None
  {
    var sum: nat := 0;
    var any := false;
    var i := 0;
    while i < |parts|
      invariant 0 <= i <= |parts| && any == (i > 0) && sum <= I64_MAX
      invariant Total(parts).Some? <==> Total(parts[i..]).Some?
      invariant Total(parts).Some? ==> Total(parts).value == sum + Total(parts[i..]).value
    {
      ghost var rest := parts[i..];
      var n := ParseDigits(parts[i], I64_MAX);
      if n.None? {
        TotalOfBigNumber(rest);
        return None;
      }
      if i + 1 == |parts| {
        assert |rest| == 1;
        return None;
      }
      var unit := UnitSeconds(parts[i + 1]);
      if unit.None? {
        return None;
      }
      assert rest[2..] == parts[i + 2..];
      var product := Checked(n.value * unit.value);
      if product.None? {
        return None;
      }
      var next := Checked(sum + product.value);
      if next.None? {
        return None;
      }
      sum, any, i := next.value, true, i + 2;
    }
    assert parts[i..] == [];
    if !any || sum > MAX_SECONDS {
      return None;
    }
    seconds := Some(sum);
  }

  lemma TotalOfBigNumber(rest: seq<string>)
    requires rest != [] && ParseDigits(rest[0], I64_MAX).None?
    ensures Total(rest).Some? ==> Total(rest).value > I64_MAX
  {
    if Total(rest).Some? {
      var n, unit := DigitsValue(rest[0]), UnitSeconds(rest[1]).value;
      assert n * unit >= n;
    }
  }

  // -------------------------------------------------------------- direction

  function StripTail(s: string): (string, bool) {
    if EndsWith(s, " ago") then (Trim(s[..|s| - 4]), false)
    else if EndsWith(s, " from now") then (Trim(s[..|s| - 9]), true)
    else (s, false)
  }

  function StripLead(s: string, future: bool): (string, bool) {
    if StartsWith(s, "in ") then (Trim(s[3..]), true)
    else if StartsWith(s, "next ") then (Trim(s[5..]), true)
    else if StartsWith(s, "last ") then (Trim(s[5..]), false)
    else if StartsWith(s, "past ") then (Trim(s[5..]), false)
    else (s, future)
  }

  function StripSign(s: string, future: bool): (string, bool) {
    if StartsWith(s, "+") then (Trim(s[1..]), true)
    else if StartsWith(s, "-") then (Trim(s[1..]), future)
    else (s, future)
  }

  function StripMarkers(s: string): (string, bool) {
    var (a, f) := StripTail(s);
    var (b, g) := StripLead(a, f);
    StripSign(b, g)
  }

  function Signed(total: nat, future: bool): int {
    if future then total as int else -(total as int)
  }

  /** The signed number of seconds an expression denotes. */
  function Meaning(raw: string): Option<int> {
    var (body, future) := StripMarkers(Lower(Trim(raw)));
    match Tokens(body)
    case None => None
    case Some(tokens) =>
      var parts := WithoutAnd(tokens);
      match Total(parts)
      case None => None
      case Some(total) =>
        if parts == [] || total > MAX_SECONDS then None
        else Some(Signed(total, future))
  }

  method ParseRelativeDuration(raw: string) returns (offset: Option<int>)
    ensures offset == Meaning(raw)
  {
    var s := Lower(Trim(raw));
    var future: bool;
    var stripped := StripMarkers(s);
    s, future := stripped.0, stripped.1;
    var tokens := Tokenize(s);
    if tokens.None? {
      return None;
    }
    var seconds := SumPairs(WithoutAnd(tokens.value));
    if seconds.None? {
      return None;
    }
    offset := Some(Signed(seconds.value, future));
  }
}
