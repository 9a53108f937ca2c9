/** Exactly which texts the relative-duration parser accepts. */
module DurationLanguage {
  import opened Text
  import opened Decimal
  import opened DurationParse
  import opened DurationRoundTrip

  // ------------------------------------------------------------- spelled tokens

  /** Tokens written one after the other with a gap, possibly empty, around each. */
  function Spell(tokens: seq<string>, gaps: seq<string>): string
    requires |gaps| == |tokens| + 1
  {
    if tokens == [] then gaps[0] else gaps[0] + (tokens[0] + Spell(tokens[1..], gaps[1..]))
  }

  /** Gaps hold blanks and commas, tokens are runs of digits or letters, and none runs on into what
      is written behind it. */
  predicate ValidSpelling(tokens: seq<string>, gaps: seq<string>) {
    && |gaps| == |tokens| + 1 && IsGap(gaps[0])
    && (tokens != [] ==>
          && IsRun(tokens[0]) && !Extends(tokens[0], Spell(tokens[1..], gaps[1..]))
          && ValidSpelling(tokens[1..], gaps[1..]))
  }

  lemma {:induction false} TokensOfSpelling(tokens: seq<string>, gaps: seq<string>)
    requires ValidSpelling(tokens, gaps)
    ensures Tokens(Spell(tokens, gaps)) == Some(tokens)
  {
    if tokens == [] {
      GapThen(gaps[0], "");
      assert gaps[0] + "" == gaps[0];
    } else {
      var rest := Spell(tokens[1..], gaps[1..]);
      TokensOfSpelling(tokens[1..], gaps[1..]);
      RunThen(tokens[0], rest);
      GapThen(gaps[0], tokens[0] + rest);
      assert [tokens[0]] + tokens[1..] == tokens;
    }
  }

  lemma WidenGap(c: char, tokens: seq<string>, gaps: seq<string>)
    requires ValidSpelling(tokens, gaps) && IsGapChar(c)
    ensures var wider := [[c] + gaps[0]] + gaps[1..];
      ValidSpelling(tokens, wider) && Spell(tokens, wider) == [c] + Spell(tokens, gaps)
  {
    var wider := [[c] + gaps[0]] + gaps[1..];
    assert wider[1..] == gaps[1..];
    if tokens == [] {
    } else {
      PushInFront(c, gaps[0], tokens[0] + Spell(tokens[1..], gaps[1..]));
    }
  }

  lemma PushInFront(c: char, gap: string, rest: string)
    ensures ([c] + gap) + rest == [c] + (gap + rest)
  {
  }

  lemma AddToken(token: string, tokens: seq<string>, gaps: seq<string>)
    requires ValidSpelling(tokens, gaps) && IsRun(token) && !Extends(token, Spell(tokens, gaps))
    ensures ValidSpelling([token] + tokens, [""] + gaps)
    ensures Spell([token] + tokens, [""] + gaps) == token + Spell(tokens, gaps)
  {
    assert ([token] + tokens)[1..] == tokens && ([""] + gaps)[1..] == gaps;
    assert "" + (token + Spell(tokens, gaps)) == token + Spell(tokens, gaps);
  }

  /** Whatever the tokeniser reads was spelled from the tokens it returns. */
  lemma {:induction false} SpellingOfTokens(s: string) returns (gaps: seq<string>)
    requires Tokens(s).Some?
    ensures ValidSpelling(Tokens(s).value, gaps) && Spell(Tokens(s).value, gaps) == s
    decreases |s|
  {
    if s == [] {
      gaps := [""];
    } else if IsGapChar(s[0]) {
      var narrow := SpellingOfTokens(s[1..]);
      WidenGap(s[0], Tokens(s).value, narrow);
      gaps := [[s[0]] + narrow[0]] + narrow[1..];
      assert s == [s[0]] + s[1..];
    } else {
      var n := RunLength(s);
      var more := SpellingOfTokens(s[n..]);
      AddToken(s[..n], Tokens(s[n..]).value, more);
      gaps := [""] + more;
      assert s == s[..n] + s[n..];
    }
  }

  // ------------------------------------------------------ both ends of a body

  lemma {:induction false} SpellingLength(tokens: seq<string>, gaps: seq<string>)
    requires ValidSpelling(tokens, gaps)
    ensures |Spell(tokens, gaps)| >= |tokens|
  {
    if tokens == [] {
    } else {
      SpellingLength(tokens[1..], gaps[1..]);
    }
  }

  lemma FirstOfSpelling(tokens: seq<string>, gaps: seq<string>)
    requires ValidSpelling(tokens, gaps) && tokens != []
    ensures Spell(tokens, gaps) != []
    ensures IsGapChar(Spell(tokens, gaps)[0]) || Spell(tokens, gaps)[0] == tokens[0][0]
  {
  }

  /** The text ends in a gap, or in its last token, which nothing of its kind precedes. */
  predicate EndsInToken(s: string, token: string) {
    && IsRun(token) && EndsWith(s, token)
    && (|s| > |token| ==> !(IsWordChar(s[|s| - |token| - 1]) && IsDigit(s[|s| - |token| - 1]) == IsDigit(token[0])))
  }

  lemma EndsBehind(front: string, s: string, token: string)
    requires EndsInToken(s, token)
    requires |s| == |token| && front != [] ==>
      !(IsWordChar(front[|front| - 1]) && IsDigit(front[|front| - 1]) == IsDigit(token[0]))
    ensures EndsInToken(front + s, token)
  {
    var t := front + s;
    assert t[|t| - |token|..] == s[|s| - |token|..];
  }

  lemma {:induction false} LastOfSpelling(tokens: seq<string>, gaps: seq<string>)
    requires ValidSpelling(tokens, gaps) && tokens != []
    ensures var s := Spell(tokens, gaps);
      s != [] && (IsGapChar(s[|s| - 1]) || EndsInToken(s, tokens[|tokens| - 1]))
  {
    var rest := Spell(tokens[1..], gaps[1..]);
    var s, last := Spell(tokens, gaps), tokens[|tokens| - 1];
    if |tokens| == 1 {
      if rest == [] {
        assert EndsInToken(tokens[0], tokens[0]);
        EndsBehind(gaps[0], tokens[0], tokens[0]);
        assert s == gaps[0] + tokens[0];
      } else {
        assert s[|s| - 1] == rest[|rest| - 1];
      }
    } else {
      LastOfSpelling(tokens[1..], gaps[1..]);
      if IsGapChar(rest[|rest| - 1]) {
        assert s[|s| - 1] == rest[|rest| - 1];
      } else {
        LastBehindToken(tokens[0], rest, last);
        EndsBehind(gaps[0], tokens[0] + rest, last);
      }
    }
  }

  lemma LastBehindToken(token: string, rest: string, last: string)
    requires IsRun(token) && !Extends(token, rest) && EndsInToken(rest, last)
    ensures EndsInToken(token + rest, last) && |token + rest| > |last|
  {
    if |rest| == |last| {
      assert rest == last;
    }
    EndsBehind(token, rest, last);
  }

  // ----------------------------------------------------------- the expressions

  /** Numbers and units, alternating, with words "and" anywhere between them. */
  predicate Adds(tokens: seq<string>) {
    WithoutAnd(tokens) != [] && Total(WithoutAnd(tokens)).Some?
  }

  lemma {:induction false} LastPartIsUnit(parts: seq<string>)
    requires parts != [] && Total(parts).Some?
    ensures |parts| >= 2 && UnitSeconds(parts[|parts| - 1]).Some?
    decreases |parts|
  {
    if |parts| <= 2 {
    } else {
      LastPartIsUnit(parts[2..]);
    }
  }

  lemma {:induction false} PartsOfTokens(tokens: seq<string>)
    ensures |WithoutAnd(tokens)| <= |tokens|
    ensures tokens != [] && tokens[|tokens| - 1] != "and" ==>
      WithoutAnd(tokens) != [] && WithoutAnd(tokens)[|WithoutAnd(tokens)| - 1] == tokens[|tokens| - 1]
    ensures tokens != [] && tokens[0] != "and" ==> WithoutAnd(tokens) != [] && WithoutAnd(tokens)[0] == tokens[0]
  {
    if tokens == [] {
    } else {
      PartsOfTokens(tokens[1..]);
    }
  }

  lemma EndTokens(tokens: seq<string>)
    requires Adds(tokens)
    ensures |tokens| >= 2
    ensures tokens[0] == "and" || (tokens[0] != [] && AllDigits(tokens[0]))
    ensures tokens[|tokens| - 1] == "and" || UnitSeconds(tokens[|tokens| - 1]).Some?
  {
    PartsOfTokens(tokens);
    LastPartIsUnit(WithoutAnd(tokens));
  }

  /** A text that ends in a unit or in "and" carries no trailing marker. */
  lemma TokenTailFree(s: string, token: string)
    requires |s| >= 2 && (token == "and" || UnitSeconds(token).Some?) && EndsInToken(s, token)
    ensures TailFree(s)
  {
    var last := |s| - 1;
    assert s[last] == s[|s| - |token|..][|token| - 1] == token[|token| - 1];
    if |token| >= 2 {
      assert s[last - 1] == s[|s| - |token|..][|token| - 2] == token[|token| - 2];
    }
    if token != "and" {
      UnitFacts(token);
    }
  }

  lemma SpelledBodyIsBare(tokens: seq<string>, gaps: seq<string>)
    requires ValidSpelling(tokens, gaps) && Adds(tokens) && Unpadded(Spell(tokens, gaps))
    ensures Bare(Spell(tokens, gaps))
  {
    var s := Spell(tokens, gaps);
    EndTokens(tokens);
    SpellingLength(tokens, gaps);
    FirstOfSpelling(tokens, gaps);
    LastOfSpelling(tokens, gaps);
    if !IsGapChar(s[|s| - 1]) {
      TokenTailFree(s, tokens[|tokens| - 1]);
    }
  }

  // -------------------------------------------------------- recovering markers

  lemma {:induction false} TrimStartSplit(x: string)
    ensures |TrimStart(x)| <= |x| && Blank(x[..|x| - |TrimStart(x)|]) && x[|x| - |TrimStart(x)|..] == TrimStart(x)
    ensures TrimStart(x) != [] ==> !IsWhitespace(TrimStart(x)[0])
  {
    if x == [] || !IsWhitespace(x[0]) {
    } else {
      TrimStartSplit(x[1..]);
      var k := |x| - |TrimStart(x)|;
      assert x[..k] == [x[0]] + x[1..][..k - 1];
    }
  }

  lemma {:induction false} TrimEndSplit(x: string)
    ensures |TrimEnd(x)| <= |x| && x[..|TrimEnd(x)|] == TrimEnd(x) && Blank(x[|TrimEnd(x)|..])
    ensures TrimEnd(x) != [] ==> !IsWhitespace(TrimEnd(x)[|TrimEnd(x)| - 1])
  {
    if x == [] || !IsWhitespace(x[|x| - 1]) {
    } else {
      var init := x[..|x| - 1];
      TrimEndSplit(init);
      var k := |TrimEnd(x)|;
      assert x[k..] == init[k..] + [x[|x| - 1]];
    }
  }

  /** Trimming a text that starts with a letter only takes blanks off its end. */
  lemma TrimKeepsStart(x: string) returns (pad: string)
    requires x != [] && !IsWhitespace(x[0])
    ensures Blank(pad) && x == Trim(x) + pad && Unpadded(Trim(x))
  {
    TrimEndSplit(x);
    pad := x[|Trim(x)|..];
    assert x == Trim(x) + pad;
    assert x[0] !in pad;
  }

  lemma TrimEndFixed(x: string)
    requires x == [] || !IsWhitespace(x[|x| - 1])
    ensures TrimEnd(x) == x
  {
  }

  /** Trimming a text that ends in a letter only takes blanks off its start. */
  lemma TrimKeepsEnd(x: string) returns (pad: string)
    requires x != [] && !IsWhitespace(x[|x| - 1])
    ensures Blank(pad) && x == pad + Trim(x) && Unpadded(Trim(x))
  {
    TrimStartSplit(x);
    var t := TrimStart(x);
    pad := x[..|x| - |t|];
    assert x == pad + t;
    assert x[|x| - 1] !in pad;
    assert t[|t| - 1] == x[|x| - 1];
    TrimEndFixed(t);
  }

  lemma RecoverTail(s: string) returns (tail: Tail)
    requires Unpadded(s)
    ensures tail == NoTail || Blank(tail.pad)
    ensures s == StripTail(s).0 + TailText(tail) && Unpadded(StripTail(s).0) && StripTail(s).1 == tail.FromNow?
  {
    if EndsWith(s, " ago") {
      var pad := RecoverMark(s, " ago");
      tail := Ago(pad);
    } else if EndsWith(s, " from now") {
      var pad := RecoverMark(s, " from now");
      tail := FromNow(pad);
    } else {
      tail := NoTail;
      assert s == s + "";
    }
  }

  lemma RecoverMark(s: string, mark: string) returns (pad: string)
    requires Unpadded(s) && EndsWith(s, mark) && mark != [] && IsWhitespace(mark[0])
    ensures var front := Trim(s[..|s| - |mark|]); Blank(pad) && s == front + (pad + mark) && Unpadded(front)
  {
    var front := CutMark(s, mark);
    pad := TrimKeepsStart(front);
    assert (Trim(front) + pad) + mark == Trim(front) + (pad + mark);
  }

  lemma CutMark(s: string, mark: string) returns (front: string)
    requires Unpadded(s) && EndsWith(s, mark) && mark != [] && IsWhitespace(mark[0])
    ensures front == s[..|s| - |mark|] && s == front + mark
    ensures front != [] && !IsWhitespace(front[0])
  {
    front := s[..|s| - |mark|];
    assert s == front + mark;
    assert s[0] != mark[0];
  }

  lemma Behind(s: string, mark: string) returns (pad: string)
    requires Unpadded(s) && StartsWith(s, mark) && |s| > |mark|
    ensures Blank(pad) && s == (mark + pad) + Trim(s[|mark|..]) && Unpadded(Trim(s[|mark|..]))
  {
    var rest := s[|mark|..];
    assert rest[|rest| - 1] == s[|s| - 1];
    pad := TrimKeepsEnd(rest);
    assert s == mark + rest;
  }

  /** A word marker ends in a blank, so a trimmed text is longer. */
  lemma LongerThanMark(s: string, mark: string)
    requires Unpadded(s) && StartsWith(s, mark) && mark != [] && IsWhitespace(mark[|mark| - 1])
    ensures |s| > |mark|
  {
    assert s[..|mark|][|mark| - 1] == s[|mark| - 1];
  }

  lemma RecoverLead(s: string, future: bool) returns (lead: Lead)
    requires Unpadded(s)
    ensures lead == NoLead || Blank(lead.pad)
    ensures s == LeadText(lead) + StripLead(s, future).0 && Unpadded(StripLead(s, future).0)
    ensures StripLead(s, future).1 == if lead == NoLead then future else lead.In? || lead.Next?
  {
    lead := NoLead;
    assert s == "" + s;
    if StartsWith(s, "in ") {
      LongerThanMark(s, "in ");
      var pad := Behind(s, "in ");
      lead := In(pad);
    } else if StartsWith(s, "next ") {
      LongerThanMark(s, "next ");
      var pad := Behind(s, "next ");
      lead := Next(pad);
    } else if StartsWith(s, "last ") {
      LongerThanMark(s, "last ");
      var pad := Behind(s, "last ");
      lead := Last(pad);
    } else if StartsWith(s, "past ") {
      LongerThanMark(s, "past ");
      var pad := Behind(s, "past ");
      lead := Past(pad);
    }
  }

  lemma RecoverSign(s: string, future: bool) returns (sign: Sign)
    requires Unpadded(s) && StripSign(s, future).0 != []
    ensures sign == NoSign || Blank(sign.pad)
    ensures s == SignText(sign) + StripSign(s, future).0 && Unpadded(StripSign(s, future).0)
    ensures StripSign(s, future).1 == (future || sign.Plus?)
  {
    sign := NoSign;
    assert s == "" + s;
    if StartsWith(s, "+") {
      var pad := Behind(s, "+");
      sign := Plus(pad);
    } else if StartsWith(s, "-") {
      var pad := Behind(s, "-");
      sign := Minus(pad);
    }
  }

  /** Every trimmed text is what its markers leave, between those markers. */
  lemma RecoverMarkers(s: string) returns (lead: Lead, sign: Sign, tail: Tail)
    requires Unpadded(s) && StripMarkers(s).0 != []
    ensures ValidMarkers(lead, sign, tail) && s == Phrase(lead, sign, StripMarkers(s).0, tail)
    ensures Unpadded(StripMarkers(s).0) && StripMarkers(s).1 == PointsForward(lead, sign, tail)
  {
    tail := RecoverTail(s);
    var (a, f) := StripTail(s);
    lead := RecoverLead(a, f);
    var (b, g) := StripLead(a, f);
    sign := RecoverSign(b, g);
  }

  // ------------------------------------------------------------- main results

  /** `s` is a representable sum of numbers and units, spelled in any way, between markers. */
  predicate IsExpression(s: string, lead: Lead, sign: Sign, tail: Tail, tokens: seq<string>, gaps: seq<string>) {
    && ValidMarkers(lead, sign, tail) && ValidSpelling(tokens, gaps) && Unpadded(Spell(tokens, gaps))
    && Adds(tokens) && Total(WithoutAnd(tokens)).value <= MAX_SECONDS
    && s == Phrase(lead, sign, Spell(tokens, gaps), tail)
  }

  /** An expression means its total, in the direction of its markers. */
  lemma ExpressionMeans(raw: string, lead: Lead, sign: Sign, tail: Tail, tokens: seq<string>, gaps: seq<string>)
    requires IsExpression(Lower(Trim(raw)), lead, sign, tail, tokens, gaps)
    ensures Meaning(raw) == Some(Signed(Total(WithoutAnd(tokens)).value, PointsForward(lead, sign, tail)))
  {
    SpelledBodyIsBare(tokens, gaps);
    StripMarkersOf(lead, sign, Spell(tokens, gaps), tail);
    TokensOfSpelling(tokens, gaps);
    MeaningOf(raw, Spell(tokens, gaps), PointsForward(lead, sign, tail), tokens, Total(WithoutAnd(tokens)).value);
  }

  lemma TrimmedIsUnpadded(raw: string)
    requires Lower(Trim(raw)) != []
    ensures Unpadded(Lower(Trim(raw)))
  {
    var t := TrimStart(raw);
    TrimStartSplit(raw);
    TrimEndSplit(t);
    var s := Trim(raw);
    assert s[0] == t[0];
    LowerKeepsBlank(s[0]);
    LowerKeepsBlank(s[|s| - 1]);
  }

  /** And nothing else is accepted. */
  lemma AcceptedIsExpression(raw: string)
      returns (lead: Lead, sign: Sign, tail: Tail, tokens: seq<string>, gaps: seq<string>)
    requires Meaning(raw).Some?
    ensures IsExpression(Lower(Trim(raw)), lead, sign, tail, tokens, gaps)
  {
    var s := Lower(Trim(raw));
    var body := StripMarkers(s).0;
    EmptyIsRejected(s);
    TrimmedIsUnpadded(raw);
    lead, sign, tail := RecoverMarkers(s);
    tokens := Tokens(body).value;
    gaps := SpellingOfTokens(body);
  }

  lemma EmptyIsRejected(s: string)
    ensures s == [] ==> StripMarkers(s).0 == []
    ensures Tokens([]) == Some([])
  {
  }

  /** The accepted texts are exactly the expressions. */
  lemma AcceptedIff(raw: string)
    ensures Meaning(raw).Some? <==>
      exists lead, sign, tail, tokens, gaps :: IsExpression(Lower(Trim(raw)), lead, sign, tail, tokens, gaps)
  {
    if Meaning(raw).Some? {
      var lead, sign, tail, tokens, gaps := AcceptedIsExpression(raw);
    }
    if lead, sign, tail, tokens, gaps :| IsExpression(Lower(Trim(raw)), lead, sign, tail, tokens, gaps) {
      ExpressionMeans(raw, lead, sign, tail, tokens, gaps);
    }
  }
}
