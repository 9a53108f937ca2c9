/** Printing durations in every accepted style, and parsing them back. */
module DurationRoundTrip {
  import opened Text
  import opened Decimal
  import opened DurationParse

  /** What stands between a unit and the next number. */
  datatype Joint = Plain(gap: string) | AndWord(before: string, after: string)

  /** A number and its unit as written, with the gap between them and the joint behind them
      (unused after the last term). */
  datatype Term = Term(digits: string, gap: string, unit: string, joint: Joint)

  /** Direction markers as written, with the blanks around them. */
  datatype Lead = NoLead | In(pad: string) | Next(pad: string) | Last(pad: string) | Past(pad: string)
  datatype Sign = NoSign | Plus(pad: string) | Minus(pad: string)
  datatype Tail = NoTail | Ago(pad: string) | FromNow(pad: string)

  predicate IsGap(s: string) {
    forall i :: 0 <= i < |s| ==> IsGapChar(s[i])
  }

  predicate ValidTerm(t: Term) {
    && t.digits != [] && AllDigits(t.digits) && IsGap(t.gap) && UnitSeconds(t.unit).Some?
    && (t.joint.Plain? ==> IsGap(t.joint.gap))
    && (t.joint.AndWord? ==> t.joint.before != [] && IsGap(t.joint.before) && IsGap(t.joint.after))
  }

  predicate ValidTerms(terms: seq<Term>) {
    forall i :: 0 <= i < |terms| ==> ValidTerm(terms[i])
  }

  function JointText(j: Joint): string {
    match j case Plain(gap) => gap case AndWord(before, after) => before + ("and" + after)
  }

  function Body(terms: seq<Term>): string
    decreases |terms|, 0
  {
    if terms == [] then ""
    else terms[0].digits + (terms[0].gap + (terms[0].unit + Behind(terms[0].joint, terms[1..])))
  }

  /** Joint and further terms, if there are any. */
  function Behind(j: Joint, rest: seq<Term>): string
    decreases |rest|, 1
  {
    if rest == [] then "" else JointText(j) + Body(rest)
  }

  function Sum(terms: seq<Term>): nat
    requires ValidTerms(terms)
  {
    if terms == [] then 0
    else DigitsValue(terms[0].digits) * UnitSeconds(terms[0].unit).value + Sum(terms[1..])
  }

  // ------------------------------------------------------------------ tokens

  function BodyTokens(terms: seq<Term>): seq<string> {
    if terms == [] then []
    else
      var more := if |terms| > 1 && terms[0].joint.AndWord? then ["and"] else [];
      [terms[0].digits, terms[0].unit] + more + BodyTokens(terms[1..])
  }

  /** Facts about the 23 unit names that the marker and token rules rely on. */
  lemma UnitFacts(u: string)
    requires UnitSeconds(u).Some?
    ensures IsRun(u) && !IsDigit(u[0]) && u != "and"
    ensures u[|u| - 1] != 'o' && !IsWhitespace(u[|u| - 1])
    ensures |u| >= 2 ==> !(u[|u| - 2] == 'o' && u[|u| - 1] == 'w')
  {
  }

  lemma DigitsAreRun(d: string)
    requires d != [] && AllDigits(d)
    ensures IsRun(d) && IsDigit(d[0]) && d != "and"
  {
  }

  lemma {:induction false} GapThen(gap: string, rest: string)
    requires IsGap(gap)
    ensures Tokens(gap + rest) == Tokens(rest)
  {
    if gap == [] {
      assert gap + rest == rest;
    } else {
      assert (gap + rest)[1..] == gap[1..] + rest;
      GapThen(gap[1..], rest);
    }
  }

  /** A text that does not start with a letter or digit of the same kind as `run`. */
  lemma GapOrOther(run: string, gap: string, rest: string)
    requires IsRun(run) && IsGap(gap) && (gap == [] ==> !Extends(run, rest))
    ensures !Extends(run, gap + rest)
  {
    if gap == [] {
      assert gap + rest == rest;
    }
  }

  lemma BodyStart(terms: seq<Term>)
    requires ValidTerms(terms) && terms != []
    ensures Body(terms) != [] && IsDigit(Body(terms)[0])
  {
    assert Body(terms)[0] == terms[0].digits[0];
  }

  lemma TokensBehind(unit: string, j: Joint, rest: seq<Term>)
    requires UnitSeconds(unit).Some? && ValidTerms(rest) && rest != []
    requires j.Plain? ==> IsGap(j.gap)
    requires j.AndWord? ==> j.before != [] && IsGap(j.before) && IsGap(j.after)
    ensures !Extends(unit, Behind(j, rest))
    ensures Tokens(Behind(j, rest)) == Prepend(if j.AndWord? then ["and"] else [], Tokens(Body(rest)))
  {
    UnitFacts(unit);
    BodyStart(rest);
    var body := Body(rest);
    match j
    case Plain(gap) =>
      GapOrOther(unit, gap, body);
      GapThen(gap, body);
      PrependEmpty(Tokens(body));
    case AndWord(before, after) =>
      GapOrOther(unit, before, "and" + after + body);
      assert Behind(j, rest) == before + ("and" + (after + body));
      GapThen(before, "and" + (after + body));
      GapOrOther("and", after, body);
      RunThen("and", after + body);
      GapThen(after, body);
      assert Behind(j, rest)[0] == before[0];
  }

  lemma PrependEmpty(rest: Option<seq<string>>)
    ensures Prepend([], rest) == rest
  {
    if rest.Some? {
      assert [] + rest.value == rest.value;
    }
  }

  lemma TokensOfTerm(t: Term, tail: string)
    requires ValidTerm(t) && !Extends(t.unit, tail)
    ensures Tokens(t.digits + (t.gap + (t.unit + tail))) == Prepend([t.digits, t.unit], Tokens(tail))
  {
    UnitFacts(t.unit);
    DigitsAreRun(t.digits);
    assert t.unit + tail != [] && (t.unit + tail)[0] == t.unit[0];
    GapOrOther(t.digits, t.gap, t.unit + tail);
    RunThen(t.digits, t.gap + (t.unit + tail));
    GapThen(t.gap, t.unit + tail);
    RunThen(t.unit, tail);
    PrependTwice([t.digits], [t.unit], Tokens(tail));
    assert [t.digits] + [t.unit] == [t.digits, t.unit];
  }

  lemma {:induction false} TokensOfBody(terms: seq<Term>)
    requires ValidTerms(terms)
    ensures Tokens(Body(terms)) == Some(BodyTokens(terms))
  {
    if terms == [] {
    } else {
      var t, rest := terms[0], terms[1..];
      TokensOfBody(rest);
      if rest == [] {
        TokensOfTerm(t, "");
        assert BodyTokens(terms) == [t.digits, t.unit] + [] + [];
        assert [t.digits, t.unit] + [] == [t.digits, t.unit];
      } else {
        TokensBehind(t.unit, t.joint, rest);
        TokensOfTerm(t, Behind(t.joint, rest));
        PrependTwice([t.digits, t.unit], if t.joint.AndWord? then ["and"] else [], Tokens(Body(rest)));
      }
    }
  }

  lemma WithoutAndConcat(a: seq<string>, b: seq<string>)
    ensures WithoutAnd(a + b) == WithoutAnd(a) + WithoutAnd(b)
  {
    if a == [] {
      assert a + b == b;
    } else {
      assert (a + b)[1..] == a[1..] + b;
      WithoutAndConcat(a[1..], b);
    }
  }

  lemma WithoutAndOfPair(a: string, b: string)
    requires a != "and" && b != "and"
    ensures WithoutAnd([a, b]) == [a, b]
  {
    assert [a, b][1..] == [b] && [b][1..] == [];
    assert WithoutAnd([b]) == [b];
  }

  lemma PartsOfBody(terms: seq<Term>)
    requires ValidTerms(terms) && terms != []
    ensures WithoutAnd(BodyTokens(terms)) == [terms[0].digits, terms[0].unit] + WithoutAnd(BodyTokens(terms[1..]))
  {
    var t, rest := terms[0], terms[1..];
    UnitFacts(t.unit);
    DigitsAreRun(t.digits);
    var more := if |terms| > 1 && t.joint.AndWord? then ["and"] else [];
    WithoutAndConcat([t.digits, t.unit] + more, BodyTokens(rest));
    WithoutAndConcat([t.digits, t.unit], more);
    assert WithoutAnd(more) == [];
    WithoutAndOfPair(t.digits, t.unit);
  }

  lemma {:induction false} TotalOfBody(terms: seq<Term>)
    requires ValidTerms(terms)
    ensures Total(WithoutAnd(BodyTokens(terms))) == Some(Sum(terms))
    ensures terms != [] ==> WithoutAnd(BodyTokens(terms)) != []
  {
    if terms == [] {
    } else {
      TotalOfBody(terms[1..]);
      PartsOfBody(terms);
      DigitsAreRun(terms[0].digits);
      var parts := WithoutAnd(BodyTokens(terms));
      assert parts[2..] == WithoutAnd(BodyTokens(terms[1..]));
    }
  }

  // --------------------------------------------------------------- direction

  predicate Unpadded(s: string) {
    s != [] && !IsWhitespace(s[0]) && !IsWhitespace(s[|s| - 1])
  }

  /** A text that cannot be mistaken for one with a tail marker. */
  predicate TailFree(s: string) {
    |s| >= 2 && s[|s| - 1] != 'o' && !(s[|s| - 2] == 'o' && s[|s| - 1] == 'w')
  }

  /** Text in front changes neither end condition. */
  lemma EndOfConcat(front: string, s: string)
    requires TailFree(s) && !IsWhitespace(s[|s| - 1])
    ensures TailFree(front + s) && !IsWhitespace((front + s)[|front + s| - 1])
  {
    var t := front + s;
    assert t[|t| - 1] == s[|s| - 1] && t[|t| - 2] == s[|s| - 2];
  }

  lemma TermEnd(t: Term)
    requires ValidTerm(t)
    ensures var s := t.digits + (t.gap + t.unit); TailFree(s) && !IsWhitespace(s[|s| - 1])
  {
    var u := t.unit;
    UnitFacts(u);
    if |u| >= 2 {
      EndOfConcat(t.gap, u);
      EndOfConcat(t.digits, t.gap + u);
    } else if t.gap != [] {
      OneLetterEnd(t.gap, u);
      EndOfConcat(t.digits, t.gap + u);
    } else {
      assert t.gap + u == u;
      OneLetterEnd(t.digits, u);
    }
  }

  lemma OneLetterEnd(front: string, u: string)
    requires front != [] && front[|front| - 1] != 'o' && |u| == 1 && u[0] != 'o' && !IsWhitespace(u[0])
    ensures TailFree(front + u) && !IsWhitespace((front + u)[|front + u| - 1])
  {
  }

  lemma BodyOfOne(terms: seq<Term>)
    requires |terms| == 1
    ensures Body(terms) == terms[0].digits + (terms[0].gap + terms[0].unit)
  {
    assert terms[0].unit + "" == terms[0].unit;
  }

  lemma BodyOfMore(terms: seq<Term>)
    requires |terms| > 1
    ensures var t := terms[0];
      Body(terms) == t.digits + (t.gap + (t.unit + (JointText(t.joint) + Body(terms[1..]))))
  {
  }

  lemma {:induction false} BodyTail(terms: seq<Term>)
    requires ValidTerms(terms) && terms != []
    ensures TailFree(Body(terms)) && !IsWhitespace(Body(terms)[|Body(terms)| - 1])
  {
    if |terms| == 1 {
      BodyOfOne(terms);
      TermEnd(terms[0]);
    } else {
      var joint, rest := JointText(terms[0].joint), Body(terms[1..]);
      BodyTail(terms[1..]);
      EndOfConcat(joint, rest);
      EndBehindTerm(terms[0], joint + rest);
      BodyOfMore(terms);
    }
  }

  lemma BodyEnd(terms: seq<Term>)
    requires ValidTerms(terms) && terms != []
    ensures TailFree(Body(terms)) && Unpadded(Body(terms)) && IsDigit(Body(terms)[0])
  {
    BodyStart(terms);
    BodyTail(terms);
  }

  lemma EndBehindTerm(t: Term, s: string)
    requires TailFree(s) && !IsWhitespace(s[|s| - 1])
    ensures var all := t.digits + (t.gap + (t.unit + s)); TailFree(all) && !IsWhitespace(all[|all| - 1])
  {
    EndOfConcat(t.unit, s);
    EndOfConcat(t.gap, t.unit + s);
    EndOfConcat(t.digits, t.gap + (t.unit + s));
  }

  function TailText(tail: Tail): string {
    match tail case NoTail => "" case Ago(pad) => pad + " ago" case FromNow(pad) => pad + " from now"
  }

  function LeadText(lead: Lead): string {
    match lead
    case NoLead => ""
    case In(pad) => "in " + pad
    case Next(pad) => "next " + pad
    case Last(pad) => "last " + pad
    case Past(pad) => "past " + pad
  }

  function SignText(sign: Sign): string {
    match sign case NoSign => "" case Plus(pad) => "+" + pad case Minus(pad) => "-" + pad
  }

  predicate ValidMarkers(lead: Lead, sign: Sign, tail: Tail) {
    (lead == NoLead || Blank(lead.pad)) && (sign == NoSign || Blank(sign.pad)) && (tail == NoTail || Blank(tail.pad))
  }

  /** A body between its direction markers. */
  function Phrase(lead: Lead, sign: Sign, body: string, tail: Tail): string {
    LeadText(lead) + (SignText(sign) + body) + TailText(tail)
  }

  /** Which way the markers together point: a plus sign wins, then the leading word, then
      the trailing one. A minus sign never turns a future expression around. */
  predicate PointsForward(lead: Lead, sign: Sign, tail: Tail) {
    sign.Plus? || lead.In? || lead.Next? || (lead.NoLead? && tail.FromNow?)
  }

  lemma LastOfSuffix(s: string, p: string)
    requires EndsWith(s, p) && |p| >= 2
    ensures s[|s| - 1] == p[|p| - 1] && s[|s| - 2] == p[|p| - 2]
  {
    var t := s[|s| - |p|..];
    assert t[|p| - 1] == s[|s| - 1] && t[|p| - 2] == s[|s| - 2];
  }

  lemma FirstOfPrefix(s: string, p: string)
    requires StartsWith(s, p) && p != []
    ensures s[0] == p[0]
  {
    assert s[..|p|][0] == s[0];
  }

  /** Taking a mark off the end, with the blanks in front of it. */
  lemma StripBehind(front: string, pad: string, mark: string)
    requires Unpadded(front) && Blank(pad)
    ensures var s := front + (pad + mark); EndsWith(s, mark) && Trim(s[..|s| - |mark|]) == front
  {
    var s := front + (pad + mark);
    assert s[|s| - |mark|..] == mark && s[..|s| - |mark|] == "" + front + pad;
    TrimPadded("", front, pad);
  }

  /** Taking a mark off the front, with the blanks behind it. */
  lemma StripBefore(mark: string, pad: string, rest: string)
    requires Unpadded(rest) && Blank(pad)
    ensures var s := (mark + pad) + rest; StartsWith(s, mark) && Trim(s[|mark|..]) == rest
  {
    var s := (mark + pad) + rest;
    assert s[..|mark|] == mark && s[|mark|..] == pad + rest + "";
    TrimPadded(pad, rest, "");
  }

  lemma StripNoTail(front: string)
    requires TailFree(front)
    ensures StripTail(front) == (front, false)
  {
    if EndsWith(front, " ago") { LastOfSuffix(front, " ago"); }
    if EndsWith(front, " from now") { LastOfSuffix(front, " from now"); }
  }

  lemma StripAgo(front: string, pad: string)
    requires Unpadded(front) && Blank(pad)
    ensures StripTail(front + (pad + " ago")) == (front, false)
  {
    StripBehind(front, pad, " ago");
  }

  lemma StripFromNow(front: string, pad: string)
    requires Unpadded(front) && Blank(pad)
    ensures StripTail(front + (pad + " from now")) == (front, true)
  {
    var s := front + (pad + " from now");
    StripBehind(front, pad, " from now");
    LastOfSuffix(s, " from now");
    if EndsWith(s, " ago") { LastOfSuffix(s, " ago"); }
  }

  lemma StripTailOf(front: string, tail: Tail)
    requires Unpadded(front) && TailFree(front) && (tail == NoTail || Blank(tail.pad))
    ensures StripTail(front + TailText(tail)) == (front, tail.FromNow?)
  {
    match tail
    case NoTail =>
      assert front + TailText(tail) == front;
      StripNoTail(front);
    case Ago(pad) => StripAgo(front, pad);
    case FromNow(pad) => StripFromNow(front, pad);
  }

  /** A first character that no leading word starts with. */
  predicate NoLeadStart(c: char) {
    c != 'i' && c != 'n' && c != 'l' && c != 'p'
  }

  /** A body that cannot be mistaken for one with markers around it. */
  predicate Bare(body: string) {
    Unpadded(body) && TailFree(body) && NoLeadStart(body[0]) && body[0] != '+' && body[0] != '-'
  }

  /** Only a text with the right first letter can carry a leading word. */
  lemma StripNoLead(s: string, future: bool)
    requires s != [] && NoLeadStart(s[0])
    ensures StripLead(s, future) == (s, future)
  {
    if StartsWith(s, "in ") { FirstOfPrefix(s, "in "); }
    if StartsWith(s, "next ") { FirstOfPrefix(s, "next "); }
    if StartsWith(s, "last ") { FirstOfPrefix(s, "last "); }
    if StartsWith(s, "past ") { FirstOfPrefix(s, "past "); }
  }

  lemma StripLeadOf(lead: Lead, rest: string, future: bool)
    requires Unpadded(rest) && NoLeadStart(rest[0]) && (lead == NoLead || Blank(lead.pad))
    ensures StripLead(LeadText(lead) + rest, future)
         == (rest, if lead == NoLead then future else lead.In? || lead.Next?)
  {
    var s := LeadText(lead) + rest;
    match lead
    case NoLead =>
      assert s == rest;
      StripNoLead(rest, future);
    case In(pad) =>
      StripBefore("in ", pad, rest);
    case Next(pad) =>
      StripBefore("next ", pad, rest);
      FirstOfPrefix(s, "next ");
      if StartsWith(s, "in ") { FirstOfPrefix(s, "in "); }
    case Last(pad) =>
      StripBefore("last ", pad, rest);
      FirstOfPrefix(s, "last ");
      if StartsWith(s, "in ") { FirstOfPrefix(s, "in "); }
      if StartsWith(s, "next ") { FirstOfPrefix(s, "next "); }
    case Past(pad) =>
      StripBefore("past ", pad, rest);
      FirstOfPrefix(s, "past ");
      if StartsWith(s, "in ") { FirstOfPrefix(s, "in "); }
      if StartsWith(s, "next ") { FirstOfPrefix(s, "next "); }
      if StartsWith(s, "last ") { FirstOfPrefix(s, "last "); }
  }

  lemma StripSignOf(sign: Sign, body: string, future: bool)
    requires Unpadded(body) && body[0] != '+' && body[0] != '-' && (sign == NoSign || Blank(sign.pad))
    ensures StripSign(SignText(sign) + body, future) == (body, future || sign.Plus?)
  {
    var s := SignText(sign) + body;
    match sign
    case NoSign =>
      assert s == body;
      if StartsWith(s, "+") { FirstOfPrefix(s, "+"); }
      if StartsWith(s, "-") { FirstOfPrefix(s, "-"); }
    case Plus(pad) =>
      StripBefore("+", pad, body);
    case Minus(pad) =>
      StripBefore("-", pad, body);
      FirstOfPrefix(s, "-");
      if StartsWith(s, "+") { FirstOfPrefix(s, "+"); }
  }

  lemma PhraseEnds(lead: Lead, signed: string, tail: Tail)
    requires Unpadded(signed) && TailFree(signed)
    ensures Unpadded(LeadText(lead) + signed) && TailFree(LeadText(lead) + signed)
    ensures Unpadded(LeadText(lead) + signed + TailText(tail))
  {
    EndOfConcat(LeadText(lead), signed);
    var front := LeadText(lead) + signed;
    var s := front + TailText(tail);
    assert s[0] == front[0];
    assert s[|s| - 1] == match tail case NoTail => front[|front| - 1] case Ago(_) => 'o' case FromNow(_) => 'w';
  }

  lemma StripMarkersOf(lead: Lead, sign: Sign, body: string, tail: Tail)
    requires Bare(body) && ValidMarkers(lead, sign, tail)
    ensures StripMarkers(Phrase(lead, sign, body, tail)) == (body, PointsForward(lead, sign, tail))
    ensures Unpadded(Phrase(lead, sign, body, tail))
  {
    var signed := SignText(sign) + body;
    EndOfConcat(SignText(sign), body);
    assert signed[0] == match sign case NoSign => body[0] case Plus(_) => '+' case Minus(_) => '-';
    PhraseEnds(lead, signed, tail);
    StripTailOf(LeadText(lead) + signed, tail);
    StripLeadOf(lead, signed, tail.FromNow?);
    StripSignOf(sign, body, if lead == NoLead then tail.FromNow? else lead.In? || lead.Next?);
  }

  // --------------------------------------------------------------- letter case

  lemma LowerKeepsBlank(c: char)
    ensures IsWhitespace(LowerChar(c)) == IsWhitespace(c)
  {
  }

  lemma {:induction false} LowerTrimStart(s: string)
    ensures Lower(TrimStart(s)) == TrimStart(Lower(s))
  {
    if s == [] {
    } else {
      LowerKeepsBlank(s[0]);
      assert Lower(s)[1..] == Lower(s[1..]);
      LowerTrimStart(s[1..]);
    }
  }

  lemma {:induction false} LowerTrimEnd(s: string)
    ensures Lower(TrimEnd(s)) == TrimEnd(Lower(s))
  {
    if s == [] {
    } else {
      LowerKeepsBlank(s[|s| - 1]);
      assert Lower(s)[..|s| - 1] == Lower(s[..|s| - 1]);
      LowerTrimEnd(s[..|s| - 1]);
    }
  }

  predicate NoUpper(s: string) {
    forall i :: 0 <= i < |s| ==> LowerChar(s[i]) == s[i]
  }

  lemma NoUpperConcat(a: string, b: string)
    requires NoUpper(a) && NoUpper(b)
    ensures NoUpper(a + b)
  {
  }

  lemma LowerOfNoUpper(s: string)
    requires NoUpper(s)
    ensures Lower(s) == s
  {
  }

  lemma LeadIsLower(lead: Lead)
    requires lead == NoLead || Blank(lead.pad)
    ensures NoUpper(LeadText(lead))
  {
  }

  lemma SignIsLower(sign: Sign)
    requires sign == NoSign || Blank(sign.pad)
    ensures NoUpper(SignText(sign))
  {
  }

  lemma TailIsLower(tail: Tail)
    requires tail == NoTail || Blank(tail.pad)
    ensures NoUpper(TailText(tail))
  {
  }

  lemma UnitIsLower(u: string)
    requires UnitSeconds(u).Some?
    ensures NoUpper(u)
  {
  }

  lemma {:induction false} BodyIsLower(terms: seq<Term>)
    requires ValidTerms(terms)
    ensures NoUpper(Body(terms))
  {
    if terms == [] {
    } else {
      var t, rest := terms[0], terms[1..];
      BodyIsLower(rest);
      UnitIsLower(t.unit);
      assert NoUpper(JointText(t.joint));
      assert NoUpper(Behind(t.joint, rest));
      assert NoUpper(t.unit + Behind(t.joint, rest));
      assert NoUpper(t.gap + (t.unit + Behind(t.joint, rest)));
    }
  }

  lemma PhraseIsLower(lead: Lead, sign: Sign, terms: seq<Term>, tail: Tail)
    requires ValidTerms(terms) && ValidMarkers(lead, sign, tail)
    ensures Lower(Phrase(lead, sign, Body(terms), tail)) == Phrase(lead, sign, Body(terms), tail)
  {
    BodyIsLower(terms);
    LeadIsLower(lead);
    SignIsLower(sign);
    TailIsLower(tail);
    var front := LeadText(lead) + (SignText(sign) + Body(terms));
    NoUpperConcat(SignText(sign), Body(terms));
    NoUpperConcat(LeadText(lead), SignText(sign) + Body(terms));
    NoUpperConcat(front, TailText(tail));
    LowerOfNoUpper(front + TailText(tail));
  }

  // ------------------------------------------------------------- main results

  /**
   * Any non-empty list of numbers and units, compact or spread out with blanks, commas and
   * "and", under any combination of direction markers, in any letter case and padded with
   * blanks, means the signed sum of its terms. It is rejected exactly when that sum exceeds
   * the largest representable duration; no intermediate overflow rejects anything else.
   */
  lemma PrintedMeansSignedSum(raw: string, before: string, after: string,
                              lead: Lead, sign: Sign, terms: seq<Term>, tail: Tail)
    requires ValidTerms(terms) && terms != [] && ValidMarkers(lead, sign, tail)
    requires Blank(before) && Blank(after) && Lower(raw) == before + Phrase(lead, sign, Body(terms), tail) + after
    ensures Meaning(raw) ==
      if Sum(terms) <= MAX_SECONDS then Some(Signed(Sum(terms), PointsForward(lead, sign, tail))) else None
  {
    BodyEnd(terms);
    StripMarkersOf(lead, sign, Body(terms), tail);
    LowerTrimPadded(raw, before, Phrase(lead, sign, Body(terms), tail), after);
    TokensOfBody(terms);
    TotalOfBody(terms);
    MeaningOf(raw, Body(terms), PointsForward(lead, sign, tail), BodyTokens(terms), Sum(terms));
  }

  lemma LowerTrimPadded(raw: string, before: string, text: string, after: string)
    requires Blank(before) && Unpadded(text) && Blank(after) && Lower(raw) == before + text + after
    ensures Lower(Trim(raw)) == text
  {
    LowerTrimStart(raw);
    LowerTrimEnd(TrimStart(raw));
    TrimPadded(before, text, after);
  }

  lemma MeaningOf(raw: string, body: string, future: bool, tokens: seq<string>, total: nat)
    requires StripMarkers(Lower(Trim(raw))) == (body, future) && Tokens(body) == Some(tokens)
    requires WithoutAnd(tokens) != [] && Total(WithoutAnd(tokens)) == Some(total)
    ensures Meaning(raw) == if total <= MAX_SECONDS then Some(Signed(total, future)) else None
  {
  }

  /** Numbers and units written with the same gap and joint throughout. */
  function Written(pairs: seq<(nat, string)>, gap: string, joint: Joint): seq<Term> {
    seq(|pairs|, i requires 0 <= i < |pairs| => Term(Digits(pairs[i].0), gap, pairs[i].1, joint))
  }

  function PairSum(pairs: seq<(nat, string)>): nat
    requires forall i :: 0 <= i < |pairs| ==> UnitSeconds(pairs[i].1).Some?
  {
    if pairs == [] then 0 else pairs[0].0 * UnitSeconds(pairs[0].1).value + PairSum(pairs[1..])
  }

  lemma {:induction false} SumOfWritten(pairs: seq<(nat, string)>, gap: string, joint: Joint)
    requires forall i :: 0 <= i < |pairs| ==> UnitSeconds(pairs[i].1).Some?
    requires IsGap(gap) && (joint.Plain? ==> IsGap(joint.gap))
    requires joint.AndWord? ==> joint.before != [] && IsGap(joint.before) && IsGap(joint.after)
    ensures ValidTerms(Written(pairs, gap, joint)) && Sum(Written(pairs, gap, joint)) == PairSum(pairs)
  {
    if pairs == [] {
    } else {
      SumOfWritten(pairs[1..], gap, joint);
      assert Written(pairs, gap, joint)[1..] == Written(pairs[1..], gap, joint);
      DigitsRoundTrip(pairs[0].0);
    }
  }

  lemma NoPadding(s: string)
    ensures "" + s + "" == s
  {
  }

  lemma PrintedExactly(lead: Lead, sign: Sign, terms: seq<Term>, tail: Tail)
    requires ValidTerms(terms) && terms != [] && ValidMarkers(lead, sign, tail)
    ensures Meaning(Phrase(lead, sign, Body(terms), tail)) ==
      if Sum(terms) <= MAX_SECONDS then Some(Signed(Sum(terms), PointsForward(lead, sign, tail))) else None
  {
    PhraseIsLower(lead, sign, terms, tail);
    NoPadding(Phrase(lead, sign, Body(terms), tail));
    PrintedMeansSignedSum(Phrase(lead, sign, Body(terms), tail), "", "", lead, sign, terms, tail);
  }

  /** Printing pairs of numbers and units in one style and parsing the text gives the sum back. */
  lemma {:induction false} PrintThenParse(pairs: seq<(nat, string)>, gap: string, joint: Joint,
                                          lead: Lead, sign: Sign, tail: Tail)
    requires pairs != [] && forall i :: 0 <= i < |pairs| ==> UnitSeconds(pairs[i].1).Some?
    requires IsGap(gap) && (joint.Plain? ==> IsGap(joint.gap))
    requires joint.AndWord? ==> joint.before != [] && IsGap(joint.before) && IsGap(joint.after)
    requires ValidMarkers(lead, sign, tail)
    ensures Meaning(Phrase(lead, sign, Body(Written(pairs, gap, joint)), tail)) ==
      if PairSum(pairs) <= MAX_SECONDS then Some(Signed(PairSum(pairs), PointsForward(lead, sign, tail))) else None
  {
    SumOfWritten(pairs, gap, joint);
    PrintedExactly(lead, sign, Written(pairs, gap, joint), tail);
  }
}
