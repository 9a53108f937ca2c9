/** Which way a relative duration points when it carries one or several direction markers. */
module DurationDirection {
  import opened Text
  import opened Decimal
  import opened DurationParse
  import opened DurationRoundTrip
  import opened DurationLanguage

  /** When each marker of the past means the past: "ago" yields to "in", "next" and a plus sign, a
      minus sign to "in", "next" and a lone "from now", and "last" and "past" to a plus sign. */
  predicate PastRules(offset: int, lead: Lead, sign: Sign, tail: Tail) {
    && (tail.Ago? ==> (offset < 0 <==> !lead.In? && !lead.Next? && !sign.Plus?))
    && (sign.Minus? ==> (offset < 0 <==> lead.Last? || lead.Past? || (lead.NoLead? && !tail.FromNow?)))
    && (lead.Last? || lead.Past? ==> (offset < 0 <==> !sign.Plus?))
  }

  /** Markers of the future: "in", "next" and a plus sign always mean it, "from now" unless "last" or
      "past" stands in front without a plus sign. A bare duration looks back. */
  predicate FutureRules(offset: int, lead: Lead, sign: Sign, tail: Tail) {
    && (lead.In? || lead.Next? || sign.Plus? ==> offset > 0)
    && (tail.FromNow? ==> (offset > 0 <==> sign.Plus? || !(lead.Last? || lead.Past?)))
    && (lead.NoLead? && sign.NoSign? && tail.NoTail? ==> offset < 0)
  }

  lemma SignedFollowsRules(total: nat, lead: Lead, sign: Sign, tail: Tail)
    requires total > 0
    ensures var offset := Signed(total, PointsForward(lead, sign, tail));
      PastRules(offset, lead, sign, tail) && FutureRules(offset, lead, sign, tail)
  {
  }

  /** Every accepted expression with a total above zero points where these rules say. */
  lemma MarkersDecideDirection(raw: string, lead: Lead, sign: Sign, tail: Tail, tokens: seq<string>, gaps: seq<string>)
    requires IsExpression(Lower(Trim(raw)), lead, sign, tail, tokens, gaps) && Total(WithoutAnd(tokens)).value > 0
    ensures Meaning(raw).Some?
    ensures PastRules(Meaning(raw).value, lead, sign, tail) && FutureRules(Meaning(raw).value, lead, sign, tail)
  {
    ExpressionMeans(raw, lead, sign, tail, tokens, gaps);
    SignedFollowsRules(Total(WithoutAnd(tokens)).value, lead, sign, tail);
  }

  /** Every printed phrase with a representable sum is such an expression, under the same markers. */
  lemma PrintedIsExpression(lead: Lead, sign: Sign, terms: seq<Term>, tail: Tail) returns (gaps: seq<string>)
    requires ValidTerms(terms) && terms != [] && ValidMarkers(lead, sign, tail) && Sum(terms) <= MAX_SECONDS
    ensures IsExpression(Phrase(lead, sign, Body(terms), tail), lead, sign, tail, BodyTokens(terms), gaps)
    ensures Total(WithoutAnd(BodyTokens(terms))) == Some(Sum(terms))
  {
    BodyEnd(terms);
    TokensOfBody(terms);
    TotalOfBody(terms);
    gaps := SpellingOfTokens(Body(terms));
  }

  const FIVE_MINUTES := [Term("5", "", "m", Plain(""))]

  lemma FiveMinutes()
    ensures ValidTerms(FIVE_MINUTES) && Body(FIVE_MINUTES) == "5m" && Sum(FIVE_MINUTES) == 300
  {
    var t := FIVE_MINUTES[0];
    assert FIVE_MINUTES[1..] == [];
    assert Sum(FIVE_MINUTES[1..]) == 0;
    assert t.digits[..0] == [] && DigitsValue(t.digits) == 5;
    assert Body(FIVE_MINUTES) == "5" + ("" + ("m" + ""));
  }

  /** What five minutes mean between any markers. */
  lemma FiveMinutesMean(lead: Lead, sign: Sign, tail: Tail, text: string)
    requires ValidMarkers(lead, sign, tail) && text == Phrase(lead, sign, "5m", tail)
    ensures Meaning(text) == Some(if PointsForward(lead, sign, tail) then 300 else -300)
  {
    FiveMinutes();
    PrintedExactly(lead, sign, FIVE_MINUTES, tail);
  }

  /** A minus sign does not turn "in" around. */
  lemma MinusYieldsToIn(raw: string)
    requires raw == "in -5m"
    ensures Meaning(raw) == Some(300)
  {
    FiveMinutesMean(In(""), Minus(""), NoTail, raw);
  }

  /** Nor does "ago". */
  lemma AgoYieldsToIn(raw: string)
    requires raw == "in 5m ago"
    ensures Meaning(raw) == Some(300)
  {
    FiveMinutesMean(In(""), NoSign, Ago(""), raw);
  }

  /** A plus sign turns "last" around. */
  lemma LastYieldsToPlus(raw: string)
    requires raw == "last +5m"
    ensures Meaning(raw) == Some(300)
  {
    FiveMinutesMean(Last(""), Plus(""), NoTail, raw);
  }
}
