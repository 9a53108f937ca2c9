/** The harness-instruction quote detector (crates/tinyagents-harness/src/close.rs). */
module QuoteGuard {
  import opened Text

  /** Number of leading non-white characters. */
  function WordLength(s: string): (n: nat)
    ensures n <= |s| && (forall i :: 0 <= i < n ==> !IsWhitespace(s[i]))
    ensures n < |s| ==> IsWhitespace(s[n])
  {
    if s == [] || IsWhitespace(s[0]) then 0 else 1 + WordLength(s[1..])
  }

  /** The maximal runs of non-white characters, as `split_whitespace`. */
  function Words(s: string): (ws: seq<string>)
    ensures AreWords(ws)
    decreases |s|
  {
    if s == [] then []
    else if IsWhitespace(s[0]) then Words(s[1..])
    else var n := WordLength(s); [s[..n]] + Words(s[n..])
  }

  predicate IsWord(w: string) {
    w != [] && forall i :: 0 <= i < |w| ==> !IsWhitespace(w[i])
  }

  predicate AreWords(ws: seq<string>) {
    forall i :: 0 <= i < |ws| ==> IsWord(ws[i])
  }

  function JoinSpace(ws: seq<string>): string {
    if ws == [] then "" else if |ws| == 1 then ws[0] else ws[0] + " " + JoinSpace(ws[1..])
  }

  function LowerWords(ws: seq<string>): (r: seq<string>)
    ensures |r| == |ws| && forall i :: 0 <= i < |ws| ==> r[i] == Lower(ws[i])
  {
    seq(|ws|, i requires 0 <= i < |ws| => Lower(ws[i]))
  }

  function Normalize(s: string): string {
    Lower(JoinSpace(Words(s)))
  }

  /** The words of a text with case folded away: all that matching can depend on. */
  function FoldedWords(s: string): seq<string> {
    LowerWords(Words(s))
  }

  // ---------------------------------------------------------------- detector

  predicate Quotes(candidate: string, phrases: seq<string>, minimumChars: nat) {
    var normalized := Normalize(candidate);
    exists k :: 0 <= k < |phrases|
      && |Normalize(phrases[k])| >= minimumChars && Contains(normalized, Normalize(phrases[k]))
  }

  /** Pieces of `s` between the separators '.' and newline, as `split(['.', '\n'])`. */
  function Spans(s: string): (spans: seq<string>)
    ensures spans != []
  {
    if s == [] then [""]
    else
      var rest := Spans(s[1..]);
      if s[0] == '.' || s[0] == '\n' then [""] + rest else [[s[0]] + rest[0]] + rest[1..]
  }

  function LongSpans(spans: seq<string>, minimumWords: nat): seq<string> {
    if spans == [] then []
    else
      var span := Normalize(spans[0]);
      (if |Words(span)| >= minimumWords then [span] else []) + LongSpans(spans[1..], minimumWords)
  }

  function Needles(sources: seq<string>, minimumWords: nat): seq<string> {
    if sources == [] then []
    else LongSpans(Spans(sources[0]), minimumWords) + Needles(sources[1..], minimumWords)
  }

  // ------------------------------------------------- reference: word alignment

  /** `phrase` begins at the start of `text`: whole words, except that the last one
      may be glued to further text. */
  predicate HeadAligned(text: seq<string>, phrase: seq<string>)
    requires phrase != []
  {
    && |phrase| <= |text|
    && (forall i :: 0 <= i < |phrase| - 1 ==> text[i] == phrase[i])
    && StartsWith(text[|phrase| - 1], phrase[|phrase| - 1])
  }

  /** `phrase` occurs at word `at` of `text`, possibly glued to other text at both ends. */
  predicate AlignedAt(text: seq<string>, phrase: seq<string>, at: nat)
    requires phrase != []
  {
    && at + |phrase| <= |text|
    && if |phrase| == 1 then Contains(text[at], phrase[0])
       else EndsWith(text[at], phrase[0]) && HeadAligned(text[at + 1..], phrase[1..])
  }

  predicate Aligned(text: seq<string>, phrase: seq<string>) {
    phrase == [] || exists at :: 0 <= at <= |text| && AlignedAt(text, phrase, at)
  }

  // ------------------------------------------------------ joined words and prefixes

  lemma JoinNonEmpty(ws: seq<string>)
    requires AreWords(ws) && ws != []
    ensures |JoinSpace(ws)| > 0 && JoinSpace(ws)[0] == ws[0][0]
    ensures !IsWhitespace(JoinSpace(ws)[0])
    ensures StartsWith(JoinSpace(ws), ws[0])
    ensures |ws| > 1 ==> JoinSpace(ws)[|ws[0]|] == ' '
    ensures |ws| > 1 ==> JoinSpace(ws)[|ws[0]| + 1..] == JoinSpace(ws[1..])
  {
  }

  /** A joined phrase starts a joined text exactly when its words head-align with it. */
  lemma {:induction false} PrefixIffHeadAligned(text: seq<string>, phrase: seq<string>)
    requires AreWords(text) && AreWords(phrase) && phrase != []
    ensures StartsWith(JoinSpace(text), JoinSpace(phrase)) <==> HeadAligned(text, phrase)
    decreases |phrase|
  {
    if text == [] {
      JoinNonEmpty(phrase);
    } else {
      JoinStep(text);
      if |phrase| == 1 {
        PrefixOneWord(text[0], text[1..], phrase[0]);
      } else {
        PrefixMoreWords(text[0], text[1..], phrase[0], JoinSpace(phrase[1..]));
        if |text| > 1 {
          PrefixIffHeadAligned(text[1..], phrase[1..]);
          HeadAlignedStep(text, phrase);
        }
      }
    }
  }

  lemma HeadAlignedStep(text: seq<string>, phrase: seq<string>)
    requires |phrase| > 1 && |text| > 1
    ensures HeadAligned(text, phrase) <==> text[0] == phrase[0] && HeadAligned(text[1..], phrase[1..])
  {
    if text[0] == phrase[0] && HeadAligned(text[1..], phrase[1..]) {
      forall i | 0 <= i < |phrase| - 1 ensures text[i] == phrase[i] {
        if i > 0 { assert text[1..][i - 1] == phrase[1..][i - 1]; }
      }
    }
  }

  /** Text that starts with a word and continues with further words after one space. */
  function Continue(u: string, rest: seq<string>): string {
    if rest == [] then u else u + " " + JoinSpace(rest)
  }

  /** The first space of the phrase must meet the first space of the text. */
  lemma PrefixOneWord(u: string, rest: seq<string>, w: string)
    requires (forall i :: 0 <= i < |u| ==> !IsWhitespace(u[i])) && IsWord(w)
    ensures StartsWith(Continue(u, rest), w) <==> StartsWith(u, w)
  {
    SpaceFree(w);
    if rest == [] {
      assert u + "" == u;
      PrefixWord(u, "", w);
    } else {
      assert u + " " + JoinSpace(rest) == u + (" " + JoinSpace(rest));
      PrefixWord(u, " " + JoinSpace(rest), w);
    }
  }

  lemma PrefixMoreWords(u: string, rest: seq<string>, w: string, tail: string)
    requires (forall i :: 0 <= i < |u| ==> !IsWhitespace(u[i])) && IsWord(w)
    ensures StartsWith(Continue(u, rest), w + " " + tail)
       <==> rest != [] && u == w && StartsWith(JoinSpace(rest), tail)
  {
    SpaceFree(u);
    SpaceFree(w);
    if rest == [] {
      PrefixNeedsSpace(u, w, tail);
    } else {
      PrefixWordSpace(u, JoinSpace(rest), w, tail);
    }
  }

  lemma JoinStep(ws: seq<string>)
    requires ws != []
    ensures JoinSpace(ws) == Continue(ws[0], ws[1..])
  {
  }

  lemma SpaceFree(u: string)
    requires forall i :: 0 <= i < |u| ==> !IsWhitespace(u[i])
    ensures ' ' !in u
  {
  }

  /** Whether a text starts with a word depends only on the text up to its first space. */
  lemma PrefixWord(u: string, rest: string, w: string)
    requires ' ' !in w && (rest == [] || rest[0] == ' ')
    ensures StartsWith(u + rest, w) <==> StartsWith(u, w)
  {
    var s := u + rest;
    if StartsWith(s, w) {
      assert forall i :: 0 <= i < |w| ==> w[i] == s[..|w|][i] == s[i];
      assert rest != [] ==> s[|u|] == ' ';
      assert s[..|w|] == u[..|w|];
    }
    if StartsWith(u, w) {
      assert s[..|w|] == u[..|w|];
    }
  }

  lemma PrefixNeedsSpace(u: string, w: string, tail: string)
    requires ' ' !in u
    ensures !StartsWith(u, w + " " + tail)
  {
    var p := w + " " + tail;
    assert p[|w|] == ' ';
    assert |p| <= |u| ==> u[..|p|][|w|] == u[|w|];
  }

  /** With a space behind the first word of both, the words agree and the rest is a prefix. */
  lemma PrefixWordSpace(u: string, rest: string, w: string, tail: string)
    requires ' ' !in u && ' ' !in w
    ensures StartsWith(u + " " + rest, w + " " + tail) <==> u == w && StartsWith(rest, tail)
  {
    var s, p := u + " " + rest, w + " " + tail;
    assert s[|u|] == ' ' && p[|w|] == ' ';
    if StartsWith(s, p) {
      assert forall i :: 0 <= i < |p| ==> p[i] == s[..|p|][i] == s[i];
      assert |u| == |w|;
      assert u == s[..|u|] == p[..|w|] == w;
    }
    if u == w {
      PrefixBehind(u + " ", rest, tail);
    }
  }

  lemma PrefixBehind(front: string, rest: string, tail: string)
    ensures StartsWith(front + rest, front + tail) <==> StartsWith(rest, tail)
  {
    if |tail| <= |rest| {
      assert (front + rest)[..|front + tail|] == front + rest[..|tail|];
      assert front + rest[..|tail|] == front + tail <==> rest[..|tail|] == tail by {
        assert (front + rest[..|tail|])[|front|..] == rest[..|tail|];
        assert (front + tail)[|front|..] == tail;
      }
    }
  }

  /** An occurrence that starts inside the first word of the text. */
  lemma OccursInFirstWord(text: seq<string>, phrase: seq<string>, o: nat)
    requires AreWords(text) && text != [] && AreWords(phrase) && phrase != [] && o < |text[0]|
    ensures OccursAt(JoinSpace(text), JoinSpace(phrase), o) <==>
      if |phrase| == 1 then OccursAt(text[0], phrase[0], o)
      else |text| > 1 && text[0][o..] == phrase[0] && HeadAligned(text[1..], phrase[1..])
  {
    var u, rest := text[0], text[1..];
    JoinStep(text);
    ContinueFrom(u, rest, o);
    OccursIffSuffixStarts(JoinSpace(text), JoinSpace(phrase), o);
    if |phrase| == 1 {
      PrefixOneWord(u[o..], rest, phrase[0]);
      OccursIffSuffixStarts(u, phrase[0], o);
    } else {
      PrefixMoreWords(u[o..], rest, phrase[0], JoinSpace(phrase[1..]));
      if rest != [] {
        PrefixIffHeadAligned(rest, phrase[1..]);
      }
    }
  }

  lemma ContinueFrom(u: string, rest: seq<string>, o: nat)
    requires o <= |u|
    ensures o <= |Continue(u, rest)| && Continue(u, rest)[o..] == Continue(u[o..], rest)
  {
  }

  lemma OccursIffSuffixStarts(s: string, p: string, o: nat)
    requires o <= |s|
    ensures OccursAt(s, p, o) <==> StartsWith(s[o..], p)
  {
    if o + |p| <= |s| {
      assert s[o..][..|p|] == s[o..o + |p|];
    }
  }

  /** An occurrence that starts after the first word is an occurrence in the rest. */
  lemma OccursAfterFirstWord(text: seq<string>, phrase: seq<string>, o: nat)
    requires AreWords(text) && |text| > 1 && AreWords(phrase) && phrase != []
    ensures OccursAt(JoinSpace(text), JoinSpace(phrase), |text[0]| + 1 + o)
       <==> OccursAt(JoinSpace(text[1..]), JoinSpace(phrase), o)
  {
    assert JoinSpace(text)[|text[0]| + 1..] == JoinSpace(text[1..]);
    OccursBehind(JoinSpace(text), JoinSpace(phrase), |text[0]| + 1, o);
  }

  lemma OccursBehind(s: string, p: string, n: nat, o: nat)
    requires n <= |s|
    ensures OccursAt(s, p, n + o) <==> OccursAt(s[n..], p, o)
  {
    if n + o + |p| <= |s| {
      assert s[n..][o..o + |p|] == s[n + o..n + o + |p|];
    }
  }

  lemma AlignedAtRest(text: seq<string>, phrase: seq<string>, at: nat)
    requires phrase != [] && text != []
    ensures AlignedAt(text, phrase, at + 1) <==> AlignedAt(text[1..], phrase, at)
  {
    if at + 1 + |phrase| <= |text| {
      assert text[1..][at] == text[at + 1];
      assert text[1..][at + 1..] == text[at + 2..];
    }
  }

  /** The detector's substring test is exactly word alignment with glued ends. */
  lemma {:induction false} ContainsIffAligned(text: seq<string>, phrase: seq<string>)
    requires AreWords(text) && AreWords(phrase)
    ensures Contains(JoinSpace(text), JoinSpace(phrase)) <==> Aligned(text, phrase)
    decreases |text|
  {
    if phrase == [] {
      assert OccursAt(JoinSpace(text), "", 0);
    } else if text == [] {
      JoinNonEmpty(phrase);
    } else {
      ContainsIffAligned(text[1..], phrase);
      if Contains(JoinSpace(text), JoinSpace(phrase)) {
        var o :| 0 <= o <= |JoinSpace(text)| && OccursAt(JoinSpace(text), JoinSpace(phrase), o);
        AlignedFromOccurrence(text, phrase, o);
      }
      if Aligned(text, phrase) {
        var at :| 0 <= at <= |text| && AlignedAt(text, phrase, at);
        OccurrenceFromAligned(text, phrase, at);
      }
    }
  }

  lemma AlignedFromOccurrence(text: seq<string>, phrase: seq<string>, o: nat)
    requires AreWords(text) && text != [] && AreWords(phrase) && phrase != []
    requires Contains(JoinSpace(text[1..]), JoinSpace(phrase)) ==> Aligned(text[1..], phrase)
    requires OccursAt(JoinSpace(text), JoinSpace(phrase), o)
    ensures Aligned(text, phrase)
  {
    JoinNonEmpty(phrase);
    if o < |text[0]| {
      OccursInFirstWord(text, phrase, o);
      assert AlignedAt(text, phrase, 0);
    } else {
      OccursBeyondFirstWord(text, phrase, o);
      var at :| 0 <= at <= |text| - 1 && AlignedAt(text[1..], phrase, at);
      AlignedAtRest(text, phrase, at);
    }
  }

  /** No occurrence starts at the space behind the first word. */
  lemma OccursBeyondFirstWord(text: seq<string>, phrase: seq<string>, o: nat)
    requires AreWords(text) && text != [] && AreWords(phrase) && phrase != []
    requires OccursAt(JoinSpace(text), JoinSpace(phrase), o) && o >= |text[0]|
    ensures Contains(JoinSpace(text[1..]), JoinSpace(phrase))
  {
    JoinNonEmpty(phrase);
    assert |text| > 1;
    OccursPastSpace(text[0], JoinSpace(text[1..]), JoinSpace(phrase), o);
  }

  lemma OccursPastSpace(u: string, rest: string, p: string, o: nat)
    requires p != [] && p[0] != ' ' && OccursAt(u + " " + rest, p, o) && o >= |u|
    ensures Contains(rest, p)
  {
    var s := u + " " + rest;
    assert s[o] == s[o..o + |p|][0] == p[0];
    assert s[|u|] == ' ';
    OccursBehind(s, p, |u| + 1, o - |u| - 1);
    assert s[|u| + 1..] == rest;
  }

  lemma OccurrenceFromAligned(text: seq<string>, phrase: seq<string>, at: nat)
    requires AreWords(text) && text != [] && AreWords(phrase) && phrase != []
    requires Aligned(text[1..], phrase) ==> Contains(JoinSpace(text[1..]), JoinSpace(phrase))
    requires AlignedAt(text, phrase, at)
    ensures Contains(JoinSpace(text), JoinSpace(phrase))
  {
    if at == 0 {
      var o: nat;
      if |phrase| == 1 {
        o :| 0 <= o <= |text[0]| && OccursAt(text[0], phrase[0], o);
      } else {
        o := |text[0]| - |phrase[0]|;
      }
      OccursInFirstWord(text, phrase, o);
    } else {
      AlignedAtRest(text, phrase, at - 1);
      assert AlignedAt(text[1..], phrase, at - 1);
      var o :| 0 <= o <= |JoinSpace(text[1..])| && OccursAt(JoinSpace(text[1..]), JoinSpace(phrase), o);
      OccursAfterFirstWord(text, phrase, o);
    }
  }

  // ----------------------------------------------------------- case folding

  lemma LowerConcat(a: string, b: string)
    ensures Lower(a + b) == Lower(a) + Lower(b)
  {
  }

  lemma LowerKeepsWord(w: string)
    requires IsWord(w)
    ensures IsWord(Lower(w))
  {
  }

  lemma {:induction false} LowerJoin(ws: seq<string>)
    ensures Lower(JoinSpace(ws)) == JoinSpace(LowerWords(ws))
  {
    if |ws| <= 1 {
    } else {
      LowerJoin(ws[1..]);
      assert LowerWords(ws)[1..] == LowerWords(ws[1..]);
      LowerConcat(ws[0] + " ", JoinSpace(ws[1..]));
      LowerConcat(ws[0], " ");
      assert Lower(" ") == " ";
    }
  }

  lemma NormalizeIsJoin(s: string)
    ensures AreWords(FoldedWords(s)) && Normalize(s) == JoinSpace(FoldedWords(s))
  {
    LowerJoin(Words(s));
    forall i | 0 <= i < |Words(s)| ensures IsWord(FoldedWords(s)[i]) {
      LowerKeepsWord(Words(s)[i]);
    }
  }

  /** The word length is where the first white character stands. */
  lemma WordLengthIs(s: string, n: nat)
    requires n <= |s| && (forall i :: 0 <= i < n ==> !IsWhitespace(s[i]))
    requires n < |s| ==> IsWhitespace(s[n])
    ensures WordLength(s) == n
  {
  }

  lemma {:induction false} WordsOfWordThen(w: string, rest: string)
    requires IsWord(w) && (rest == [] || IsWhitespace(rest[0]))
    ensures Words(w + rest) == [w] + Words(rest)
  {
    var s := w + rest;
    assert forall i :: 0 <= i < |w| ==> s[i] == w[i];
    WordLengthIs(s, |w|);
    assert s[..|w|] == w && s[|w|..] == rest;
  }

  lemma {:induction false} WordsOfJoin(ws: seq<string>)
    requires AreWords(ws)
    ensures Words(JoinSpace(ws)) == ws
  {
    if |ws| == 1 {
      WordsOfWordThen(ws[0], "");
      assert ws[0] + "" == ws[0];
    } else if |ws| > 1 {
      WordsOfJoin(ws[1..]);
      WordsOfWordSpace(ws[0], JoinSpace(ws[1..]));
    }
  }

  lemma WordsOfWordSpace(w: string, rest: string)
    requires IsWord(w)
    ensures Words(w + " " + rest) == [w] + Words(rest)
  {
    assert w + " " + rest == w + (" " + rest);
    WordsOfWordThen(w, " " + rest);
    assert (" " + rest)[1..] == rest;
  }

  /** Normalising keeps the folded words, so normalising twice changes nothing. */
  lemma NormalizeIdempotent(s: string)
    ensures Words(Normalize(s)) == FoldedWords(s)
    ensures FoldedWords(Normalize(s)) == FoldedWords(s)
    ensures Normalize(Normalize(s)) == Normalize(s)
  {
    NormalizeIsJoin(s);
    WordsOfJoin(FoldedWords(s));
    assert LowerWords(FoldedWords(s)) == FoldedWords(s) by {
      forall i | 0 <= i < |Words(s)| ensures Lower(Lower(Words(s)[i])) == Lower(Words(s)[i]) {
      }
    }
    NormalizeIsJoin(Normalize(s));
  }

  // --------------------------------------------------------- words of a gluing

  /** Word lists of two texts written one after the other; `glued` when no white space
      separates them. */
  function Glue(a: seq<string>, b: seq<string>, glued: bool): seq<string> {
    if glued && a != [] && b != [] then a[..|a| - 1] + [a[|a| - 1] + b[0]] + b[1..] else a + b
  }

  predicate Touching(x: string, y: string) {
    x != [] && y != [] && !IsWhitespace(x[|x| - 1]) && !IsWhitespace(y[0])
  }

  lemma {:induction false} LastWord(x: string)
    requires x != [] && !IsWhitespace(x[|x| - 1])
    ensures Words(x) != []
    decreases |x|
  {
    if !IsWhitespace(x[0]) {
    } else {
      LastWord(x[1..]);
    }
  }

  /** A text whose first word ends before the seam. */
  lemma WordsOfConcatInside(x: string, y: string)
    requires x != [] && !IsWhitespace(x[0]) && WordLength(x) < |x|
    ensures var n := WordLength(x); Words(x + y) == [x[..n]] + Words(x[n..] + y)
  {
    var n := WordLength(x);
    assert forall i :: 0 <= i < |x| ==> (x + y)[i] == x[i];
    WordLengthIs(x + y, n);
    assert (x + y)[n..] == x[n..] + y && (x + y)[..n] == x[..n];
  }

  /** A text that is one single word up to the seam. */
  lemma WordsOfConcatAcross(x: string, y: string)
    requires IsWord(x)
    ensures Words(x) == [x]
    ensures Words(x + y) == Glue([x], Words(y), Touching(x, y))
  {
    WordAlone(x);
    if WordLength(y) == 0 {
      WordsOfWordThen(x, y);
    } else {
      WordsOfWordGlued(x, y);
      GlueOne(x, y[..WordLength(y)], Words(y[WordLength(y)..]));
    }
  }

  lemma GlueOne(x: string, first: string, rest: seq<string>)
    ensures Glue([x], [first] + rest, true) == [x + first] + rest
  {
    assert ([first] + rest)[1..] == rest;
  }

  lemma WordAlone(x: string)
    requires IsWord(x)
    ensures Words(x) == [x]
  {
    assert x + "" == x;
    WordsOfWordThen(x, "");
  }

  lemma WordsOfWordGlued(x: string, y: string)
    requires IsWord(x) && WordLength(y) > 0
    ensures var k := WordLength(y); Words(x + y) == [x + y[..k]] + Words(y[k..])
  {
    var k := WordLength(y);
    assert x + y == (x + y[..k]) + y[k..];
    WordsOfWordThen(x + y[..k], y[k..]);
  }

  lemma GlueInside(w: string, a: seq<string>, b: seq<string>, glued: bool)
    requires glued ==> a != []
    ensures Glue([w] + a, b, glued) == [w] + Glue(a, b, glued)
  {
    if glued && b != [] {
      assert ([w] + a)[..|a|] == [w] + a[..|a| - 1];
    } else {
      assert ([w] + a) + b == [w] + (a + b);
    }
  }

  lemma WordsOfConcatStep(x: string, y: string)
    requires x != [] && !IsWhitespace(x[0]) && WordLength(x) < |x|
    requires var n := WordLength(x); Words(x[n..] + y) == Glue(Words(x[n..]), Words(y), Touching(x[n..], y))
    ensures Words(x + y) == Glue(Words(x), Words(y), Touching(x, y))
  {
    var n := WordLength(x);
    WordsOfConcatInside(x, y);
    if Touching(x, y) {
      LastWord(x[n..]);
    }
    GlueInside(x[..n], Words(x[n..]), Words(y), Touching(x, y));
  }

  /** The words of a concatenation: those of the parts, joined at the seam if they touch. */
  lemma {:induction false} WordsOfConcat(x: string, y: string)
    ensures Words(x + y) == Glue(Words(x), Words(y), Touching(x, y))
    decreases |x|
  {
    if x == [] {
      assert x + y == y;
    } else if IsWhitespace(x[0]) {
      assert (x + y)[1..] == x[1..] + y;
      WordsOfConcat(x[1..], y);
    } else if WordLength(x) == |x| {
      WordsOfConcatAcross(x, y);
    } else {
      WordsOfConcat(x[WordLength(x)..], y);
      WordsOfConcatStep(x, y);
    }
  }

  // ------------------------------------------------------------- main results

  /** Exactly which replies are flagged: those in which the case-folded words of some
      long enough phrase occur consecutively, the outer two possibly glued to other text. */
  lemma QuotesIffAligned(candidate: string, phrases: seq<string>, minimumChars: nat)
    ensures Quotes(candidate, phrases, minimumChars) <==>
      exists k :: 0 <= k < |phrases| && |Normalize(phrases[k])| >= minimumChars
               && Aligned(FoldedWords(candidate), FoldedWords(phrases[k]))
  {
    NormalizeIsJoin(candidate);
    forall k | 0 <= k < |phrases|
      ensures Contains(Normalize(candidate), Normalize(phrases[k]))
         <==> Aligned(FoldedWords(candidate), FoldedWords(phrases[k]))
    {
      NormalizeIsJoin(phrases[k]);
      ContainsIffAligned(FoldedWords(candidate), FoldedWords(phrases[k]));
    }
  }

  /** Where the words of `p` stand after `a` is glued in front of them. */
  lemma GlueLeft(a: seq<string>, p: seq<string>, left: bool) returns (at: nat)
    requires p != []
    ensures var g := Glue(a, p, left);
            |g| == at + |p| && EndsWith(g[at], p[0]) && forall i :: 1 <= i < |p| ==> g[at + i] == p[i]
  {
    at := if left && a != [] then |a| - 1 else |a|;
  }

  /** Gluing `b` behind keeps every word but the last, which it may only extend. */
  lemma GlueRight(g: seq<string>, b: seq<string>, right: bool)
    requires g != []
    ensures var all := Glue(g, b, right);
            |all| >= |g| && (forall i :: 0 <= i < |g| - 1 ==> all[i] == g[i]) && StartsWith(all[|g| - 1], g[|g| - 1])
  {
  }

  /** A phrase with its inner words exact and its outer words glued, case folded. */
  lemma FoldedAlignment(all: seq<string>, g: seq<string>, p: seq<string>, at: nat)
    requires p != [] && at + |p| == |g| <= |all|
    requires EndsWith(g[at], p[0]) && forall i :: 1 <= i < |p| ==> g[at + i] == p[i]
    requires (forall i :: 0 <= i < |g| - 1 ==> all[i] == g[i]) && StartsWith(all[|g| - 1], g[|g| - 1])
    ensures AlignedAt(LowerWords(all), LowerWords(p), at)
  {
    var n := |p| - 1;
    if n == 0 {
      SuffixInPrefix(all[at], g[at], p[0]);
      FoldContains(all[at], p[0]);
    } else {
      FoldEndsWith(all[at], p[0]);
      FoldStartsWith(all[at + n], p[n]);
      AlignedFromParts(LowerWords(all), LowerWords(p), at);
    }
  }

  lemma SuffixInPrefix(whole: string, part: string, w: string)
    requires StartsWith(whole, part) && EndsWith(part, w)
    ensures Contains(whole, w)
  {
    var o := |part| - |w|;
    assert whole[o..o + |w|] == whole[..|part|][o..];
    assert OccursAt(whole, w, o);
  }

  /** Any text surrounding a copy leaves the copy detectable, even glued to its ends. */
  lemma CopyIsAligned(before: string, copy: string, after: string)
    ensures Aligned(FoldedWords(before + copy + after), FoldedWords(copy))
  {
    if Words(copy) != [] {
      WordsOfConcat(before, copy);
      WordsOfConcat(before + copy, after);
      var g := Words(before + copy);
      var at := GlueLeft(Words(before), Words(copy), Touching(before, copy));
      GlueRight(g, Words(after), Touching(before + copy, after));
      FoldedAlignment(Words(before + copy + after), g, Words(copy), at);
    }
  }

  lemma FoldContains(s: string, p: string)
    requires Contains(s, p)
    ensures Contains(Lower(s), Lower(p))
  {
    var o :| 0 <= o <= |s| && OccursAt(s, p, o);
    assert Lower(s)[o..o + |p|] == Lower(s[o..o + |p|]);
    assert OccursAt(Lower(s), Lower(p), o);
  }

  lemma FoldEndsWith(s: string, p: string)
    requires EndsWith(s, p)
    ensures EndsWith(Lower(s), Lower(p))
  {
    assert Lower(s)[|s| - |p|..] == Lower(s[|s| - |p|..]);
  }

  lemma FoldStartsWith(s: string, p: string)
    requires StartsWith(s, p)
    ensures StartsWith(Lower(s), Lower(p))
  {
    assert Lower(s)[..|p|] == Lower(s[..|p|]);
  }

  lemma AlignedFromParts(text: seq<string>, phrase: seq<string>, at: nat)
    requires |phrase| > 1 && at + |phrase| <= |text|
    requires EndsWith(text[at], phrase[0])
    requires forall i :: 1 <= i < |phrase| - 1 ==> text[at + i] == phrase[i]
    requires StartsWith(text[at + |phrase| - 1], phrase[|phrase| - 1])
    ensures AlignedAt(text, phrase, at)
  {
    var t, p := text[at + 1..], phrase[1..];
    forall i | 0 <= i < |p| - 1 ensures t[i] == p[i] {
      assert t[i] == text[at + (i + 1)];
    }
  }

  lemma {:induction false} SpanIsNeedle(spans: seq<string>, k: nat, minimumWords: nat)
    requires k < |spans| && |Words(spans[k])| >= minimumWords
    ensures Normalize(spans[k]) in LongSpans(spans, minimumWords)
  {
    if k == 0 {
      NormalizeIdempotent(spans[0]);
    } else {
      SpanIsNeedle(spans[1..], k - 1, minimumWords);
    }
  }

  lemma {:induction false} SourceSpansAreNeedles(sources: seq<string>, j: nat, needle: string, minimumWords: nat)
    requires j < |sources| && needle in LongSpans(Spans(sources[j]), minimumWords)
    ensures needle in Needles(sources, minimumWords)
  {
    if j == 0 {
    } else {
      SourceSpansAreNeedles(sources[1..], j - 1, needle, minimumWords);
    }
  }

  /**
   * The guard catches every copy of a directive span that has enough words and characters:
   * re-wrapped with any white space, in any letter case, inside any surrounding text, and
   * even when glued to that text at both ends.
   */
  lemma RewrappedSpanIsFlagged(sources: seq<string>, j: nat, k: nat, minimumWords: nat, minimumChars: nat,
                               before: string, copy: string, after: string)
    requires j < |sources| && k < |Spans(sources[j])|
    requires |Words(Spans(sources[j])[k])| >= minimumWords
    requires |Normalize(Spans(sources[j])[k])| >= minimumChars
    requires FoldedWords(copy) == FoldedWords(Spans(sources[j])[k])
    ensures Quotes(before + copy + after, Needles(sources, minimumWords), minimumChars)
  {
    var span := Spans(sources[j])[k];
    var needles := Needles(sources, minimumWords);
    SpanIsNeedle(Spans(sources[j]), k, minimumWords);
    SourceSpansAreNeedles(sources, j, Normalize(span), minimumWords);
    var i :| 0 <= i < |needles| && needles[i] == Normalize(span);
    NormalizeIdempotent(span);
    CopyIsAligned(before, copy, after);
    QuotesIffAligned(before + copy + after, needles, minimumChars);
  }

  /** Spans written out again with one separator between neighbours. */
  function Weave(spans: seq<string>, separators: string): string
    requires |spans| == |separators| + 1
  {
    if separators == [] then spans[0] else spans[0] + [separators[0]] + Weave(spans[1..], separators[1..])
  }

  predicate NoSeparator(span: string) {
    '.' !in span && '\n' !in span
  }

  lemma {:induction false} SpansHoldNoSeparator(s: string)
    ensures forall k :: 0 <= k < |Spans(s)| ==> NoSeparator(Spans(s)[k])
  {
    if s == [] {
    } else {
      SpansHoldNoSeparator(s[1..]);
      assert NoSeparator(Spans(s[1..])[0]);
    }
  }

  lemma WeavePush(c: char, spans: seq<string>, separators: string)
    requires |spans| == |separators| + 1
    ensures Weave([[c] + spans[0]] + spans[1..], separators) == [c] + Weave(spans, separators)
  {
    assert ([[c] + spans[0]] + spans[1..])[1..] == spans[1..];
  }

  lemma {:induction false} WeaveBack(s: string) returns (separators: string)
    ensures forall i :: 0 <= i < |separators| ==> separators[i] == '.' || separators[i] == '\n'
    ensures |Spans(s)| == |separators| + 1 && Weave(Spans(s), separators) == s
  {
    if s == [] {
      separators := [];
    } else {
      var rest := Spans(s[1..]);
      separators := WeaveBack(s[1..]);
      if s[0] == '.' || s[0] == '\n' {
        separators := [s[0]] + separators;
        assert Spans(s)[1..] == rest;
      } else {
        WeavePush(s[0], rest, separators);
      }
    }
  }

  /** Splitting loses only the separators: the spans contain none, and put back between
      them they give the source text again. */
  lemma SpansWeaveBack(s: string) returns (separators: string)
    ensures forall k :: 0 <= k < |Spans(s)| ==> NoSeparator(Spans(s)[k])
    ensures forall i :: 0 <= i < |separators| ==> separators[i] == '.' || separators[i] == '\n'
    ensures |Spans(s)| == |separators| + 1 && Weave(Spans(s), separators) == s
  {
    SpansHoldNoSeparator(s);
    separators := WeaveBack(s);
  }
}
