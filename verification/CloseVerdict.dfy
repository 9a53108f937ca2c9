/** Parsing of the verifier's answer (crates/tinyagents-harness/src/close.rs). */
module CloseVerdict {
  import opened Text

  datatype Verdict = Accept | Reject | Unclear

  const ACCEPT_WORD := "ACCEPT"
  const REJECT_WORD := "REJECT"

  /** The pieces between non-letters, as `split(|c| !c.is_ascii_alphabetic())`. */
  function LetterRuns(s: string): (runs: seq<string>)
    ensures runs != []
  {
    if s == [] then [""]
    else
      var rest := LetterRuns(s[1..]);
      if !IsAlpha(s[0]) then [""] + rest else [[s[0]] + rest[0]] + rest[1..]
  }

  function TokenVerdict(token: string): Option<Verdict> {
    if Upper(token) == ACCEPT_WORD then Some(Accept)
    else if Upper(token) == REJECT_WORD then Some(Reject)
    else None
  }

  /** The last recognised token decides. */
  function LastVerdict(tokens: seq<string>): Verdict {
    if tokens == [] then Unclear
    else match TokenVerdict(tokens[|tokens| - 1])
      case Some(v) => v
      case None => LastVerdict(tokens[..|tokens| - 1])
  }

  function Parse(text: string): Verdict {
    LastVerdict(LetterRuns(text))
  }

  // ------------------------------------------------ reference: positions in the text

  /** `word` stands at position `i` of `s` in any letter case, with no letter on either side. */
  predicate StandsAt(s: string, word: string, i: int) {
    && 0 <= i && i + |word| <= |s| && Upper(s[i..i + |word|]) == word
    && (i == 0 || !IsAlpha(s[i - 1]))
    && (i + |word| == |s| || !IsAlpha(s[i + |word|]))
  }

  /** The verdict word standing at position `i`, if any. */
  function VerdictAt(s: string, i: int): Option<Verdict> {
    if StandsAt(s, ACCEPT_WORD, i) then Some(Accept)
    else if StandsAt(s, REJECT_WORD, i) then Some(Reject)
    else None
  }

  // -------------------------------------------------------------------- proof

  /** The verdict words of a text, one entry for each position. */
  function Marks(s: string): (marks: seq<Option<Verdict>>)
    ensures |marks| == |s| + 1 && forall i :: 0 <= i <= |s| ==> marks[i] == VerdictAt(s, i)
    ensures Some(Unclear) !in marks
  {
    seq(|s| + 1, i => VerdictAt(s, i))
  }

  function LastMark(marks: seq<Option<Verdict>>): Verdict {
    if marks == [] then Unclear
    else match marks[|marks| - 1]
      case Some(v) => v
      case None => LastMark(marks[..|marks| - 1])
  }

  lemma {:induction false} LastMarkConcat(a: seq<Option<Verdict>>, b: seq<Option<Verdict>>)
    requires Some(Unclear) !in b
    ensures LastMark(a + b) == if LastMark(b) != Unclear then LastMark(b) else LastMark(a)
  {
    if b == [] {
      assert a + b == a;
    } else {
      assert (a + b)[..|a + b| - 1] == a + b[..|b| - 1];
      LastMarkConcat(a, b[..|b| - 1]);
    }
  }

  lemma {:induction false} LastMarkSpec(marks: seq<Option<Verdict>>, v: Verdict)
    requires Some(Unclear) !in marks
    ensures LastMark(marks) == Unclear <==> forall i :: 0 <= i < |marks| ==> marks[i] == None
    ensures v != Unclear ==>
      (LastMark(marks) == v <==>
       exists i :: 0 <= i < |marks| && marks[i] == Some(v) && forall j :: i < j < |marks| ==> marks[j] == None)
  {
    if marks == [] {
    } else {
      var n := |marks| - 1;
      LastMarkSpec(marks[..n], v);
      if marks[n] == None && v != Unclear && LastMark(marks) == v {
        var i :| 0 <= i < n && marks[..n][i] == Some(v) && forall j :: i < j < n ==> marks[..n][j] == None;
        assert marks[i] == Some(v) && forall j :: i < j < |marks| ==> marks[j] == None;
      }
    }
  }

  /** The leading letters of a text. */
  function RunLength(s: string): (n: nat)
    ensures n <= |s| && (forall i :: 0 <= i < n ==> IsAlpha(s[i])) && (n < |s| ==> !IsAlpha(s[n]))
  {
    if s == [] || !IsAlpha(s[0]) then 0 else 1 + RunLength(s[1..])
  }

  lemma {:induction false} RunsUnfold(s: string)
    ensures var n := RunLength(s);
            LetterRuns(s) == if n == |s| then [s] else [s[..n]] + LetterRuns(s[n + 1..])
  {
    if s == [] || !IsAlpha(s[0]) {
    } else {
      RunsUnfold(s[1..]);
      var n := RunLength(s);
      assert RunLength(s[1..]) == n - 1;
      if n == |s| {
        assert s == [s[0]] + s[1..];
      } else {
        assert s[1..][n..] == s[n + 1..];
        assert s[..n] == [s[0]] + s[1..][..n - 1];
      }
    }
  }

  lemma {:induction false} LastVerdictPrepend(first: string, rest: seq<string>)
    ensures LastVerdict([first] + rest)
         == if LastVerdict(rest) != Unclear then LastVerdict(rest) else LastVerdict([first])
  {
    if rest == [] {
      assert [first] + rest == [first];
    } else {
      LastVerdictPrepend(first, rest[..|rest| - 1]);
      assert ([first] + rest)[..|rest|] == [first] + rest[..|rest| - 1];
    }
  }

  predicate AllLetters(w: string) {
    forall i :: 0 <= i < |w| ==> IsAlpha(w[i])
  }

  lemma WordIsLetters(s: string, word: string, i: int)
    requires StandsAt(s, word, i) && AllLetters(word)
    ensures forall k :: i <= k < i + |word| ==> IsAlpha(s[k])
  {
    var t := s[i..i + |word|];
    forall k | i <= k < i + |word| ensures IsAlpha(s[k]) {
      assert t[k - i] == s[k];
      assert Upper(t)[k - i] == word[k - i];
    }
  }

  /** A word that begins within the first run is that whole run. */
  lemma StandsInFirstRun(s: string, word: string, i: int)
    requires AllLetters(word) && word != [] && 0 <= i <= RunLength(s)
    ensures StandsAt(s, word, i) <==> i == 0 && Upper(s[..RunLength(s)]) == word
  {
    if StandsAt(s, word, i) {
      WordIsLetters(s, word, i);
      assert IsAlpha(s[i]);
      assert RunLength(s) == i + |word|;
    }
  }

  /** A word behind a separator stands in the text after that separator. */
  lemma StandsBehind(s: string, word: string, m: nat, j: nat)
    requires 0 < m <= |s| && !IsAlpha(s[m - 1])
    ensures StandsAt(s, word, m + j) <==> StandsAt(s[m..], word, j)
  {
    var t, n := s[m..], |word|;
    if m + j + n <= |s| {
      assert t[j..j + n] == s[m + j..m + j + n];
      assert j > 0 ==> t[j - 1] == s[m + j - 1];
      assert j + n < |t| ==> t[j + n] == s[m + j + n];
    }
  }

  /** Marks of the first run: only its start can carry one. */
  lemma MarksOfFirstRun(s: string)
    ensures var n := RunLength(s);
            n < |Marks(s)| && LastMark(Marks(s)[..n + 1]) == LastVerdict([s[..n]])
  {
    var n := RunLength(s);
    var run := s[..n];
    forall k | 0 <= k <= n ensures VerdictAt(s, k) == if k == 0 then TokenVerdict(run) else None {
      StandsInFirstRun(s, ACCEPT_WORD, k);
      StandsInFirstRun(s, REJECT_WORD, k);
    }
    assert [run][..0] == [];
    LastMarkOfHead(Marks(s)[..n + 1]);
  }

  lemma {:induction false} LastMarkOfHead(marks: seq<Option<Verdict>>)
    requires marks != [] && forall i :: 1 <= i < |marks| ==> marks[i] == None
    ensures LastMark(marks) == if marks[0].Some? then marks[0].value else Unclear
  {
    if |marks| == 1 {
    } else {
      LastMarkOfHead(marks[..|marks| - 1]);
    }
  }

  lemma MarksBehind(s: string, m: nat)
    requires 0 < m <= |s| && !IsAlpha(s[m - 1])
    ensures Marks(s)[m..] == Marks(s[m..])
  {
    forall j | 0 <= j <= |s| - m ensures VerdictAt(s, m + j) == VerdictAt(s[m..], j) {
      StandsBehind(s, ACCEPT_WORD, m, j);
      StandsBehind(s, REJECT_WORD, m, j);
    }
  }

  lemma SplitMarks(marks: seq<Option<Verdict>>, n: nat)
    requires n <= |marks|
    ensures marks == marks[..n] + marks[n..]
  {
  }

  lemma JoinMarks(first: string, runs: seq<string>, head: seq<Option<Verdict>>, tail: seq<Option<Verdict>>)
    requires LastMark(head) == LastVerdict([first]) && LastMark(tail) == LastVerdict(runs)
    requires Some(Unclear) !in tail
    ensures LastMark(head + tail) == LastVerdict([first] + runs)
  {
    LastVerdictPrepend(first, runs);
    LastMarkConcat(head, tail);
  }

  /** Splitting into letter runs finds the same last verdict as looking at every position. */
  lemma {:induction false} ParseIsLastMark(s: string)
    ensures Parse(s) == LastMark(Marks(s))
    decreases |s|
  {
    var n := RunLength(s);
    RunsUnfold(s);
    MarksOfFirstRun(s);
    if n == |s| {
      assert s[..n] == s && Marks(s)[..n + 1] == Marks(s);
    } else {
      var rest := s[n + 1..];
      ParseIsLastMark(rest);
      MarksBehind(s, n + 1);
      JoinMarks(s[..n], LetterRuns(rest), Marks(s)[..n + 1], Marks(rest));
      SplitMarks(Marks(s), n + 1);
    }
  }

  /** The verdict is the last verdict word standing alone in the text, in any letter case;
      a text with none is unclear. */
  lemma VerdictIsLastStandingWord(s: string, v: Verdict)
    ensures Parse(s) == Unclear <==> forall i :: 0 <= i <= |s| ==> VerdictAt(s, i) == None
    ensures v != Unclear ==>
      (Parse(s) == v <==>
       exists i :: 0 <= i <= |s| && VerdictAt(s, i) == Some(v) && forall j :: i < j <= |s| ==> VerdictAt(s, j) == None)
  {
    var marks := Marks(s);
    ParseIsLastMark(s);
    LastMarkSpec(marks, v);
    assert forall i :: 0 <= i <= |s| ==> marks[i] == VerdictAt(s, i);
  }
}
