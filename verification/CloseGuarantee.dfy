/**
 * What a finished close guarantees to the user, with the harness's own screening and
 * verdict rules put in (crates/tinyagents-harness/src/close.rs).
 */
module CloseGuarantee {
  import opened Text
  import opened QuoteGuard
  import CloseVerdict
  import opened GroundedClose
  import opened TurnDeadline

  /** The policy judges every text as the quote guard and the verdict parser do. */
  ghost predicate IsHarness(policy: Policy, phrases: seq<string>, minimumChars: nat) {
    forall text :: Judges(policy, phrases, minimumChars, text)
  }

  predicate Judges(policy: Policy, phrases: seq<string>, minimumChars: nat, text: string) {
    && policy.quotes(text) == Quotes(text, phrases, minimumChars)
    && policy.accepts(text) == (CloseVerdict.Parse(text) == CloseVerdict.Accept)
  }

  /** A verdict word standing alone in a verifier's answer with no later verdict word. */
  predicate EndsInAccept(answer: string) {
    exists i :: 0 <= i <= |answer| && CloseVerdict.VerdictAt(answer, i) == Some(CloseVerdict.Accept)
      && forall j :: i < j <= |answer| ==> CloseVerdict.VerdictAt(answer, j) == None
  }

  /** The policy applied to one text. */
  lemma PolicyMeans(policy: Policy, phrases: seq<string>, minimumChars: nat, text: string)
    requires IsHarness(policy, phrases, minimumChars)
    ensures policy.quotes(text) == Quotes(text, phrases, minimumChars)
    ensures policy.accepts(text) <==> EndsInAccept(text)
  {
    assert Judges(policy, phrases, minimumChars, text);
    CloseVerdict.VerdictIsLastStandingWord(text, CloseVerdict.Accept);
  }

  /** If the shown text is not the fallback, it quotes no guarded phrase, and the answer to the
      last request, which verified this very text, had acceptance as its last verdict word. */
  lemma ShownTextIsAccepted(cfg: Config, phrases: seq<string>, minimumChars: nat,
                            first: seq<Call>, second: seq<Call>, text: string)
    requires IsHarness(cfg.policy, phrases, minimumChars)
    requires IsResult(cfg, first, second, text) && text != cfg.fallback
    ensures text != "" && !Quotes(text, phrases, minimumChars)
    ensures first + second != []
    ensures var last := (first + second)[|first + second| - 1];
            && last.prompt == cfg.verificationPrompt(text) && Answered(last.ending)
            && EndsInAccept(AnswerText(cfg, last.ending))
  {
    TextIsFallbackOrVerified(cfg, first, second, text);
    var last := (first + second)[|first + second| - 1];
    PolicyMeans(cfg.policy, phrases, minimumChars, text);
    PolicyMeans(cfg.policy, phrases, minimumChars, AnswerText(cfg, last.ending));
  }

  /**
   * A shown text that is not the fallback copies no directive span: no part of it, in any
   * wrapping or letter case and however it is glued in, has the words of a span that is long
   * enough to be guarded.
   */
  lemma ShownTextCopiesNoDirective(cfg: Config, sources: seq<string>, minimumWords: nat, minimumChars: nat,
                                   first: seq<Call>, second: seq<Call>, text: string,
                                   j: nat, k: nat, before: string, copy: string, after: string)
    requires IsHarness(cfg.policy, Needles(sources, minimumWords), minimumChars)
    requires IsResult(cfg, first, second, text) && text != cfg.fallback
    requires j < |sources| && k < |Spans(sources[j])|
    requires |Words(Spans(sources[j])[k])| >= minimumWords && |Normalize(Spans(sources[j])[k])| >= minimumChars
    requires FoldedWords(copy) == FoldedWords(Spans(sources[j])[k])
    ensures text != before + copy + after
  {
    ShownTextIsAccepted(cfg, Needles(sources, minimumWords), minimumChars, first, second, text);
    RewrappedSpanIsFlagged(sources, j, k, minimumWords, minimumChars, before, copy, after);
  }

  /**
   * A close that starts `lag` after its budget was computed ends every request it sends at most
   * `lag` past the start of the reserve, however the model behaves: within the reserve, and so
   * before the backstop, whenever the lag is shorter than the reserve, and with the whole reserve
   * untouched when there is no lag.
   */
  lemma CloseEndsBeforeBackstop(d: Deadline, now: nat, lag: nat, cfg: Config, replies: nat -> Reply,
                                calls: seq<Call>, i: nat)
    requires cfg.budget == Some(d.CloseBudget(now)) && Scripted(cfg, replies, calls)
    requires i < |calls| && calls[i].ending != NotSent
    ensures var ended := d.ElapsedAt(now + lag) + calls[i].endedAt;
      ended + CLOSE_RESERVE <= d.backstop + lag && (lag < CLOSE_RESERVE ==> ended < d.backstop)
  {
    CloseKeepsBudget(cfg, replies, calls, i);
    CloseLeavesReserve(d, now);
  }

  /** Once the elapsed time reaches into the reserve, nothing is sent and the fallback is shown. */
  lemma LateCloseFallsBack(d: Deadline, now: nat, cfg: Config, replies: nat -> Reply,
                           first: seq<Call>, second: seq<Call>, text: string)
    requires cfg.budget == Some(d.CloseBudget(now)) && d.ElapsedAt(now) + CLOSE_RESERVE >= d.backstop
    requires Scripted(cfg, replies, first + second) && IsResult(cfg, first, second, text)
    ensures forall i :: 0 <= i < |first + second| ==> (first + second)[i].ending == NotSent
    ensures text == cfg.fallback
  {
    CloseLeavesReserve(d, now);
    forall i | 0 <= i < |first + second| ensures (first + second)[i].ending == NotSent {
      CloseKeepsBudget(cfg, replies, first + second, i);
    }
    TextIsFallbackOrVerified(cfg, first, second, text);
  }
}
