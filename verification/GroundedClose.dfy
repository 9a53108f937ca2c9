/**
 * The one-repair closing state machine (crates/tinyagents-harness/src/close.rs).
 *
 * The model and the verifier are an arbitrary script: each request gets a stream of items
 * (or an invocation result) that ends after an arbitrary delay. Time is counted in
 * nanoseconds since the close started; arbitrary pauses may precede each request.
 */
module GroundedClose {
  import opened Text

  /** How texts are judged: which candidates quote an instruction, which verifier answers
      accept, and in which texts the tool dialect finds a call. */
  datatype Policy = Policy(quotes: string -> bool, accepts: string -> bool, toolSyntax: string -> bool)

  datatype Usage = Usage(inputTokens: nat, outputTokens: nat, cacheReadTokens: nat)
  datatype Response = Response(text: string, usage: Option<Usage>, toolCalls: nat)

  datatype Item = Delta(text: string) | Completed(response: Response) | Failed | ProviderFailed | Deferred | Other

  /** What the model does with one request: its stream (`None` when it cannot be opened), the
      result of a plain invocation, and how long that takes. */
  datatype Reply = Reply(stream: Option<seq<Item>>, invoked: Option<Response>, delay: nat)

  datatype Kind = Generation | Verification
  datatype Violation = NoReply | QuotedInstruction | Unverified

  /** How one request ended: never sent for lack of time, timed out, or ended by itself,
      with a completed response and the text streamed before it, or without one. */
  datatype Ending = NotSent | TimedOut | Ended(response: Option<Response>, streamed: string)

  datatype Call = Call(kind: Kind, prompt: string, startedAt: nat, endedAt: nat, ending: Ending)
  datatype Note = Note(kind: Kind, response: Option<Response>)
  datatype Answer = Answer(text: string, usage: seq<Usage>, hasToolCall: bool)
  datatype Output = Output(text: string, usage: seq<Usage>)

  datatype Config = Config(
    initialPrompt: string,
    verificationPrompt: string -> string,
    repairInstruction: Violation -> string,
    policy: Policy,
    budget: Option<nat>,
    fallback: string,
    streaming: bool,
    observed: bool)

  // ------------------------------------------------------------ one request

  predicate EndsStream(item: Item) {
    item.Completed? || item.Failed? || item.ProviderFailed? || item.Deferred?
  }

  function DeltaText(items: seq<Item>): string {
    if items == [] then ""
    else
      var last := items[|items| - 1];
      DeltaText(items[..|items| - 1]) + (if last.Delta? then last.text else "")
  }

  /** Item `k` is the first that ends the stream (or the stream ends without one) and yields
      this response, with the text streamed before it. */
  predicate EndsAt(items: seq<Item>, k: nat, response: Option<Response>, streamed: string) {
    && k <= |items|
    && (forall j :: 0 <= j < k ==> !EndsStream(items[j]))
    && (k < |items| ==> EndsStream(items[k]))
    && response == (if k < |items| && items[k].Completed? then Some(items[k].response) else None)
    && streamed == (if response.Some? then DeltaText(items[..k]) else "")
  }

  /** Reading a stream from the front, with the text seen so far. */
  function StreamResult(items: seq<Item>, buffered: string): (Option<Response>, string) {
    if items == [] then (None, "")
    else match items[0]
      case Delta(text) => StreamResult(items[1..], buffered + text)
      case Completed(response) => (Some(response), buffered)
      case Other => StreamResult(items[1..], buffered)
      case _ => (None, "")
  }

  /** The first ending item alone decides a stream, and exactly the text before it is kept. */
  lemma {:induction false} StreamEndsAtFirst(items: seq<Item>, i: nat) returns (k: nat)
    requires i <= |items| && forall j :: 0 <= j < i ==> !EndsStream(items[j])
    ensures var result := StreamResult(items[i..], DeltaText(items[..i])); EndsAt(items, k, result.0, result.1)
    decreases |items| - i
  {
    if i == |items| || EndsStream(items[i]) {
      k := i;
    } else {
      assert items[..i + 1][..i] == items[..i];
      assert items[i..][1..] == items[i + 1..];
      assert !items[i].Delta? ==> DeltaText(items[..i + 1]) == DeltaText(items[..i]);
      k := StreamEndsAtFirst(items, i + 1);
    }
  }

  method ConsumeStream(items: seq<Item>) returns (response: Option<Response>, streamed: string)
    ensures (response, streamed) == StreamResult(items, "")
  {
    var buffered := "";
    var i := 0;
    while i < |items|
      invariant 0 <= i <= |items| && StreamResult(items[i..], buffered) == StreamResult(items, "")
    {
      assert items[i..][1..] == items[i + 1..];
      match items[i] {
        case Delta(text) =>
          buffered := buffered + text;
        case Completed(r) =>
          return Some(r), buffered;
        case Other =>
        case _ =>
          return None, "";
      }
      i := i + 1;
    }
    response, streamed := None, "";
  }

  function TimeLeft(budget: Option<nat>, now: nat): Option<nat> {
    if budget.None? then None else Some(SaturatingSub(budget.value, now))
  }

  /** How a request with this much time left ends. */
  function EndingOf(reply: Reply, left: Option<nat>, streaming: bool): Ending {
    if left == Some(0) then NotSent
    else if left.Some? && reply.delay > left.value then TimedOut
    else if !streaming then Ended(reply.invoked, "")
    else if reply.stream.None? then Ended(None, "")
    else var (response, streamed) := StreamResult(reply.stream.value, ""); Ended(response, streamed)
  }

  function Duration(reply: Reply, left: Option<nat>): nat {
    if left == Some(0) then 0
    else if left.Some? && reply.delay > left.value then left.value
    else reply.delay
  }

  predicate Answered(ending: Ending) {
    ending.Ended? && ending.response.Some?
  }

  /** The text of an answered request: the streamed text stands in for a blank response. */
  function AnswerText(cfg: Config, ending: Ending): string
    requires Answered(ending)
  {
    if cfg.streaming && Trim(ending.response.value.text) == "" then ending.streamed else ending.response.value.text
  }

  predicate CallsTool(cfg: Config, ending: Ending)
    requires Answered(ending)
  {
    ending.response.value.toolCalls > 0 || cfg.policy.toolSyntax(AnswerText(cfg, ending))
  }

  function UsageOf(ending: Ending): seq<Usage> {
    if Answered(ending) && ending.response.value.usage.Some? then [ending.response.value.usage.value] else []
  }

  /** The observer hears of every request that ended by itself, and of no other. */
  function NoteOf(cfg: Config, kind: Kind, ending: Ending): seq<Note> {
    if cfg.streaming && cfg.observed && ending.Ended? then [Note(kind, ending.response)] else []
  }

  method Completion(cfg: Config, kind: Kind, left: Option<nat>, reply: Reply)
      returns (answer: Option<Answer>, ending: Ending, notes: seq<Note>)
    ensures ending == EndingOf(reply, left, cfg.streaming)
    ensures notes == NoteOf(cfg, kind, ending)
    ensures Tells(cfg, ending, answer)
  {
    notes := [];
    if left == Some(0) {
      return None, NotSent, notes;
    }
    var response: Option<Response>;
    var streamed := "";
    var onTime := left.None? || reply.delay <= left.value;
    if !onTime {
      return None, TimedOut, notes;
    }
    if cfg.streaming {
      if reply.stream.Some? {
        response, streamed := ConsumeStream(reply.stream.value);
      } else {
        response := None;
      }
      if cfg.observed {
        notes := [Note(kind, response)];
      }
    } else {
      response := reply.invoked;
    }
    ending := Ended(response, streamed);
    if response.None? {
      return None, ending, notes;
    }
    var text := if cfg.streaming && Trim(response.value.text) == "" then streamed else response.value.text;
    var hasToolCall := response.value.toolCalls > 0 || cfg.policy.toolSyntax(text);
    var usage := if response.value.usage.Some? then [response.value.usage.value] else [];
    answer := Some(Answer(text, usage, hasToolCall));
  }

  // ----------------------------------------------------- what a close must be

  /** Why a generated answer is rejected before it is verified. */
  function Screened(cfg: Config, ending: Ending): Option<Violation> {
    if !Answered(ending) then Some(NoReply)
    else if Trim(AnswerText(cfg, ending)) == "" || CallsTool(cfg, ending) then Some(NoReply)
    else if cfg.policy.quotes(Trim(AnswerText(cfg, ending))) then Some(QuotedInstruction)
    else None
  }

  predicate Accepts(cfg: Config, ending: Ending) {
    Answered(ending) && !CallsTool(cfg, ending) && cfg.policy.accepts(AnswerText(cfg, ending))
  }

  /** One attempt: a generation, and a verification of exactly its text if it passed screening. */
  predicate IsAttempt(cfg: Config, prompt: string, calls: seq<Call>) {
    && 1 <= |calls| <= 2
    && calls[0].kind == Generation && calls[0].prompt == prompt
    && (|calls| == 2 <==> Screened(cfg, calls[0].ending) == None)
    && (|calls| == 2 ==>
          && calls[1].kind == Verification
          && calls[1].prompt == cfg.verificationPrompt(Trim(AnswerText(cfg, calls[0].ending))))
  }

  function AttemptViolation(cfg: Config, calls: seq<Call>): Option<Violation>
    requires 1 <= |calls| <= 2
  {
    if |calls| == 1 then Screened(cfg, calls[0].ending)
    else if Accepts(cfg, calls[1].ending) then None
    else Some(Unverified)
  }

  /** Text of a close whose attempts were `first` and, when that one failed, `second`. */
  predicate IsResult(cfg: Config, first: seq<Call>, second: seq<Call>, text: string) {
    && IsAttempt(cfg, cfg.initialPrompt, first)
    && var rejected := AttemptViolation(cfg, first);
       if rejected.None? then |first| == 2 && second == [] && text == Trim(AnswerText(cfg, first[0].ending))
       else
         && IsAttempt(cfg, cfg.repairInstruction(rejected.value), second)
         && if AttemptViolation(cfg, second).None?
            then |second| == 2 && text == Trim(AnswerText(cfg, second[0].ending))
            else text == cfg.fallback
  }

  /** The usages of all answered requests, in order. */
  function Usages(calls: seq<Call>): seq<Usage> {
    if calls == [] then [] else UsageOf(calls[0].ending) + Usages(calls[1..])
  }

  /** Everything the observer hears, in order. */
  function Notes(cfg: Config, calls: seq<Call>): seq<Note> {
    if calls == [] then [] else NoteOf(cfg, calls[0].kind, calls[0].ending) + Notes(cfg, calls[1..])
  }

  /** A request that goes as the script says for the time it had left. */
  predicate Goes(cfg: Config, reply: Reply, call: Call) {
    var left := TimeLeft(cfg.budget, call.startedAt);
    && call.ending == EndingOf(reply, left, cfg.streaming)
    && call.endedAt == call.startedAt + Duration(reply, left)
  }

  /** Requests run one after the other, each as the script says. */
  predicate Scripted(cfg: Config, replies: nat -> Reply, calls: seq<Call>) {
    && (forall i :: 0 <= i < |calls| ==> Goes(cfg, replies(i), calls[i]))
    && (forall i, j :: 0 <= i < j < |calls| ==> calls[i].endedAt <= calls[j].startedAt)
  }

  // ------------------------------------------------------------- the machine

  /** What the program learns from a request. */
  predicate Tells(cfg: Config, ending: Ending, answer: Option<Answer>) {
    && (answer.Some? <==> Answered(ending))
    && (answer.Some? ==>
          answer.value == Answer(AnswerText(cfg, ending), UsageOf(ending), CallsTool(cfg, ending)))
  }

  lemma PushScripted(cfg: Config, replies: nat -> Reply, before: seq<Call>, call: Call)
    requires Scripted(cfg, replies, before) && Goes(cfg, replies(|before|), call)
    requires before != [] ==> before[|before| - 1].endedAt <= call.startedAt
    ensures Scripted(cfg, replies, before + [call])
  {
    if before != [] {
      var last := before[|before| - 1];
      assert Goes(cfg, replies(|before| - 1), last);
      assert forall i :: 0 <= i < |before| ==> before[i].endedAt <= last.endedAt;
    }
  }

  lemma {:induction false} NotesConcat(cfg: Config, a: seq<Call>, b: seq<Call>)
    ensures Notes(cfg, a + b) == Notes(cfg, a) + Notes(cfg, b)
  {
    if a == [] {
      assert a + b == b;
    } else {
      assert (a + b)[1..] == a[1..] + b;
      NotesConcat(cfg, a[1..], b);
    }
  }

  lemma {:induction false} UsagesConcat(a: seq<Call>, b: seq<Call>)
    ensures Usages(a + b) == Usages(a) + Usages(b)
  {
    if a == [] {
      assert a + b == b;
    } else {
      assert (a + b)[1..] == a[1..] + b;
      UsagesConcat(a[1..], b);
    }
  }

  /** Send request number `k` at time `now`. */
  method Send(cfg: Config, replies: nat -> Reply, k: nat, kind: Kind, prompt: string, now: nat)
      returns (answer: Option<Answer>, call: Call, notes: seq<Note>)
    ensures call.kind == kind && call.prompt == prompt && call.startedAt == now
    ensures Goes(cfg, replies(k), call) && Tells(cfg, call.ending, answer)
    ensures notes == NoteOf(cfg, kind, call.ending)
  {
    var left := TimeLeft(cfg.budget, now);
    var ending;
    answer, ending, notes := Completion(cfg, kind, left, replies(k));
    call := Call(kind, prompt, now, now + Duration(replies(k), left), ending);
  }

  /** Screen a generated answer before it is verified. */
  method Screen(cfg: Config, answer: Option<Answer>, ghost ending: Ending)
      returns (violation: Option<Violation>, candidate: string, usage: seq<Usage>)
    requires Tells(cfg, ending, answer)
    ensures violation == Screened(cfg, ending) && usage == UsageOf(ending)
    ensures Answered(ending) ==> candidate == Trim(AnswerText(cfg, ending))
  {
    if answer.None? {
      return Some(NoReply), "", [];
    }
    usage, candidate := answer.value.usage, Trim(answer.value.text);
    if candidate == "" || answer.value.hasToolCall {
      violation := Some(NoReply);
    } else if cfg.policy.quotes(candidate) {
      violation := Some(QuotedInstruction);
    } else {
      violation := None;
    }
  }

  /** Have the candidate verified; anything but a clear acceptance rejects it. */
  method Verify(cfg: Config, replies: nat -> Reply, k: nat, candidate: string, now: nat)
      returns (violation: Option<Violation>, usage: seq<Usage>, checked: Call, notes: seq<Note>)
    ensures checked.kind == Verification && checked.prompt == cfg.verificationPrompt(candidate)
    ensures checked.startedAt == now && Goes(cfg, replies(k), checked)
    ensures violation == if Accepts(cfg, checked.ending) then None else Some(Unverified)
    ensures usage == UsageOf(checked.ending) && notes == NoteOf(cfg, Verification, checked.ending)
  {
    var verdict;
    verdict, checked, notes := Send(cfg, replies, k, Verification, cfg.verificationPrompt(candidate), now);
    violation, usage := Some(Unverified), [];
    if verdict.Some? {
      usage := verdict.value.usage;
      if !verdict.value.hasToolCall && cfg.policy.accepts(verdict.value.text) {
        violation := None;
      }
    }
  }

  /** The requests of an attempt that starts with request number `k`, not before `now`. */
  predicate AttemptGoes(cfg: Config, replies: nat -> Reply, k: nat, now: nat, mine: seq<Call>) {
    && 1 <= |mine| <= 2
    && now <= mine[0].startedAt && Goes(cfg, replies(k), mine[0])
    && (|mine| == 2 ==> mine[0].endedAt <= mine[1].startedAt && Goes(cfg, replies(k + 1), mine[1]))
  }

  lemma SingleBooks(cfg: Config, a: Call)
    ensures Usages([a]) == UsageOf(a.ending) && Notes(cfg, [a]) == NoteOf(cfg, a.kind, a.ending)
  {
    assert [a][1..] == [];
  }

  lemma PairBooks(cfg: Config, a: Call, b: Call)
    ensures Usages([a, b]) == UsageOf(a.ending) + UsageOf(b.ending)
    ensures Notes(cfg, [a, b]) == NoteOf(cfg, a.kind, a.ending) + NoteOf(cfg, b.kind, b.ending)
  {
    assert [a, b][1..] == [b];
    SingleBooks(cfg, b);
  }

  /** One attempt: ask, screen, verify. `violation` is `None` when `candidate` was accepted. */
  method Attempt(cfg: Config, replies: nat -> Reply, pauses: nat -> nat, k: nat, prompt: string, now: nat)
      returns (violation: Option<Violation>, candidate: string, usage: seq<Usage>, mine: seq<Call>, notes: seq<Note>)
    ensures IsAttempt(cfg, prompt, mine) && violation == AttemptViolation(cfg, mine)
    ensures violation.None? ==> |mine| == 2 && candidate == Trim(AnswerText(cfg, mine[0].ending))
    ensures AttemptGoes(cfg, replies, k, now, mine)
    ensures usage == Usages(mine) && notes == Notes(cfg, mine)
  {
    var answer, asked;
    answer, asked, notes := Send(cfg, replies, k, Generation, prompt, now + pauses(k));
    mine := [asked];
    violation, candidate, usage := Screen(cfg, answer, asked.ending);
    if violation.None? {
      var checked, spent, noted;
      violation, spent, checked, noted := Verify(cfg, replies, k + 1, candidate, asked.endedAt + pauses(k + 1));
      PairBooks(cfg, asked, checked);
      mine, usage, notes := [asked, checked], usage + spent, notes + noted;
    } else {
      SingleBooks(cfg, asked);
    }
  }

  /** Appending an attempt to the log. */
  lemma AppendScripted(cfg: Config, replies: nat -> Reply, calls: seq<Call>, now: nat, mine: seq<Call>)
    requires Scripted(cfg, replies, calls) && AttemptGoes(cfg, replies, |calls|, now, mine)
    requires calls != [] ==> calls[|calls| - 1].endedAt <= now
    ensures Scripted(cfg, replies, calls + mine)
  {
    PushScripted(cfg, replies, calls, mine[0]);
    if |mine| == 1 {
      assert calls + mine == calls + [mine[0]];
    } else {
      PushScripted(cfg, replies, calls + [mine[0]], mine[1]);
      assert calls + mine == calls + [mine[0]] + [mine[1]];
    }
  }

  /** Ask, screen, verify, repair at most once, then fall back. */
  method Close(cfg: Config, replies: nat -> Reply, pauses: nat -> nat)
      returns (out: Output, calls: seq<Call>, notes: seq<Note>)
    ensures Scripted(cfg, replies, calls)
    ensures exists first, second :: calls == first + second && IsResult(cfg, first, second, out.text)
    ensures out.usage == Usages(calls)
    ensures notes == Notes(cfg, calls)
  {
    var usage: seq<Usage> := [];
    var prompt := cfg.initialPrompt;
    calls, notes := [], [];
    for attempt := 0 to 2
      invariant Scripted(cfg, replies, calls) && notes == Notes(cfg, calls) && usage == Usages(calls)
      invariant attempt == 0 ==> calls == [] && prompt == cfg.initialPrompt
      invariant attempt == 1 ==> IsAttempt(cfg, cfg.initialPrompt, calls) && AttemptViolation(cfg, calls).Some?
      invariant attempt == 1 ==> prompt == cfg.repairInstruction(AttemptViolation(cfg, calls).value)
      invariant attempt == 2 ==>
        exists first, second :: calls == first + second && IsResult(cfg, first, second, cfg.fallback)
    {
      ghost var earlier := calls;
      var now := if calls == [] then 0 else calls[|calls| - 1].endedAt;
      var violation, candidate, spent, mine, noted := Attempt(cfg, replies, pauses, |calls|, prompt, now);
      AppendScripted(cfg, replies, calls, now, mine);
      NotesConcat(cfg, calls, mine);
      UsagesConcat(calls, mine);
      calls, usage, notes := calls + mine, usage + spent, notes + noted;
      if violation.None? {
        if attempt == 0 {
          assert calls == mine + [] && IsResult(cfg, mine, [], candidate);
        } else {
          assert IsResult(cfg, earlier, mine, candidate);
        }
        return Output(candidate, usage), calls, notes;
      }
      if attempt == 0 {
        assert calls == mine;
        prompt := cfg.repairInstruction(violation.value);
      } else {
        assert IsResult(cfg, earlier, mine, cfg.fallback);
      }
    }
    out := Output(cfg.fallback, usage);
  }

  // ------------------------------------------------------------- main results

  function Count(calls: seq<Call>, kind: Kind): nat {
    if calls == [] then 0 else (if calls[0].kind == kind then 1 else 0) + Count(calls[1..], kind)
  }

  lemma CountPair(calls: seq<Call>)
    requires 1 <= |calls| <= 2 && calls[0].kind == Generation && (|calls| == 2 ==> calls[1].kind == Verification)
    ensures Count(calls, Generation) == 1 && Count(calls, Verification) == |calls| - 1
  {
    if |calls| == 2 {
      assert calls[1..] == [calls[1]] && [calls[1]][1..] == [];
      assert Count(calls[1..], Generation) == 0 && Count(calls[1..], Verification) == 1;
    }
  }

  lemma {:induction false} CountConcat(a: seq<Call>, b: seq<Call>, kind: Kind)
    ensures Count(a + b, kind) == Count(a, kind) + Count(b, kind)
  {
    if a == [] {
      assert a + b == b;
    } else {
      assert (a + b)[1..] == a[1..] + b;
      CountConcat(a[1..], b, kind);
    }
  }

  /** Whatever the model does: at most two generations and two verifications, the first prompt is
      the initial one, and a second generation happens exactly when the first attempt was
      rejected, with the repair prompt of that very violation. */
  lemma CallsAreBounded(cfg: Config, first: seq<Call>, second: seq<Call>, text: string)
    requires IsResult(cfg, first, second, text)
    ensures Count(first + second, Generation) <= 2 && Count(first + second, Verification) <= 2
    ensures first[0].prompt == cfg.initialPrompt
    ensures Count(first + second, Generation) == 2 <==> AttemptViolation(cfg, first).Some?
    ensures second != [] <==> AttemptViolation(cfg, first).Some?
    ensures second != [] ==> second[0].prompt == cfg.repairInstruction(AttemptViolation(cfg, first).value)
  {
    CountConcat(first, second, Generation);
    CountConcat(first, second, Verification);
    CountPair(first);
    if second != [] {
      CountPair(second);
    }
  }

  predicate Verified(cfg: Config, calls: seq<Call>, text: string) {
    && |calls| >= 2
    && var asked, checked := calls[|calls| - 2], calls[|calls| - 1];
       && asked.kind == Generation && Answered(asked.ending)
       && text == Trim(AnswerText(cfg, asked.ending)) && text != ""
       && !CallsTool(cfg, asked.ending)
       && !cfg.policy.quotes(text)
       && checked.kind == Verification && checked.prompt == cfg.verificationPrompt(text)
       && Accepts(cfg, checked.ending)
  }

  predicate SomeAccepted(cfg: Config, calls: seq<Call>) {
    exists i :: 0 <= i < |calls| && calls[i].kind == Verification && Accepts(cfg, calls[i].ending)
  }

  /** The close fails closed: its text is the fallback, or a non-empty candidate without tool
      call or quoted phrase which the very last request verified and accepted; and it is such
      a candidate as soon as any verification accepted. */
  lemma TextIsFallbackOrVerified(cfg: Config, first: seq<Call>, second: seq<Call>, text: string)
    requires IsResult(cfg, first, second, text)
    ensures if SomeAccepted(cfg, first + second) then Verified(cfg, first + second, text) else text == cfg.fallback
  {
    var calls := first + second;
    assert forall i :: 0 <= i < |first| ==> calls[i] == first[i];
    assert forall i :: 0 <= i < |second| ==> calls[|first| + i] == second[i];
    if AttemptViolation(cfg, first).None? {
      assert calls == first && SomeAccepted(cfg, calls) by { assert calls[1] == first[1]; }
    } else if AttemptViolation(cfg, second).None? {
      assert SomeAccepted(cfg, calls) by { assert calls[|first| + 1] == second[1]; }
    } else {
      forall i | 0 <= i < |calls| && calls[i].kind == Verification ensures !Accepts(cfg, calls[i].ending) {
        if i < |first| { assert first[i] == first[1]; } else { assert calls[i] == second[1]; }
      }
    }
  }

  /** The whole close keeps to its time budget: a request is sent exactly when time is left,
      and every request that is sent is over when the budget is. */
  lemma CloseKeepsBudget(cfg: Config, replies: nat -> Reply, calls: seq<Call>, i: nat)
    requires Scripted(cfg, replies, calls) && cfg.budget.Some? && i < |calls|
    ensures calls[i].ending == NotSent <==> calls[i].startedAt >= cfg.budget.value
    ensures calls[i].ending != NotSent ==> calls[i].endedAt <= cfg.budget.value
    ensures calls[i].ending == TimedOut ==> calls[i].endedAt == cfg.budget.value
    ensures forall j :: i < j < |calls| && calls[i].ending in {NotSent, TimedOut} ==> calls[j].ending == NotSent
  {
  }
}
