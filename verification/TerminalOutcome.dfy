/** Typed terminal outcomes and their ranked merge (crates/tinyagents-harness/src/terminal.rs). */
module TerminalOutcome {
  import opened Text

  datatype LimitKind = ModelCalls | ToolCalls | WallClock
  datatype FailoverReason =
    | Auth | AuthPermanent | Billing | RateLimit | Overloaded | LimitExceeded | StreamIdleTimeout
    | CallTimeout | Format | ContextOverflow | ModelNotFound | EmptyResponse | Transport | Unknown
  datatype TimeoutPhase = BeforeProvider | Provider | AfterTurn
  datatype Class = Success | TimedOut | Cancellation | Failure | Suspended

  datatype Reason =
    | Completed
    | LimitReached(kind: Option<LimitKind>)
    | Timeout
    | Cancelled
    | Paused
    | Deferred
    | Halted
    | ProviderFailed(cause: Option<FailoverReason>)
    | ToolFailed
    | ToolRefused
    | Internal
  {
    function Class(): Class {
      match this
      case Completed => Success
      case Timeout => TimedOut
      case ProviderFailed(Some(CallTimeout)) => TimedOut
      case ProviderFailed(Some(StreamIdleTimeout)) => TimedOut
      case Cancelled => Cancellation
      case Paused => Suspended
      case Deferred => Suspended
      case _ => Failure
    }

    /** Precedence; lower wins. */
    function Rank(): nat {
      match this
      case Cancelled => 0
      case Timeout => 1
      case ProviderFailed(Some(CallTimeout)) => 2
      case ProviderFailed(Some(StreamIdleTimeout)) => 2
      case LimitReached(_) => 3
      case Halted => 4
      case ProviderFailed(_) => 5
      case ToolFailed => 5
      case ToolRefused => 5
      case Internal => 5
      case Paused => 6
      case Deferred => 6
      case Completed => 7
    }
  }

  datatype Outcome = Outcome(
    reason: Reason, cls: Class, phase: Option<TimeoutPhase>, providerStarted: bool, message: string)

  function New(reason: Reason, message: string): Outcome {
    Outcome(reason, reason.Class(), None, false, message)
  }

  function LimitStop(kind: Option<LimitKind>, message: string): Outcome {
    if kind == Some(WallClock) then New(Timeout, message) else New(LimitReached(kind), message)
  }

  function WithLimitKind(o: Outcome, kind: Option<LimitKind>): Outcome {
    if o.reason == LimitReached(None) then
      var reason := if kind == Some(WallClock) then Timeout else LimitReached(kind);
      o.(reason := reason, cls := reason.Class())
    else o
  }

  function WithProviderStarted(o: Outcome, started: bool): Outcome {
    o.(providerStarted := started)
  }

  function WithTimeoutPhase(o: Outcome, phase: TimeoutPhase): Outcome {
    o.(phase := Some(phase))
  }

  function Merge(held: Outcome, other: Outcome): Outcome {
    var started := held.providerStarted || other.providerStarted;
    WithProviderStarted(if other.reason.Rank() < held.reason.Rank() then other else held, started)
  }

  // --------------------------------------------------------- class consistency

  /** Every way the module's own operations can put an outcome together. */
  datatype Build =
    | BuildNew(reason: Reason, message: string)
    | BuildLimit(kind: Option<LimitKind>, message: string)
    | FillKind(of: Build, fill: Option<LimitKind>)
    | SetStarted(of: Build, started: bool)
    | SetPhase(of: Build, phase: TimeoutPhase)
    | MergeOf(held: Build, other: Build)

  function Built(b: Build): Outcome {
    match b
    case BuildNew(reason, message) => New(reason, message)
    case BuildLimit(kind, message) => LimitStop(kind, message)
    case FillKind(of, fill) => WithLimitKind(Built(of), fill)
    case SetStarted(of, started) => WithProviderStarted(Built(of), started)
    case SetPhase(of, phase) => WithTimeoutPhase(Built(of), phase)
    case MergeOf(held, other) => Merge(Built(held), Built(other))
  }

  /** However an outcome is built, updated and merged, its class is the class of its reason. */
  lemma {:induction false} BuiltClassMatchesReason(b: Build)
    ensures Built(b).cls == Built(b).reason.Class()
  {
    match b
    case BuildNew(_, _) =>
    case BuildLimit(_, _) =>
    case FillKind(of, _) => BuiltClassMatchesReason(of);
    case SetStarted(of, _) => BuiltClassMatchesReason(of);
    case SetPhase(of, _) => BuiltClassMatchesReason(of);
    case MergeOf(held, other) => BuiltClassMatchesReason(held); BuiltClassMatchesReason(other);
  }

  /** Filling in the kind later gives the outcome that knowing it from the start would have. */
  lemma LateKindIsKind(kind: Option<LimitKind>, message: string, later: Option<LimitKind>)
    ensures WithLimitKind(LimitStop(None, message), kind) == LimitStop(kind, message)
    ensures kind.Some? ==> WithLimitKind(LimitStop(kind, message), later) == LimitStop(kind, message)
  {
  }

  // -------------------------------------------------------------------- merging

  /** A bracketing of competing outcomes. */
  datatype Bracketing = Leaf(outcome: Outcome) | Node(left: Bracketing, right: Bracketing)

  function Merged(t: Bracketing): Outcome {
    match t case Leaf(o) => o case Node(l, r) => Merge(Merged(l), Merged(r))
  }

  function Leaves(t: Bracketing): (os: seq<Outcome>)
    ensures os != []
  {
    match t case Leaf(o) => [o] case Node(l, r) => Leaves(l) + Leaves(r)
  }

  predicate AnyStarted(os: seq<Outcome>) {
    exists i :: 0 <= i < |os| && os[i].providerStarted
  }

  /** `i` is the first outcome of least rank. */
  predicate FirstLeast(os: seq<Outcome>, i: nat) {
    && i < |os|
    && (forall j :: 0 <= j < |os| ==> os[i].reason.Rank() <= os[j].reason.Rank())
    && (forall j :: 0 <= j < i ==> os[i].reason.Rank() < os[j].reason.Rank())
  }

  lemma AnyStartedConcat(a: seq<Outcome>, b: seq<Outcome>)
    ensures AnyStarted(a + b) == (AnyStarted(a) || AnyStarted(b))
  {
    if AnyStarted(a) {
      var i :| 0 <= i < |a| && a[i].providerStarted;
      assert (a + b)[i].providerStarted;
    }
    if AnyStarted(b) {
      var i :| 0 <= i < |b| && b[i].providerStarted;
      assert (a + b)[|a| + i].providerStarted;
    }
    if AnyStarted(a + b) {
      var i :| 0 <= i < |a + b| && (a + b)[i].providerStarted;
      assert if i < |a| then a[i].providerStarted else b[i - |a|].providerStarted;
    }
  }

  /** Any bracketing yields the first outcome of least rank, marked as having reached the
      provider exactly when some outcome had. */
  lemma {:induction false} MergedIsFirstLeast(t: Bracketing) returns (i: nat)
    ensures FirstLeast(Leaves(t), i)
    ensures Merged(t) == Leaves(t)[i].(providerStarted := AnyStarted(Leaves(t)))
  {
    match t
    case Leaf(o) =>
      i := 0;
      assert Leaves(t)[0].providerStarted == AnyStarted([o]);
    case Node(l, r) =>
      var a := MergedIsFirstLeast(l);
      var b := MergedIsFirstLeast(r);
      AnyStartedConcat(Leaves(l), Leaves(r));
      i := FirstLeastConcat(Leaves(l), a, Leaves(r), b);
  }

  /** The first least outcome of two lists is that of one of them, the left one on a tie. */
  lemma FirstLeastConcat(a: seq<Outcome>, i: nat, b: seq<Outcome>, j: nat) returns (k: nat)
    requires FirstLeast(a, i) && FirstLeast(b, j)
    ensures FirstLeast(a + b, k)
    ensures (a + b)[k] == if b[j].reason.Rank() < a[i].reason.Rank() then b[j] else a[i]
  {
    k := if b[j].reason.Rank() < a[i].reason.Rank() then |a| + j else i;
    assert forall n :: 0 <= n < |a| ==> (a + b)[n] == a[n];
    assert forall n :: |a| <= n < |a + b| ==> (a + b)[n] == b[n - |a|];
  }

  /** So the order in which competing outcomes are merged pairwise does not matter. */
  lemma BracketingDoesNotMatter(s: Bracketing, t: Bracketing)
    requires Leaves(s) == Leaves(t)
    ensures Merged(s) == Merged(t)
  {
    var i := MergedIsFirstLeast(s);
    var j := MergedIsFirstLeast(t);
    assert i == j;
  }

  // ------------------------------------------------------------- precedence

  /** The reasons that have a rank of their own, and the two last classes. */
  lemma RankTells(r: Reason)
    ensures r.Rank() == 0 <==> r == Cancelled
    ensures r.Rank() == 1 <==> r == Timeout
    ensures r.Rank() == 6 <==> r.Class() == Suspended
    ensures r.Rank() >= 7 <==> r == Completed
    ensures r.Rank() >= 6 <==> r.Class() == Suspended || r.Class() == Success
  {
  }

  predicate HasReason(os: seq<Outcome>, reason: Reason) {
    exists i :: 0 <= i < |os| && os[i].reason == reason
  }

  lemma CancelledWins(os: seq<Outcome>, k: nat)
    requires FirstLeast(os, k)
    ensures os[k].reason == Cancelled <==> HasReason(os, Cancelled)
  {
    RankTells(os[k].reason);
  }

  lemma TimeoutComesNext(os: seq<Outcome>, k: nat)
    requires FirstLeast(os, k)
    ensures os[k].reason == Timeout <==> !HasReason(os, Cancelled) && HasReason(os, Timeout)
  {
    RankTells(os[k].reason);
  }

  lemma CompletedNeedsAll(os: seq<Outcome>, k: nat)
    requires FirstLeast(os, k)
    ensures os[k].reason == Completed <==> forall i :: 0 <= i < |os| ==> os[i].reason == Completed
  {
    forall i | 0 <= i < |os| ensures os[i].reason.Rank() >= 7 <==> os[i].reason == Completed {
      RankTells(os[i].reason);
    }
  }

  predicate NoneFailed(os: seq<Outcome>) {
    forall i :: 0 <= i < |os| ==> os[i].reason.Class() == Suspended || os[i].reason.Class() == Success
  }

  predicate SomeSuspended(os: seq<Outcome>) {
    exists i :: 0 <= i < |os| && os[i].reason.Class() == Suspended
  }

  lemma SuspendedNeedsNoFailure(os: seq<Outcome>, k: nat)
    requires FirstLeast(os, k)
    ensures os[k].reason.Class() == Suspended <==> NoneFailed(os) && SomeSuspended(os)
  {
    forall i | 0 <= i < |os| ensures os[i].reason.Rank() == 6 <==> os[i].reason.Class() == Suspended {
      RankTells(os[i].reason);
    }
    forall i | 0 <= i < |os|
      ensures os[i].reason.Rank() >= 6 <==> os[i].reason.Class() == Suspended || os[i].reason.Class() == Success
    {
      RankTells(os[i].reason);
    }
  }

  /** The documented precedence, read off the merged result: a cancel beats everything, a timeout
      everything else, only an all-successful merge succeeds, and a suspension survives only among
      successes. */
  lemma MergedPrecedence(t: Bracketing)
    ensures Merged(t).reason == Cancelled <==> HasReason(Leaves(t), Cancelled)
    ensures Merged(t).reason == Timeout <==> !HasReason(Leaves(t), Cancelled) && HasReason(Leaves(t), Timeout)
    ensures Merged(t).reason == Completed <==> forall i :: 0 <= i < |Leaves(t)| ==> Leaves(t)[i].reason == Completed
    ensures Merged(t).reason.Class() == Suspended <==> NoneFailed(Leaves(t)) && SomeSuspended(Leaves(t))
  {
    var k := MergedIsFirstLeast(t);
    CancelledWins(Leaves(t), k);
    TimeoutComesNext(Leaves(t), k);
    CompletedNeedsAll(Leaves(t), k);
    SuspendedNeedsNoFailure(Leaves(t), k);
  }
}
