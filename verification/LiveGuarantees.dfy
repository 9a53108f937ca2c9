/** What every run of a live session keeps, over all interleavings. */
module LiveGuarantees {
  import opened Text
  import opened LiveSession

  // ------------------------------------------------------------ induction on runs

  /** Views of a log grow with its entries. */
  lemma ReceivedPush(log: seq<Entry>, e: Entry)
    ensures ReceivedEvents(log + [e]) == ReceivedEvents(log) + if e.Received? then [e.event] else []
  {
    DropLast(log, e);
  }

  lemma ForwardedPush(log: seq<Entry>, e: Entry)
    ensures ForwardedEvents(log + [e]) == ForwardedEvents(log) + if e.Forwarded? then [e.event] else []
  {
    DropLast(log, e);
  }

  lemma EnqueuedPush(log: seq<Entry>, e: Entry)
    ensures EnqueuedCalls(log + [e]) == EnqueuedCalls(log) + if e.Enqueued? then [e.call] else []
  {
    DropLast(log, e);
  }

  lemma SettledPush(log: seq<Entry>, e: Entry)
    ensures SettledCalls(log + [e])
         == SettledCalls(log) + if e.Skipped? || e.Finished? || e.Abandoned? then [e.call] else []
  {
    DropLast(log, e);
  }

  lemma TracePush(log: seq<Entry>, e: Entry)
    ensures WorkerTrace(log + [e]) == WorkerTrace(log) + if IsWorkerEntry(e) then [Moment(e, CancelledIds(log))] else []
  {
    DropLast(log, e);
  }

  lemma NoticesPush(log: seq<Entry>, e: Entry)
    ensures HostNotices(log + [e]) == HostNotices(log) + if (e.Started? || e.Finished?) && e.heard then [e] else []
  {
    DropLast(log, e);
  }

  lemma HandedPush(log: seq<Entry>, e: Entry)
    ensures HandedCalls(log + [e]) == HandedCalls(log) + if e.Enqueued? || e.Refused? then [e.call] else []
  {
    DropLast(log, e);
  }

  lemma CancelledPush(log: seq<Entry>, e: Entry)
    ensures CancelledIds(log + [e]) == CancelledIds(log) + if e.Cancelled? then ToSet(e.ids) else {}
  {
    DropLast(log, e);
  }

  // --------------------------------------------------- conservation of calls

  function InFlight(w: Worker): seq<ToolCall> {
    if InHand(w) then [w.call] else []
  }

  /** Every enqueued call is settled, in the worker's hand, or still queued, in arrival order. */
  predicate Conserved(s: State) {
    && EnqueuedCalls(s.log) == SettledCalls(s.log) + InFlight(s.worker) + s.queue
    && |s.queue| <= CALL_CAPACITY
  }

  predicate Settles(e: Entry) {
    e.Skipped? || e.Finished? || e.Abandoned?
  }

  /** The ways a step can move calls. */
  predicate Moves(s: State, t: State) {
    || (t.log == s.log && t.queue == s.queue && InFlight(t.worker) == InFlight(s.worker))
    || (|t.log| == |s.log| + 1 && t.log[..|s.log|] == s.log
        && var e := t.log[|s.log|];
           if e.Enqueued? then
             t.queue == s.queue + [e.call] && |s.queue| < CALL_CAPACITY && InFlight(t.worker) == InFlight(s.worker)
           else if e.Taken? then
             s.queue == [e.call] + t.queue && InFlight(s.worker) == [] && InFlight(t.worker) == [e.call]
           else if Settles(e) then t.queue == s.queue && InFlight(s.worker) == [e.call] && InFlight(t.worker) == []
           else t.queue == s.queue && InFlight(t.worker) == InFlight(s.worker))
  }

  lemma StepMoves(s: State, a: Action)
    requires Next(s, a).Some?
    ensures Moves(s, Next(s, a).value)
  {
    if a.WorkerTake? {
      assert s.queue == [s.queue[0]] + s.queue[1..];
    }
  }

  lemma MoveConserves(s: State, t: State)
    requires Conserved(s) && Moves(s, t)
    ensures Conserved(t)
  {
    if t.log != s.log {
      var e := t.log[|s.log|];
      assert t.log == s.log + [e];
      EnqueuedPush(s.log, e);
      SettledPush(s.log, e);
      MoveInLine(EnqueuedCalls(s.log), SettledCalls(s.log), InFlight(s.worker), s.queue,
                 InFlight(t.worker), t.queue, e);
    }
  }

  /** Appending to the line, taking its first call and settling the one in hand keep it in order. */
  lemma MoveInLine(enqueued: seq<ToolCall>, settled: seq<ToolCall>, inHand: seq<ToolCall>, queue: seq<ToolCall>,
                   nextHand: seq<ToolCall>, nextQueue: seq<ToolCall>, e: Entry)
    requires enqueued == settled + inHand + queue
    requires
      if e.Enqueued? then nextQueue == queue + [e.call] && nextHand == inHand
      else if e.Taken? then queue == [e.call] + nextQueue && inHand == [] && nextHand == [e.call]
      else if Settles(e) then nextQueue == queue && inHand == [e.call] && nextHand == []
      else nextQueue == queue && nextHand == inHand
    ensures enqueued + (if e.Enqueued? then [e.call] else [])
         == settled + (if e.Skipped? || e.Finished? || e.Abandoned? then [e.call] else []) + nextHand + nextQueue
  {
  }

  lemma {:induction false} AlwaysConserved(actions: seq<Action>)
    requires Run(actions).Some?
    ensures Conserved(Run(actions).value)
  {
    if actions == [] {
    } else {
      AlwaysConserved(actions[..|actions| - 1]);
      StepMoves(Run(actions[..|actions| - 1]).value, actions[|actions| - 1]);
      MoveConserves(Run(actions[..|actions| - 1]).value, Run(actions).value);
    }
  }

  // ------------------------------------------------- the worker's decisions

  /** How the cancelled ids of the moment decide what the worker does. */
  predicate Decides(m: Moment) {
    match m.entry
    case Skipped(call) => call.id in m.cancelledBefore
    case Cleared(call) => call.id !in m.cancelledBefore
    case Rechecked(call, _, wasCancelled) => wasCancelled == (call.id in m.cancelledBefore)
    case _ => true
  }

  /** What the worker may do right after `last`, its previous entry. */
  predicate Follows(last: Option<Entry>, e: Entry) {
    match e
    case Taken(_) => last.None? || last.value.Skipped? || last.value.Finished?
    case Skipped(c) => last == Some(Taken(c))
    case Cleared(c) => last == Some(Taken(c))
    case Started(c, _) => last == Some(Cleared(c))
    case Executed(c, _) => last.Some? && last.value.Started? && last.value.call == c
    case Rechecked(c, x, _) => last == Some(Executed(c, x))
    case Sent(c, x) => last == Some(Rechecked(c, x, false))
    case Undeliverable(c, x) => last == Some(Rechecked(c, x, false))
    case Finished(c, x, b, _) =>
      if b then last == Some(Rechecked(c, x, true)) else last == Some(Sent(c, x)) || last == Some(Undeliverable(c, x))
    case Abandoned(c) => last.Some? && IsWorkerEntry(last.value) && !Settles(last.value) && last.value.call == c
    case _ => false
  }

  /** The worker's position is told by its last entry. */
  predicate StandsAfter(w: Worker, last: Option<Entry>) {
    match w
    case Waiting => last.None? || last.value.Skipped? || last.value.Finished?
    case Deciding(c) => last == Some(Taken(c))
    case Starting(c) => last == Some(Cleared(c))
    case Running(c) => last.Some? && last.value.Started? && last.value.call == c
    case Rechecking(c, x) => last == Some(Executed(c, x))
    case Sending(c, x) => last == Some(Rechecked(c, x, false))
    case Finishing(c, x, b) =>
      if b then last == Some(Rechecked(c, x, true)) else last == Some(Sent(c, x)) || last == Some(Undeliverable(c, x))
    case WorkerDone => last.None? || Settles(last.value)
  }

  function LastEntry(trace: seq<Moment>): Option<Entry> {
    if trace == [] then None else Some(trace[|trace| - 1].entry)
  }

  predicate Growing(trace: seq<Moment>) {
    forall i, j :: 0 <= i <= j < |trace| ==> trace[i].cancelledBefore <= trace[j].cancelledBefore
  }

  predicate Orderly(trace: seq<Moment>) {
    trace == [] ||
      var front, m := trace[..|trace| - 1], trace[|trace| - 1];
      Orderly(front) && Follows(LastEntry(front), m.entry) && Decides(m)
  }

  predicate OrderSound(s: State) {
    var trace := WorkerTrace(s.log);
    s.cancelled == CancelledIds(s.log) && Orderly(trace) && StandsAfter(s.worker, LastEntry(trace))
  }

  /** The ids cancelled before each entry only grow, up to those cancelled now. */
  predicate GrowthSound(trace: seq<Moment>, cancelled: set<string>) {
    Growing(trace) && forall i :: 0 <= i < |trace| ==> trace[i].cancelledBefore <= cancelled
  }

  predicate WorkerSound(s: State) {
    OrderSound(s) && GrowthSound(WorkerTrace(s.log), s.cancelled)
  }

  /** The ways a step can involve the worker and the cancelled ids. */
  ghost predicate Works(s: State, t: State) {
    if t.log == s.log then
      t.cancelled == s.cancelled && (t.worker == s.worker || (s.worker.Waiting? && t.worker.WorkerDone?))
    else
      && |t.log| == |s.log| + 1 && t.log[..|s.log|] == s.log
      && var e := t.log[|s.log|];
         if e.Cancelled? then t.cancelled == s.cancelled + ToSet(e.ids) && t.worker == s.worker
         else if !IsWorkerEntry(e) then t.cancelled == s.cancelled && t.worker == s.worker
         else
           && t.cancelled == s.cancelled && Decides(Moment(e, s.cancelled))
           && (forall last :: StandsAfter(s.worker, last) ==> Follows(last, e))
           && StandsAfter(t.worker, Some(e))
  }

  predicate IsWorkerAction(a: Action) {
    a.WorkerCheck? || a.WorkerStart? || a.WorkerExecute? || a.WorkerRecheck? || a.WorkerSend? || a.WorkerFinish?
  }

  lemma WorkerStepWorks(s: State, a: Action)
    requires IsWorkerAction(a) && Next(s, a).Some?
    ensures Works(s, Next(s, a).value)
  {
  }

  predicate IsDriverAction(a: Action) {
    a.ProviderEvent? || a.ProviderEnd? || a.DriverEnqueue? || a.DriverCancel? || a.DriverForward? || a.DriverAbort?
  }

  lemma DriverStepWorks(s: State, a: Action)
    requires IsDriverAction(a) && Next(s, a).Some?
    ensures Works(s, Next(s, a).value)
  {
  }

  lemma OtherStepWorks(s: State, a: Action)
    requires !IsWorkerAction(a) && !IsDriverAction(a) && Next(s, a).Some?
    ensures Works(s, Next(s, a).value)
  {
  }

  lemma StepWorks(s: State, a: Action)
    requires Next(s, a).Some?
    ensures Works(s, Next(s, a).value)
  {
    if IsWorkerAction(a) {
      WorkerStepWorks(s, a);
    } else if IsDriverAction(a) {
      DriverStepWorks(s, a);
    } else {
      OtherStepWorks(s, a);
    }
  }

  lemma OrderlyPush(trace: seq<Moment>, m: Moment)
    requires Orderly(trace) && Follows(LastEntry(trace), m.entry) && Decides(m)
    ensures Orderly(trace + [m]) && LastEntry(trace + [m]) == Some(m.entry)
  {
    assert (trace + [m])[..|trace|] == trace;
  }

  lemma GrowthPush(trace: seq<Moment>, cancelled: set<string>, e: Entry)
    requires GrowthSound(trace, cancelled)
    ensures GrowthSound(trace + [Moment(e, cancelled)], cancelled)
  {
  }

  lemma GrowthWidens(trace: seq<Moment>, cancelled: set<string>, more: set<string>)
    requires GrowthSound(trace, cancelled) && cancelled <= more
    ensures GrowthSound(trace, more)
  {
  }

  lemma TraceOfQuiet(log: seq<Entry>, e: Entry)
    requires !IsWorkerEntry(e)
    ensures WorkerTrace(log + [e]) == WorkerTrace(log)
  {
    TracePush(log, e);
    assert WorkerTrace(log) + [] == WorkerTrace(log);
  }

  lemma WorkKeepsOrder(s: State, t: State)
    requires OrderSound(s) && Works(s, t)
    ensures OrderSound(t)
  {
    if t.log != s.log {
      var e := t.log[|s.log|];
      assert t.log == s.log + [e];
      CancelledPush(s.log, e);
      if IsWorkerEntry(e) {
        TracePush(s.log, e);
        OrderlyPush(WorkerTrace(s.log), Moment(e, s.cancelled));
      } else {
        TraceOfQuiet(s.log, e);
      }
    }
  }

  lemma WorkKeepsGrowth(s: State, t: State)
    requires OrderSound(s) && GrowthSound(WorkerTrace(s.log), s.cancelled) && Works(s, t)
    ensures GrowthSound(WorkerTrace(t.log), t.cancelled)
  {
    if t.log != s.log {
      var e := t.log[|s.log|];
      assert t.log == s.log + [e];
      if IsWorkerEntry(e) {
        TracePush(s.log, e);
        GrowthPush(WorkerTrace(s.log), s.cancelled, e);
      } else {
        TraceOfQuiet(s.log, e);
        GrowthWidens(WorkerTrace(s.log), s.cancelled, t.cancelled);
      }
    }
  }

  lemma WorkKeepsSound(s: State, t: State)
    requires WorkerSound(s) && Works(s, t)
    ensures WorkerSound(t)
  {
    WorkKeepsOrder(s, t);
    WorkKeepsGrowth(s, t);
  }

  lemma {:induction false} WorkerAlwaysSound(actions: seq<Action>)
    requires Run(actions).Some?
    ensures WorkerSound(Run(actions).value)
  {
    if actions == [] {
    } else {
      WorkerAlwaysSound(actions[..|actions| - 1]);
      StepWorks(Run(actions[..|actions| - 1]).value, actions[|actions| - 1]);
      WorkKeepsSound(Run(actions[..|actions| - 1]).value, Run(actions).value);
    }
  }

  lemma {:induction false} OrderlyAt(trace: seq<Moment>, k: nat)
    requires Orderly(trace) && k < |trace|
    ensures Follows(if k == 0 then None else Some(trace[k - 1].entry), trace[k].entry) && Decides(trace[k])
    decreases |trace|
  {
    if k == |trace| - 1 {
    } else {
      OrderlyAt(trace[..|trace| - 1], k);
    }
  }

  lemma ReachableIsSound(s: State)
    requires Reachable(s)
    ensures WorkerSound(s) && Conserved(s)
  {
    var actions :| Run(actions) == Some(s);
    WorkerAlwaysSound(actions);
    AlwaysConserved(actions);
  }

  /** A call whose id was cancelled before the worker took it is skipped, never started. */
  lemma {:induction false} CancelledBeforeTakenIsNeverStarted(s: State, trace: seq<Moment>, k: nat, call: ToolCall)
    requires Reachable(s) && trace == WorkerTrace(s.log)
    requires k + 1 < |trace| && trace[k].entry == Taken(call) && call.id in trace[k].cancelledBefore
    ensures trace[k + 1].entry == Skipped(call) || trace[k + 1].entry == Abandoned(call)
  {
    ReachableIsSound(s);
    OrderlyAt(trace, k + 1);
    assert trace[k].cancelledBefore <= trace[k + 1].cancelledBefore;
  }

  /** A start is always preceded by taking the call and finding it not cancelled. */
  lemma {:induction false} StartedWasCleared(s: State, trace: seq<Moment>, k: nat)
    requires Reachable(s) && trace == WorkerTrace(s.log) && k < |trace| && trace[k].entry.Started?
    ensures var call := trace[k].entry.call;
            && k >= 2 && trace[k - 2].entry == Taken(call) && trace[k - 1].entry == Cleared(call)
            && call.id !in trace[k - 1].cancelledBefore
  {
    ReachableIsSound(s);
    OrderlyAt(trace, k);
    OrderlyAt(trace, k - 1);
  }

  /**
   * A finished call ran through its whole episode without interruption. Its result was
   * handed to the provider exactly when its id was not cancelled at the check after the tool
   * ran, and the finished notice carries exactly that bit and the result's error flag.
   */
  lemma {:induction false} FinishedTellsWhetherSent(s: State, trace: seq<Moment>, k: nat)
    requires Reachable(s) && trace == WorkerTrace(s.log) && k < |trace| && trace[k].entry.Finished?
    ensures var Finished(call, isError, wasCancelled, _) := trace[k].entry;
            var r := if wasCancelled then k - 1 else k - 2;
            && EpisodeAt(trace, r, call, isError, wasCancelled)
            && (wasCancelled <==> call.id in trace[r].cancelledBefore)
            && (!wasCancelled ==> trace[k - 1].entry in {Sent(call, isError), Undeliverable(call, isError)})
  {
    ReachableIsSound(s);
    OrderlyAt(trace, k);
    EpisodeBefore(trace, if trace[k].entry.wasCancelled then k - 1 else k - 2, k);
  }

  /** The entries of one executed call, up to the check after the tool ran. */
  predicate EpisodeAt(trace: seq<Moment>, r: int, call: ToolCall, isError: bool, wasCancelled: bool) {
    && 4 <= r < |trace|
    && trace[r].entry == Rechecked(call, isError, wasCancelled)
    && trace[r - 1].entry == Executed(call, isError)
    && trace[r - 2].entry.Started? && trace[r - 2].entry.call == call
    && trace[r - 3].entry == Cleared(call) && trace[r - 4].entry == Taken(call)
  }

  lemma {:induction false} EpisodeBefore(trace: seq<Moment>, r: int, k: nat)
    requires Orderly(trace) && k < |trace| && trace[k].entry.Finished?
    requires r == if trace[k].entry.wasCancelled then k - 1 else k - 2
    ensures EpisodeAt(trace, r, trace[k].entry.call, trace[k].entry.isError, trace[k].entry.wasCancelled)
    ensures Decides(trace[r])
  {
    OrderlyAt(trace, k);
    OrderlyAt(trace, k - 1);
    assert r >= 0 && trace[r].entry.Rechecked?;
    OrderlyAt(trace, r);
    OrderlyAt(trace, r - 1);
    OrderlyAt(trace, r - 2);
    OrderlyAt(trace, r - 3);
  }

  /** A result goes out only for a call found not cancelled after its tool ran. */
  lemma {:induction false} SentWasNotCancelled(s: State, trace: seq<Moment>, k: nat)
    requires Reachable(s) && trace == WorkerTrace(s.log) && k < |trace| && trace[k].entry.Sent?
    ensures var Sent(call, isError) := trace[k].entry;
            && k >= 1 && trace[k - 1].entry == Rechecked(call, isError, false)
            && call.id !in trace[k - 1].cancelledBefore
            && (k + 1 < |trace| && !trace[k + 1].entry.Abandoned? ==>
                  trace[k + 1].entry.Finished? && trace[k + 1].entry.call == call && !trace[k + 1].entry.wasCancelled)
  {
    ReachableIsSound(s);
    OrderlyAt(trace, k);
    OrderlyAt(trace, k - 1);
    if k + 1 < |trace| {
      OrderlyAt(trace, k + 1);
    }
  }
}
