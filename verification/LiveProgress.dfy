/** A live session never gets stuck, and between two provider events it comes to rest. */
module LiveProgress {
  import opened Text
  import opened LiveSession
  import opened LiveGuarantees
  import opened LiveDelivery

  /** The session's own steps: those of the driver and the worker, and the host reading. */
  predicate IsOwn(a: Action) {
    || a.DriverEnqueue? || a.DriverCancel? || a.DriverForward?
    || a.WorkerTake? || a.WorkerEnd? || a.WorkerCheck? || a.WorkerStart? || a.WorkerExecute?
    || a.WorkerRecheck? || a.WorkerSend? || a.WorkerFinish? || a.HostReceive?
  }

  /** All read, and either over or waiting for nothing but the provider's next event. */
  predicate AtRest(s: State) {
    && s.unread == 0
    && (|| (s.driver.DriverDone? && s.worker.WorkerDone?)
        || (s.driver.Receiving? && (s.worker.WorkerDone? || (s.worker.Waiting? && s.queue == []))))
  }

  /** An own step that is possible, if the session is not at rest. */
  function Pick(s: State): Action {
    if s.unread > 0 then HostReceive
    else match s.worker
      case Deciding(_) => WorkerCheck
      case Starting(_) => WorkerStart
      case Running(_) => WorkerExecute(false)
      case Rechecking(_, _) => WorkerRecheck
      case Sending(_, _) => WorkerSend(true)
      case Finishing(_, _, _) => WorkerFinish
      case _ =>
        if s.worker.Waiting? && s.queue != [] then WorkerTake
        else match s.driver
          case Enqueuing(_, _) => DriverEnqueue
          case Cancelling(_, _) => DriverCancel
          case Forwarding(_) => DriverForward
          case _ => WorkerEnd
  }

  lemma PickIsPossible(s: State)
    requires !s.hostGone && !AtRest(s)
    ensures IsOwn(Pick(s)) && Next(s, Pick(s)).Some?
  {
  }

  /** With the host present, the session is at rest exactly when no own step is possible: neither full
      channels nor the two tasks waiting for each other can block it. */
  lemma AtRestIffNothingToDo(s: State)
    requires !s.hostGone
    ensures AtRest(s) <==> forall a :: IsOwn(a) ==> Next(s, a).None?
  {
    if !AtRest(s) {
      PickIsPossible(s);
    }
  }

  /** Only the provider can move the session on: by sending an event, or by accepting the result the
      worker is handing over while the driver has nothing else to do or waits for the worker. */
  predicate AwaitsProvider(s: State) {
    && s.unread == 0 && s.worker.Sending?
    && (s.driver.Receiving? || s.driver.DriverDone? || (s.driver.Enqueuing? && |s.queue| >= CALL_CAPACITY))
  }

  /** An own step that does not need the provider to accept a result. */
  predicate IsUnaided(a: Action) {
    IsOwn(a) && !a.WorkerSend?
  }

  /** The same with a provider that may not accept a result for as long as it likes: then, too, the
      session stands still exactly when it is at rest or the provider owes it a move. */
  lemma StandsStillIffProviderOwes(s: State)
    requires !s.hostGone
    ensures AtRest(s) || AwaitsProvider(s) <==> forall a :: IsUnaided(a) ==> Next(s, a).None?
  {
    if !AtRest(s) && !AwaitsProvider(s) {
      var a := if s.worker.Sending? && s.unread == 0 then PickDriver(s.driver) else Pick(s);
      PickIsPossible(s);
      assert IsUnaided(a) && Next(s, a).Some?;
    }
  }

  function PickDriver(d: Driver): Action {
    match d
    case Enqueuing(_, _) => DriverEnqueue
    case Cancelling(_, _) => DriverCancel
    case _ => DriverForward
  }

  // How much there is left to do.

  function DriverWork(d: Driver): nat {
    match d
    case Enqueuing(_, _) => 13
    case Cancelling(_, _) => 3
    case Forwarding(_) => 2
    case _ => 0
  }

  function WorkerWork(w: Worker): nat {
    match w
    case WorkerDone => 0
    case Waiting => 1
    case Finishing(_, _, _) => 3
    case Sending(_, _) => 4
    case Rechecking(_, _) => 5
    case Running(_) => 6
    case Starting(_) => 8
    case Deciding(_) => 9
  }

  /** An upper bound on the own steps still possible without a further provider event. */
  function Work(s: State): nat {
    DriverWork(s.driver) + WorkerWork(s.worker) + 10 * |s.queue| + s.unread
  }

  lemma OwnStepUsesUpWork(s: State, a: Action)
    requires !s.hostGone && IsOwn(a) && Next(s, a).Some?
    ensures !Next(s, a).value.hostGone && Work(Next(s, a).value) < Work(s)
  {
  }

  function RunFrom(s: State, actions: seq<Action>): Option<State>
    decreases |actions|
  {
    if actions == [] then Some(s)
    else match Next(s, actions[0])
      case None => None
      case Some(t) => RunFrom(t, actions[1..])
  }

  predicate AllOwn(actions: seq<Action>) {
    forall i :: 0 <= i < |actions| ==> IsOwn(actions[i])
  }

  /** However the two tasks and the host interleave, they cannot go on for more than `Work` steps
      without a provider event. */
  lemma {:induction false} OwnStepsAreBounded(s: State, actions: seq<Action>)
    requires !s.hostGone && AllOwn(actions) && RunFrom(s, actions).Some?
    ensures !RunFrom(s, actions).value.hostGone
    ensures |actions| + Work(RunFrom(s, actions).value) <= Work(s)
    decreases |actions|
  {
    if actions == [] {
    } else {
      OwnStepUsesUpWork(s, actions[0]);
      OwnStepsAreBounded(Next(s, actions[0]).value, actions[1..]);
    }
  }

  lemma {:induction false} RunFromIsRun(before: seq<Action>, s: State, actions: seq<Action>)
    requires Run(before) == Some(s)
    ensures Run(before + actions) == RunFrom(s, actions) || RunFrom(s, actions).None?
    decreases |actions|
  {
    if actions == [] {
      NothingAdded(before);
    } else if Next(s, actions[0]).Some? {
      RunPush(before, s, actions[0]);
      RunFromIsRun(before + [actions[0]], Next(s, actions[0]).value, actions[1..]);
      MoveFirst(before, actions);
    }
  }

  lemma RunPush(before: seq<Action>, s: State, a: Action)
    requires Run(before) == Some(s)
    ensures Run(before + [a]) == Next(s, a)
  {
    assert (before + [a])[..|before|] == before;
  }

  lemma MoveFirst<T>(a: seq<T>, b: seq<T>)
    requires b != []
    ensures a + b == (a + [b[0]]) + b[1..]
  {
  }

  /**
   * Once the driver is done, any own steps that leave nothing more to do end the session with
   * every requested call settled in order and every event forwarded, unless a call was abandoned;
   * and such steps never number more than the work there was.
   */
  lemma DoneDriverDrains(before: seq<Action>, s: State, actions: seq<Action>, t: State)
    requires Run(before) == Some(s) && !s.hostGone && s.driver.DriverDone? && !Has(s.log, true)
    requires AllOwn(actions) && RunFrom(s, actions) == Some(t) && forall a :: IsOwn(a) ==> Next(t, a).None?
    ensures |actions| <= Work(s)
    ensures t.worker.WorkerDone? && t.unread == 0
    ensures SettledCalls(t.log) == RequestedCalls(ReceivedEvents(t.log))
    ensures ForwardedEvents(t.log) == ReceivedEvents(t.log)
  {
    OwnStepsAreBounded(s, actions);
    OwnStepsKeep(s, actions);
    AtRestIffNothingToDo(t);
    RunFromIsRun(before, s, actions);
    OrderlyEndSettlesEveryCall(t);
  }

  /** Own steps neither revive a driver nor abandon a call. */
  lemma {:induction false} OwnStepsKeep(s: State, actions: seq<Action>)
    requires s.driver.DriverDone? && !Has(s.log, true) && AllOwn(actions) && RunFrom(s, actions).Some?
    ensures var t := RunFrom(s, actions).value; t.driver.DriverDone? && !Has(t.log, true)
    decreases |actions|
  {
    if actions == [] {
    } else {
      OwnStepKeeps(s, actions[0]);
      OwnStepsKeep(Next(s, actions[0]).value, actions[1..]);
    }
  }

  lemma OwnStepKeeps(s: State, a: Action)
    requires s.driver.DriverDone? && !Has(s.log, true) && IsOwn(a) && Next(s, a).Some?
    ensures var t := Next(s, a).value; t.driver.DriverDone? && !Has(t.log, true)
  {
    var t := Next(s, a).value;
    if t.log != s.log {
      var e := t.log[|s.log|];
      assert t.log == s.log + [e];
      HasPush(s.log, e, true);
    }
  }
}
