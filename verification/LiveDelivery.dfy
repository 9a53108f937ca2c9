/** What the host and the provider can rely on at the two ends of a live session. */
module LiveDelivery {
  import opened Text
  import opened LiveSession
  import opened LiveGuarantees

  // -------------------------------------------------------------- the driver

  function Pending(d: Driver): seq<LiveEvent> {
    if d.Enqueuing? || d.Cancelling? || d.Forwarding? then [d.event] else []
  }

  function PendingCall(d: Driver): seq<ToolCall> {
    if d.Enqueuing? then [d.call] else []
  }

  lemma RequestedPush(events: seq<LiveEvent>, e: LiveEvent)
    ensures RequestedCalls(events + [e]) == RequestedCalls(events) + if e.CallRequested? then [e.call] else []
  {
    assert (events + [e])[..|events|] == events;
  }

  /** Received events are forwarded one by one, unchanged and in order, and nothing follows a
      close. Only a host that went away can cost the last event. */
  predicate Relayed(received: seq<LiveEvent>, forwarded: seq<LiveEvent>, driver: Driver, hostGone: bool) {
    && (if driver.DriverDone? then
          forwarded <= received && |received| <= |forwarded| + 1 && (!hostGone ==> forwarded == received)
        else received == forwarded + Pending(driver))
    && (forall i :: 0 <= i < |received| - 1 ==> !received[i].Closed?)
    && (driver.Receiving? ==> received == [] || !received[|received| - 1].Closed?)
  }

  predicate EventsSound(s: State) {
    Relayed(ReceivedEvents(s.log), ForwardedEvents(s.log), s.driver, s.hostGone)
  }

  /** Requested calls are handed over in order; only a host that went away can cost the last. */
  predicate HandedOver(requested: seq<ToolCall>, handed: seq<ToolCall>, driver: Driver, hostGone: bool) {
    if driver.DriverDone? then handed <= requested && (!hostGone ==> handed == requested)
    else requested == handed + PendingCall(driver)
  }

  predicate CallsSound(s: State) {
    HandedOver(RequestedCalls(ReceivedEvents(s.log)), HandedCalls(s.log), s.driver, s.hostGone)
  }

  /** The ways a step can involve the driver. */
  predicate Drives(s: State, t: State) {
    if t.log == s.log then
      || (t.driver == s.driver && (s.hostGone ==> t.hostGone))
      || (t.driver.DriverDone? && !s.driver.DriverDone? && (s.driver.Receiving? || s.hostGone)
          && t.hostGone == s.hostGone)
    else
      && |t.log| == |s.log| + 1 && t.log[..|s.log|] == s.log && t.hostGone == s.hostGone
      && var e := t.log[|s.log|];
         match e
         case Received(event) =>
           && s.driver.Receiving? && Pending(t.driver) == [event]
           && PendingCall(t.driver) == if event.CallRequested? then [event.call] else []
         case Enqueued(call) => s.driver.Enqueuing? && s.driver.call == call && t.driver == Forwarding(s.driver.event)
         case Refused(call) => s.driver.Enqueuing? && s.driver.call == call && t.driver == Forwarding(s.driver.event)
         case Cancelled(_) => s.driver.Cancelling? && t.driver == Forwarding(s.driver.event)
         case Forwarded(event) =>
           s.driver == Forwarding(event) && t.driver == if event.Closed? then DriverDone else Receiving
         case _ => t.driver == s.driver
  }

  lemma DriverStepDrives(s: State, a: Action)
    requires IsDriverAction(a) && Next(s, a).Some?
    ensures Drives(s, Next(s, a).value)
  {
  }

  lemma OtherStepDrives(s: State, a: Action)
    requires !IsDriverAction(a) && Next(s, a).Some?
    ensures Drives(s, Next(s, a).value)
  {
  }

  lemma StepDrives(s: State, a: Action)
    requires Next(s, a).Some?
    ensures Drives(s, Next(s, a).value)
  {
    if IsDriverAction(a) {
      DriverStepDrives(s, a);
    } else {
      OtherStepDrives(s, a);
    }
  }

  lemma RelayReceive(received: seq<LiveEvent>, forwarded: seq<LiveEvent>, hostGone: bool,
                     event: LiveEvent, next: Driver)
    requires Relayed(received, forwarded, Receiving, hostGone) && Pending(next) == [event]
    ensures Relayed(received + [event], forwarded, next, hostGone)
  {
  }

  lemma RelayForward(received: seq<LiveEvent>, forwarded: seq<LiveEvent>, hostGone: bool,
                     event: LiveEvent, next: Driver)
    requires Relayed(received, forwarded, Forwarding(event), hostGone)
    requires next == if event.Closed? then DriverDone else Receiving
    ensures Relayed(received, forwarded + [event], next, hostGone)
  {
    assert received == forwarded + [event];
  }

  lemma EventsQuiet(log: seq<Entry>, e: Entry)
    requires !e.Received? && !e.Forwarded?
    ensures ReceivedEvents(log + [e]) == ReceivedEvents(log) && ForwardedEvents(log + [e]) == ForwardedEvents(log)
  {
    ReceivedPush(log, e);
    ForwardedPush(log, e);
    NothingAdded(ReceivedEvents(log));
    NothingAdded(ForwardedEvents(log));
  }

  lemma NothingAdded<T>(s: seq<T>)
    ensures s + [] == s
  {
  }

  lemma DriveKeepsEvents(s: State, t: State)
    requires EventsSound(s) && Drives(s, t)
    ensures EventsSound(t)
  {
    var received, forwarded := ReceivedEvents(s.log), ForwardedEvents(s.log);
    if t.log != s.log {
      var e := t.log[|s.log|];
      assert t.log == s.log + [e];
      if e.Received? {
        ReceivedPush(s.log, e);
        ForwardedPush(s.log, e);
        NothingAdded(forwarded);
        RelayReceive(received, forwarded, s.hostGone, e.event, t.driver);
      } else if e.Forwarded? {
        ReceivedPush(s.log, e);
        ForwardedPush(s.log, e);
        NothingAdded(received);
        RelayForward(received, forwarded, s.hostGone, e.event, t.driver);
      } else {
        EventsQuiet(s.log, e);
      }
    }
  }

  lemma HandReceive(requested: seq<ToolCall>, handed: seq<ToolCall>, hostGone: bool, next: Driver)
    requires HandedOver(requested, handed, Receiving, hostGone) && !next.DriverDone?
    ensures HandedOver(requested + PendingCall(next), handed, next, hostGone)
  {
    NothingAdded(handed);
  }

  lemma HandCall(requested: seq<ToolCall>, handed: seq<ToolCall>, hostGone: bool, call: ToolCall, event: LiveEvent)
    requires HandedOver(requested, handed, Enqueuing(call, event), hostGone)
    ensures HandedOver(requested, handed + [call], Forwarding(event), hostGone)
  {
    NothingAdded(handed + [call]);
  }

  lemma HandNothing(requested: seq<ToolCall>, handed: seq<ToolCall>, hostGone: bool, driver: Driver, next: Driver)
    requires HandedOver(requested, handed, driver, hostGone) && PendingCall(driver) == [] && PendingCall(next) == []
    requires driver.DriverDone? ==> next.DriverDone?
    ensures HandedOver(requested, handed, next, hostGone)
  {
    NothingAdded(handed);
  }

  lemma CallsQuiet(log: seq<Entry>, e: Entry)
    requires !e.Received? && !e.Enqueued? && !e.Refused?
    ensures RequestedCalls(ReceivedEvents(log + [e])) == RequestedCalls(ReceivedEvents(log))
    ensures HandedCalls(log + [e]) == HandedCalls(log)
  {
    CallsPush(log, e);
    NothingAdded(RequestedCalls(ReceivedEvents(log)));
    NothingAdded(HandedCalls(log));
  }

  lemma DriveKeepsCalls(s: State, t: State)
    requires CallsSound(s) && Drives(s, t)
    ensures CallsSound(t)
  {
    var requested, handed := RequestedCalls(ReceivedEvents(s.log)), HandedCalls(s.log);
    if t.log != s.log {
      var e := t.log[|s.log|];
      assert t.log == s.log + [e];
      if e.Received? {
        CallsPush(s.log, e);
        NothingAdded(handed);
        HandReceive(requested, handed, s.hostGone, t.driver);
      } else if e.Enqueued? || e.Refused? {
        CallsPush(s.log, e);
        NothingAdded(requested);
        HandCall(requested, handed, s.hostGone, e.call, s.driver.event);
      } else {
        CallsQuiet(s.log, e);
        if t.driver != s.driver {
          HandNothing(requested, handed, s.hostGone, s.driver, t.driver);
        }
      }
    }
  }

  /** What one entry adds to the calls requested and handed over. */
  lemma CallsPush(log: seq<Entry>, e: Entry)
    ensures RequestedCalls(ReceivedEvents(log + [e]))
         == RequestedCalls(ReceivedEvents(log))
            + if e.Received? && e.event.CallRequested? then [e.event.call] else []
    ensures HandedCalls(log + [e]) == HandedCalls(log) + if e.Enqueued? || e.Refused? then [e.call] else []
  {
    ReceivedPush(log, e);
    HandedPush(log, e);
    if e.Received? {
      RequestedPush(ReceivedEvents(log), e.event);
    } else {
      NothingAdded(ReceivedEvents(log));
      NothingAdded(RequestedCalls(ReceivedEvents(log)));
    }
  }

  lemma {:induction false} DriverAlwaysSound(actions: seq<Action>)
    requires Run(actions).Some?
    ensures EventsSound(Run(actions).value) && CallsSound(Run(actions).value)
  {
    if actions == [] {
    } else {
      DriverAlwaysSound(actions[..|actions| - 1]);
      StepDrives(Run(actions[..|actions| - 1]).value, actions[|actions| - 1]);
      DriveKeepsEvents(Run(actions[..|actions| - 1]).value, Run(actions).value);
      DriveKeepsCalls(Run(actions[..|actions| - 1]).value, Run(actions).value);
    }
  }

  /** The events the host can ever get from the provider are a prefix of what the provider sent,
      ending no later than its first close. */
  lemma ForwardedIsPrefixToFirstClose(s: State)
    requires Reachable(s)
    ensures ForwardedEvents(s.log) <= ReceivedEvents(s.log)
    ensures forall i :: 0 <= i < |ForwardedEvents(s.log)| - 1 ==> !ForwardedEvents(s.log)[i].Closed?
    ensures forall i :: 0 <= i < |ReceivedEvents(s.log)| - 1 ==> !ReceivedEvents(s.log)[i].Closed?
    ensures |ReceivedEvents(s.log)| <= |ForwardedEvents(s.log)| + 1
  {
    var actions :| Run(actions) == Some(s);
    DriverAlwaysSound(actions);
  }

  // ---------------------------------------------------- notices heard by the host

  /** Reading start and finish notices in order: none open, one call open, or a mismatch. */
  datatype Bracket = Idle | Open(call: ToolCall) | Bad

  function Brackets(notices: seq<Entry>): Bracket {
    if notices == [] then Idle
    else
      var e := notices[|notices| - 1];
      match Brackets(notices[..|notices| - 1])
      case Idle => if e.Started? then Open(e.call) else Bad
      case Open(call) => if e.Finished? && e.call == call then Idle else Bad
      case Bad => Bad
  }

  predicate NoticesSound(s: State) {
    var b := Brackets(HostNotices(s.log));
    && !b.Bad?
    && (!s.hostGone ==>
          match s.worker
          case WorkerDone => true
          case Waiting => b == Idle
          case Deciding(_) => b == Idle
          case Starting(_) => b == Idle
          case _ => b == Open(s.worker.call))
  }

  predicate BeforeStart(w: Worker) {
    w.Waiting? || w.Deciding? || w.Starting?
  }

  /** The ways a step can involve the notices. */
  predicate Notifies(s: State, t: State) {
    && (s.hostGone ==> t.hostGone)
    && if t.log == s.log then t.worker == s.worker || t.worker.WorkerDone?
       else
         && |t.log| == |s.log| + 1 && t.log[..|s.log|] == s.log && t.hostGone == s.hostGone
         && var e := t.log[|s.log|];
            match e
            case Started(call, heard) => heard == !s.hostGone && s.worker == Starting(call) && t.worker == Running(call)
            case Finished(call, _, _, heard) =>
              heard == !s.hostGone && s.worker.Finishing? && s.worker.call == call && t.worker.Waiting?
            case _ =>
              || t.worker.WorkerDone? || (BeforeStart(s.worker) && BeforeStart(t.worker))
              || (InHand(s.worker) && InHand(t.worker) && !BeforeStart(s.worker) && !BeforeStart(t.worker)
                  && t.worker.call == s.worker.call)
  }

  lemma WorkerStepNotifies(s: State, a: Action)
    requires IsWorkerAction(a) && Next(s, a).Some?
    ensures Notifies(s, Next(s, a).value)
  {
  }

  lemma OtherStepNotifies(s: State, a: Action)
    requires !IsWorkerAction(a) && Next(s, a).Some?
    ensures Notifies(s, Next(s, a).value)
  {
  }

  lemma StepNotifies(s: State, a: Action)
    requires Next(s, a).Some?
    ensures Notifies(s, Next(s, a).value)
  {
    if IsWorkerAction(a) {
      WorkerStepNotifies(s, a);
    } else {
      OtherStepNotifies(s, a);
    }
  }

  lemma NotifyKeepsSound(s: State, t: State)
    requires NoticesSound(s) && Notifies(s, t)
    ensures NoticesSound(t)
  {
    if t.log != s.log {
      var e := t.log[|s.log|];
      assert t.log == s.log + [e];
      NoticesPush(s.log, e);
      var notices := HostNotices(s.log);
      assert notices + [] == notices;
      assert (notices + [e])[..|notices|] == notices;
    }
  }

  /** Start and finish notices come in matching pairs with at most one call open, in every run. */
  lemma {:induction false} NoticesArePaired(actions: seq<Action>)
    requires Run(actions).Some?
    ensures NoticesSound(Run(actions).value)
  {
    if actions == [] {
    } else {
      NoticesArePaired(actions[..|actions| - 1]);
      StepNotifies(Run(actions[..|actions| - 1]).value, actions[|actions| - 1]);
      NotifyKeepsSound(Run(actions[..|actions| - 1]).value, Run(actions).value);
    }
  }

  // ------------------------------------------------------------ nothing is lost

  predicate Has(log: seq<Entry>, abandoned: bool) {
    exists i :: 0 <= i < |log| && if abandoned then log[i].Abandoned? else log[i].Refused?
  }

  lemma HasPush(log: seq<Entry>, e: Entry, abandoned: bool)
    ensures Has(log + [e], abandoned) == (Has(log, abandoned) || if abandoned then e.Abandoned? else e.Refused?)
  {
    var all := log + [e];
    assert all[|log|] == e;
    if Has(log, abandoned) {
      var i :| 0 <= i < |log| && if abandoned then log[i].Abandoned? else log[i].Refused?;
      assert all[i] == log[i];
    }
    if Has(all, abandoned) {
      var i :| 0 <= i < |all| && if abandoned then all[i].Abandoned? else all[i].Refused?;
      assert i < |log| ==> log[i] == all[i];
    }
  }

  /** Without an abort or a panic, the worker ends only after the driver, with an empty queue. */
  predicate EndsSound(s: State) {
    !s.hostGone && !Has(s.log, true) ==>
      && !Has(s.log, false)
      && (s.worker.WorkerDone? ==> s.driver.DriverDone? && s.queue == [])
  }

  /** The ways a step can end things. */
  predicate Ends(s: State, t: State) {
    && (s.hostGone ==> t.hostGone)
    && (t.log == s.log || (|t.log| == |s.log| + 1 && t.log[..|s.log|] == s.log))
    && (t.log != s.log && t.log[|s.log|].Refused? ==> s.worker.WorkerDone? && !s.driver.DriverDone?)
    && (s.driver.DriverDone? && s.queue == [] ==> t.driver.DriverDone? && t.queue == [])
    && (t.worker.WorkerDone? && !s.worker.WorkerDone? ==>
          || t.hostGone || (s.driver.DriverDone? && s.queue == [])
          || (t.log != s.log && t.log[|s.log|].Abandoned?))
  }

  lemma StepEnds(s: State, a: Action)
    requires Next(s, a).Some?
    ensures Ends(s, Next(s, a).value)
  {
  }

  lemma EndKeepsSound(s: State, t: State)
    requires EndsSound(s) && Ends(s, t)
    ensures EndsSound(t)
  {
    if t.log != s.log {
      var e := t.log[|s.log|];
      assert t.log == s.log + [e];
      HasPush(s.log, e, true);
      HasPush(s.log, e, false);
    }
  }

  lemma {:induction false} AlwaysEndsSound(actions: seq<Action>)
    requires Run(actions).Some?
    ensures EndsSound(Run(actions).value)
  {
    if actions == [] {
    } else {
      AlwaysEndsSound(actions[..|actions| - 1]);
      StepEnds(Run(actions[..|actions| - 1]).value, actions[|actions| - 1]);
      EndKeepsSound(Run(actions[..|actions| - 1]).value, Run(actions).value);
    }
  }

  lemma {:induction false} HandedAreEnqueued(log: seq<Entry>)
    requires !Has(log, false)
    ensures HandedCalls(log) == EnqueuedCalls(log)
  {
    if log == [] {
    } else {
      var front, e := log[..|log| - 1], log[|log| - 1];
      assert log == front + [e];
      HasPush(front, e, false);
      HandedAreEnqueued(front);
    }
  }

  /**
   * A session that ends by itself loses nothing: when the worker is done, the host still there
   * and no tool panicked, every call the provider ever requested was skipped as cancelled or
   * run to its finish, exactly once and in order, and every event was forwarded.
   */
  lemma OrderlyEndSettlesEveryCall(s: State)
    requires Reachable(s) && s.worker.WorkerDone? && !s.hostGone && !Has(s.log, true)
    ensures SettledCalls(s.log) == RequestedCalls(ReceivedEvents(s.log))
    ensures ForwardedEvents(s.log) == ReceivedEvents(s.log)
  {
    var actions :| Run(actions) == Some(s);
    AlwaysEndsSound(actions);
    DriverAlwaysSound(actions);
    ReachableIsSound(s);
    HandedAreEnqueued(s.log);
    assert SettledCalls(s.log) + [] + [] == SettledCalls(s.log);
  }
}
