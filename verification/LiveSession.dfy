/**
 * A live session as two tasks that share a set of cancelled call ids and two bounded channels
 * (crates/tinyagents-live/src/runner.rs and crates/tinyagents-live/src/worker.rs).
 *
 * Every atomic step of the driver, the worker, the provider and the host is one action, and a
 * run is any sequence of enabled actions, so every interleaving is covered. Each step appends
 * at most one entry to a log; the properties are statements about that log.
 */
module LiveSession {
  import opened Text

  datatype ToolCall = ToolCall(id: string, name: string, args: string)

  datatype LiveEvent = CallRequested(call: ToolCall) | CallsCancelled(ids: seq<string>) | Closed | Other(text: string)

  const CALL_CAPACITY: nat := 64
  const EVENT_CAPACITY: nat := 512

  /** Where the driver stands in its loop. */
  datatype Driver =
    | Receiving
    | Enqueuing(call: ToolCall, event: LiveEvent)
    | Cancelling(ids: seq<string>, event: LiveEvent)
    | Forwarding(event: LiveEvent)
    | DriverDone

  /** Where the worker stands in its loop. */
  datatype Worker =
    | Waiting
    | Deciding(call: ToolCall)
    | Starting(call: ToolCall)
    | Running(call: ToolCall)
    | Rechecking(call: ToolCall, isError: bool)
    | Sending(call: ToolCall, isError: bool)
    | Finishing(call: ToolCall, isError: bool, wasCancelled: bool)
    | WorkerDone

  /** What happened, in order. `heard` tells whether the host was still there to receive it. */
  datatype Entry =
    | Received(event: LiveEvent)
    | Enqueued(call: ToolCall)
    | Refused(call: ToolCall)
    | Cancelled(ids: seq<string>)
    | Forwarded(event: LiveEvent)
    | Taken(call: ToolCall)
    | Skipped(call: ToolCall)
    | Cleared(call: ToolCall)
    | Started(call: ToolCall, heard: bool)
    | Executed(call: ToolCall, isError: bool)
    | Rechecked(call: ToolCall, isError: bool, wasCancelled: bool)
    | Sent(call: ToolCall, isError: bool)
    | Undeliverable(call: ToolCall, isError: bool)
    | Finished(call: ToolCall, isError: bool, wasCancelled: bool, heard: bool)
    | Abandoned(call: ToolCall)

  datatype State = State(
    driver: Driver, worker: Worker, queue: seq<ToolCall>, cancelled: set<string>,
    unread: nat, hostGone: bool, log: seq<Entry>)

  datatype Action =
    | ProviderEvent(event: LiveEvent)   // the driver receives the provider's next event
    | ProviderEnd                       // the provider's event stream ends
    | DriverEnqueue
    | DriverCancel
    | DriverForward
    | DriverAbort                       // the aborted task stops at an await point
    | WorkerTake
    | WorkerEnd                         // the call channel is closed and drained
    | WorkerCheck
    | WorkerStart
    | WorkerExecute(isError: bool)      // the tool runs, with any result
    | WorkerRecheck
    | WorkerSend(delivered: bool)       // the provider may be gone
    | WorkerFinish
    | WorkerAbort                       // an abort, or a panic inside a tool
    | HostReceive
    | HostDrop

  const INIT := State(Receiving, Waiting, [], {}, 0, false, [])

  function ToSet(ids: seq<string>): set<string> {
    set id | id in ids
  }

  /** Room for one more event, or nobody left to read it (the send then fails at once). */
  predicate CanEmit(s: State) {
    s.hostGone || s.unread < EVENT_CAPACITY
  }

  function Emitted(s: State): nat {
    if s.hostGone then s.unread else s.unread + 1
  }

  predicate InHand(w: Worker) {
    !w.Waiting? && !w.WorkerDone?
  }

  /** The state after an action, or `None` when the action is not enabled. */
  function Next(s: State, a: Action): Option<State> {
    match a
    case ProviderEvent(event) =>
      if !s.driver.Receiving? then None
      else Some(s.(log := s.log + [Received(event)],
                   driver := match event
                             case CallRequested(call) => Enqueuing(call, event)
                             case CallsCancelled(ids) => Cancelling(ids, event)
                             case _ => Forwarding(event)))
    case ProviderEnd =>
      if s.driver.Receiving? then Some(s.(driver := DriverDone)) else None
    case DriverEnqueue =>
      if !s.driver.Enqueuing? then None
      else if s.worker.WorkerDone? then
        Some(s.(driver := Forwarding(s.driver.event), log := s.log + [Refused(s.driver.call)]))
      else if |s.queue| < CALL_CAPACITY then
        Some(s.(driver := Forwarding(s.driver.event), queue := s.queue + [s.driver.call],
                log := s.log + [Enqueued(s.driver.call)]))
      else None
    case DriverCancel =>
      if !s.driver.Cancelling? then None
      else Some(s.(driver := Forwarding(s.driver.event), cancelled := s.cancelled + ToSet(s.driver.ids),
                   log := s.log + [Cancelled(s.driver.ids)]))
    case DriverForward =>
      if !s.driver.Forwarding? || !CanEmit(s) then None
      else if s.hostGone then Some(s.(driver := DriverDone))
      else Some(s.(driver := if s.driver.event.Closed? then DriverDone else Receiving,
                   unread := s.unread + 1, log := s.log + [Forwarded(s.driver.event)]))
    case DriverAbort =>
      if s.hostGone && !s.driver.DriverDone? then Some(s.(driver := DriverDone)) else None
    case WorkerTake =>
      if !s.worker.Waiting? || s.queue == [] then None
      else Some(s.(worker := Deciding(s.queue[0]), queue := s.queue[1..], log := s.log + [Taken(s.queue[0])]))
    case WorkerEnd =>
      if s.worker.Waiting? && s.queue == [] && s.driver.DriverDone? then Some(s.(worker := WorkerDone)) else None
    case WorkerCheck =>
      if !s.worker.Deciding? then None
      else if s.worker.call.id in s.cancelled then
        Some(s.(worker := Waiting, log := s.log + [Skipped(s.worker.call)]))
      else Some(s.(worker := Starting(s.worker.call), log := s.log + [Cleared(s.worker.call)]))
    case WorkerStart =>
      if !s.worker.Starting? || !CanEmit(s) then None
      else Some(s.(worker := Running(s.worker.call), unread := Emitted(s),
                   log := s.log + [Started(s.worker.call, !s.hostGone)]))
    case WorkerExecute(isError) =>
      if !s.worker.Running? then None
      else Some(s.(worker := Rechecking(s.worker.call, isError), log := s.log + [Executed(s.worker.call, isError)]))
    case WorkerRecheck =>
      if !s.worker.Rechecking? then None
      else
        var w := s.worker;
        var cancelled := w.call.id in s.cancelled;
        Some(s.(worker := if cancelled then Finishing(w.call, w.isError, true) else Sending(w.call, w.isError),
                log := s.log + [Rechecked(w.call, w.isError, cancelled)]))
    case WorkerSend(delivered) =>
      if !s.worker.Sending? then None
      else
        var w := s.worker;
        Some(s.(worker := Finishing(w.call, w.isError, false),
                log := s.log + [if delivered then Sent(w.call, w.isError) else Undeliverable(w.call, w.isError)]))
    case WorkerFinish =>
      if !s.worker.Finishing? || !CanEmit(s) then None
      else
        var w := s.worker;
        Some(s.(worker := Waiting, unread := Emitted(s),
                log := s.log + [Finished(w.call, w.isError, w.wasCancelled, !s.hostGone)]))
    case WorkerAbort =>
      if InHand(s.worker) && (s.hostGone || s.worker.Running?) then
        Some(s.(worker := WorkerDone, log := s.log + [Abandoned(s.worker.call)]))
      else if s.worker.Waiting? && s.hostGone then Some(s.(worker := WorkerDone))
      else None
    case HostReceive =>
      if !s.hostGone && s.unread > 0 then Some(s.(unread := s.unread - 1)) else None
    case HostDrop =>
      if s.hostGone then None else Some(s.(hostGone := true))
  }

  /** The state after a whole run from the start, or `None` if some action was not enabled. */
  function Run(actions: seq<Action>): Option<State> {
    if actions == [] then Some(INIT)
    else
      var last := |actions| - 1;
      match Run(actions[..last])
      case None => None
      case Some(s) => Next(s, actions[last])
  }

  /** A state some run reaches. */
  ghost predicate Reachable(s: State) {
    exists actions :: Run(actions) == Some(s)
  }

  // --------------------------------------------------------- views of the log

  function ReceivedEvents(log: seq<Entry>): seq<LiveEvent> {
    if log == [] then []
    else
      var e := log[|log| - 1];
      ReceivedEvents(log[..|log| - 1]) + if e.Received? then [e.event] else []
  }

  function ForwardedEvents(log: seq<Entry>): seq<LiveEvent> {
    if log == [] then []
    else
      var e := log[|log| - 1];
      ForwardedEvents(log[..|log| - 1]) + if e.Forwarded? then [e.event] else []
  }

  function EnqueuedCalls(log: seq<Entry>): seq<ToolCall> {
    if log == [] then []
    else
      var e := log[|log| - 1];
      EnqueuedCalls(log[..|log| - 1]) + if e.Enqueued? then [e.call] else []
  }

  /** Calls the worker is through with: skipped, finished or abandoned. */
  function SettledCalls(log: seq<Entry>): seq<ToolCall> {
    if log == [] then []
    else
      var e := log[|log| - 1];
      SettledCalls(log[..|log| - 1]) + if e.Skipped? || e.Finished? || e.Abandoned? then [e.call] else []
  }

  /** Ids cancelled so far. */
  function CancelledIds(log: seq<Entry>): set<string> {
    if log == [] then {}
    else
      var e := log[|log| - 1];
      CancelledIds(log[..|log| - 1]) + if e.Cancelled? then ToSet(e.ids) else {}
  }

  predicate IsWorkerEntry(e: Entry) {
    !(e.Received? || e.Enqueued? || e.Refused? || e.Cancelled? || e.Forwarded?)
  }

  /** A worker entry together with the ids cancelled before it. */
  datatype Moment = Moment(entry: Entry, cancelledBefore: set<string>)

  /** The worker's own history. */
  function WorkerTrace(log: seq<Entry>): seq<Moment> {
    if log == [] then []
    else
      var e, front := log[|log| - 1], log[..|log| - 1];
      WorkerTrace(front) + if IsWorkerEntry(e) then [Moment(e, CancelledIds(front))] else []
  }

  /** Started and finished notices the host was there to hear. */
  function HostNotices(log: seq<Entry>): seq<Entry> {
    if log == [] then []
    else
      var e := log[|log| - 1];
      HostNotices(log[..|log| - 1]) + if (e.Started? || e.Finished?) && e.heard then [e] else []
  }

  /** Calls the driver handed over, whether or not a worker was there to take them. */
  function HandedCalls(log: seq<Entry>): seq<ToolCall> {
    if log == [] then []
    else
      var e := log[|log| - 1];
      HandedCalls(log[..|log| - 1]) + if e.Enqueued? || e.Refused? then [e.call] else []
  }

  function RequestedCalls(events: seq<LiveEvent>): seq<ToolCall> {
    if events == [] then []
    else
      var e := events[|events| - 1];
      RequestedCalls(events[..|events| - 1]) + if e.CallRequested? then [e.call] else []
  }

  lemma DropLast(log: seq<Entry>, e: Entry)
    ensures (log + [e])[..|log + [e]| - 1] == log && (log + [e])[|log + [e]| - 1] == e
  {
  }
}
