/**
 * Steering of detached tasks (crates/tinyagents-orchestration/src/steering.rs over the registry
 * of crates/tinyagents-tasks/src/runtime.rs).
 *
 * Any number of steers run concurrently. Each atomic access to the shared registries is one
 * step; between steps tasks may be registered, gain or lose a live handle, turn terminal, or be
 * removed, and a steer may be dropped. Text lengths are in bytes.
 */
module Steering {
  import opened Text
  import opened RequestIds

  datatype Lane = SteerLane | Followup | Collect
  datatype Access = Owner(owner: string) | Trusted
  datatype Request = Request(task: string, access: Access, text: string, lane: Lane, id: Option<string>)

  datatype Error = UnknownTask | NotOwned | UnsupportedLane | RequestIdTooLong | TextTooLong
  datatype Route = Registry | Fallback
  datatype Result = Failed(error: Error) | AlreadyApplied | Delivered(route: Route)

  const MAX_STEER_TEXT_BYTES: nat := 32 * 1024

  /** A registered task. `epoch` numbers its registration; a task id that is registered again
      starts with an empty memory. */
  datatype Task = Task(owner: string, terminal: bool, recent: seq<string>, epoch: nat)

  /** Who registered which task; the position in the list of all registrations is the epoch. */
  datatype Registration = Registration(task: string, owner: string)

  /** How far a steer has come. `looked` is the registration its access check passed on, and
      `handle` the registration whose live handle it holds, if any. */
  datatype Progress =
    | Checking
    | LookingUp
    | Fetching(looked: nat)
    | Claiming(looked: nat, handle: Option<nat>)
    | Delivering(looked: nat, handle: Option<nat>)
    | Finishing(route: Route)
    | Returned(result: Result)
    | Dropped

  datatype Steer = Steer(request: Request, progress: Progress)

  /** Claims, and messages handed to a live handle or to the host, in order. `steer` is the index
      of the steer that made them, `looked` the registration it had looked up before. */
  datatype Entry =
    | Claim(steer: nat, looked: nat, task: string, epoch: nat, id: string, granted: bool)
    | Delivery(steer: nat, looked: nat, request: Request, handle: Option<nat>)

  /** `handles` maps a task to the registration whose run its live handle belongs to. */
  datatype State = State(
    tasks: map<string, Task>, handles: map<string, nat>, steers: seq<Steer>,
    registrations: seq<Registration>, log: seq<Entry>)

  datatype Action =
    | Begin(request: Request)
    | Advance(steer: nat)
    | Drop(steer: nat)
    | Register(task: string, owner: string)
    | Publish(task: string, terminal: bool)
    | Attach(task: string, epoch: nat)
    | Detach(task: string)
    | Remove(task: string)

  const INIT := State(map[], map[], [], [], [])

  predicate Permits(owner: string, access: Access) {
    access.Trusted? || access.owner == owner
  }

  function RouteOf(handle: Option<nat>): Route {
    if handle.Some? then Registry else Fallback
  }

  function SetProgress(s: State, i: nat, p: Progress): State
    requires i < |s.steers|
  {
    s.(steers := s.steers[i := s.steers[i].(progress := p)])
  }

  /** Lane, snapshot with ownership, id length and text length, in this order. */
  function Validate(s: State, r: Request): Option<Error> {
    if r.lane == Followup then Some(UnsupportedLane)
    else if r.task !in s.tasks then Some(UnknownTask)
    else if !Permits(s.tasks[r.task].owner, r.access) then Some(NotOwned)
    else if r.id.Some? && |r.id.value| > MAX_REQUEST_ID_BYTES then Some(RequestIdTooLong)
    else if r.access.Owner? && |r.text| > MAX_STEER_TEXT_BYTES then Some(TextTooLong)
    else None
  }

  /** One atomic step of a steer that is still running. */
  function AdvanceSteer(s: State, i: nat): Option<State>
    requires i < |s.steers|
  {
    var r := s.steers[i].request;
    match s.steers[i].progress
    case Checking =>
      var error := Validate(s, r);
      Some(SetProgress(s, i, if error.Some? then Returned(Failed(error.value)) else LookingUp))
    case LookingUp =>
      if r.task !in s.tasks then Some(SetProgress(s, i, Returned(Failed(UnknownTask))))
      else
        var task := s.tasks[r.task];
        if !Permits(task.owner, r.access) then Some(SetProgress(s, i, Returned(Failed(NotOwned))))
        else Some(SetProgress(s, i, if task.terminal then Claiming(task.epoch, None) else Fetching(task.epoch)))
    case Fetching(looked) =>
      Some(SetProgress(s, i, Claiming(looked, if r.task in s.handles then Some(s.handles[r.task]) else None)))
    case Claiming(looked, handle) =>
      if r.id.None? then Some(SetProgress(s, i, Delivering(looked, handle)))
      else if r.task !in s.tasks then Some(SetProgress(s, i, Returned(Failed(UnknownTask))))
      else
        var task := s.tasks[r.task];
        if r.id.value in task.recent then
          Some(SetProgress(s, i, Returned(AlreadyApplied)).(
               log := s.log + [Claim(i, looked, r.task, task.epoch, r.id.value, false)]))
        else
          var recent := Remember(task.recent, DEFAULT_CAPACITY, r.id.value);
          Some(SetProgress(s, i, Delivering(looked, handle)).(
               tasks := s.tasks[r.task := task.(recent := recent)],
               log := s.log + [Claim(i, looked, r.task, task.epoch, r.id.value, true)]))
    case Delivering(looked, handle) =>
      var used := if r.lane == Followup then None else handle;
      Some(SetProgress(s, i, Finishing(RouteOf(used))).(log := s.log + [Delivery(i, looked, r, used)]))
    case Finishing(route) => Some(SetProgress(s, i, Returned(Delivered(route))))
    case _ => None
  }

  function Next(s: State, a: Action): Option<State> {
    match a
    case Begin(request) => Some(s.(steers := s.steers + [Steer(request, Checking)]))
    case Advance(i) => if i < |s.steers| then AdvanceSteer(s, i) else None
    case Drop(i) =>
      if i < |s.steers| && !s.steers[i].progress.Returned? then Some(SetProgress(s, i, Dropped)) else None
    case Register(task, owner) =>
      if task in s.tasks then None
      else Some(s.(tasks := s.tasks[task := Task(owner, false, [], |s.registrations|)],
                   registrations := s.registrations + [Registration(task, owner)]))
    case Publish(task, terminal) =>
      if task in s.tasks then Some(s.(tasks := s.tasks[task := s.tasks[task].(terminal := terminal)])) else None
    case Attach(task, epoch) =>
      if epoch < |s.registrations| then Some(s.(handles := s.handles[task := epoch])) else None
    case Detach(task) => Some(s.(handles := s.handles - {task}))
    case Remove(task) => Some(s.(tasks := s.tasks - {task}))
  }

  function Run(actions: seq<Action>): Option<State> {
    if actions == [] then Some(INIT)
    else
      var last := |actions| - 1;
      match Run(actions[..last])
      case None => None
      case Some(s) => Next(s, actions[last])
  }

  ghost predicate Reachable(s: State) {
    exists actions :: Run(actions) == Some(s)
  }
}
