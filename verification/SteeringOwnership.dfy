/**
 * Whose task a steer reaches. Looking a task up, fetching its handle and claiming the request id
 * are separate steps, so the task may be removed and registered again in between; and handles
 * are attached and detached independently of registrations.
 */
module SteeringOwnership {
  import opened Text
  import opened Steering
  import opened SteeringGuarantees

  /** Every claim and every delivery was made after an access check that passed on some
      registration of the very task the request names. */
  lemma EveryEntryWasPermitted(s: State, k: nat)
    requires Reachable(s) && k < |s.log|
    ensures s.log[k].steer < |s.steers|
    ensures LookedUp(s, s.log[k].looked, s.steers[s.log[k].steer].request)
  {
    var actions :| Run(actions) == Some(s);
    AlwaysSound(actions);
    assert EntrySound(s, s.log[k]);
  }

  /** The registration an entry lands in: that of the memory, or that of the handle's run. */
  function LandsIn(e: Entry): Option<nat> {
    if e.Claim? then Some(e.epoch) else e.handle
  }

  /** The entry lands with an owner its steer may steer, or with the host. */
  predicate LandsWell(s: State, e: Entry) {
    && e.steer < |s.steers|
    && (LandsIn(e).Some? ==>
          && LandsIn(e).value < |s.registrations|
          && Permits(s.registrations[LandsIn(e).value].owner, s.steers[e.steer].request.access))
  }

  /** Everything any steer of this task claimed or delivered landed well. */
  predicate Safe(s: State, task: string) {
    forall e :: e in s.log && e.steer < |s.steers| && s.steers[e.steer].request.task == task ==> LandsWell(s, e)
  }

  // ------------------------------------------------------------ the host's policy

  /** Who may register which task, and, as pairs (task, other), under which task a handle to a run
      of which other task may be attached. */
  datatype Policy = Policy(registrations: set<Registration>, feeds: set<(string, string)>)

  predicate StepObeys(s: State, a: Action, p: Policy) {
    match a
    case Register(task, owner) => Registration(task, owner) in p.registrations
    case Attach(task, epoch) => epoch < |s.registrations| ==> (task, s.registrations[epoch].task) in p.feeds
    case _ => true
  }

  /** A run in which every registration and every attached handle is one the policy allows. */
  predicate Obeys(actions: seq<Action>, p: Policy) {
    if actions == [] then true
    else
      var last := |actions| - 1;
      && Obeys(actions[..last], p)
      && Run(actions[..last]).Some? && StepObeys(Run(actions[..last]).value, actions[last], p)
  }

  /** Whoever may register the task, all its registrations and all runs feeding it have that owner. */
  predicate OneOwner(p: Policy, task: string) {
    forall mine, other :: mine in p.registrations && other in p.registrations ==>
      mine.task == task && MayServe(p, other, task) ==> mine.owner == other.owner
  }

  /** A registration of the task, or one whose runs may be attached under it. */
  predicate MayServe(p: Policy, other: Registration, task: string) {
    other.task == task || (task, other.task) in p.feeds
  }

  // ------------------------------------------------- one owner is enough

  predicate Feeds(s: State, p: Policy, task: string, handle: Option<nat>) {
    handle.Some? ==>
      handle.value < |s.registrations| && (task, s.registrations[handle.value].task) in p.feeds
  }

  function HandleOf(x: Progress): Option<nat> {
    if x.Claiming? || x.Delivering? then x.handle else None
  }

  /** What the policy lets through: registrations, attached handles, and the handles that steers
      hold or have used. */
  predicate WithinPolicy(s: State, p: Policy) {
    && (forall k :: 0 <= k < |s.registrations| ==> s.registrations[k] in p.registrations)
    && (forall task :: task in s.handles ==> Feeds(s, p, task, Some(s.handles[task])))
    && (forall i :: 0 <= i < |s.steers| ==> Feeds(s, p, s.steers[i].request.task, HandleOf(s.steers[i].progress)))
    && (forall e :: e in s.log && e.Delivery? ==> Feeds(s, p, e.request.task, e.handle))
  }

  lemma AdvanceKeepsHandle(s: State, i: nat, p: Policy)
    requires i < |s.steers| && AdvanceSteer(s, i).Some? && WithinPolicy(s, p)
    ensures var t := AdvanceSteer(s, i).value;
      && Feeds(s, p, s.steers[i].request.task, HandleOf(t.steers[i].progress))
      && forall e :: e in Added(s, i) && e.Delivery? ==> Feeds(s, p, e.request.task, e.handle)
  {
    assert Feeds(s, p, s.steers[i].request.task, HandleOf(s.steers[i].progress));
  }

  lemma AdvanceWithinPolicy(s: State, i: nat, p: Policy)
    requires i < |s.steers| && AdvanceSteer(s, i).Some? && WithinPolicy(s, p)
    ensures WithinPolicy(AdvanceSteer(s, i).value, p)
  {
    var t := AdvanceSteer(s, i).value;
    AdvanceMoves(s, i);
    AdvanceKeepsTasks(s, i);
    AdvanceKeepsHandle(s, i, p);
    SamePolicy(s, t, i, Added(s, i), p);
  }

  /** A moving steer changes nothing the policy looks at but its own handle and entries. */
  lemma SamePolicy(s: State, t: State, i: nat, added: seq<Entry>, p: Policy)
    requires WithinPolicy(s, p) && Moves(s, t, i, added) && t.handles == s.handles
    requires Feeds(s, p, t.steers[i].request.task, HandleOf(t.steers[i].progress))
    requires forall e :: e in added && e.Delivery? ==> Feeds(s, p, e.request.task, e.handle)
    ensures WithinPolicy(t, p)
  {
    forall j | 0 <= j < |t.steers| ensures Feeds(t, p, t.steers[j].request.task, HandleOf(t.steers[j].progress)) {
      if j != i {
        assert Feeds(s, p, s.steers[j].request.task, HandleOf(s.steers[j].progress));
      }
    }
  }

  lemma RegisterWithinPolicy(s: State, task: string, owner: string, p: Policy)
    requires WithinPolicy(s, p) && task !in s.tasks && Registration(task, owner) in p.registrations
    ensures WithinPolicy(Next(s, Register(task, owner)).value, p)
  {
    var t := Next(s, Register(task, owner)).value;
    forall i | 0 <= i < |t.steers| ensures Feeds(t, p, t.steers[i].request.task, HandleOf(t.steers[i].progress)) {
      assert Feeds(s, p, s.steers[i].request.task, HandleOf(s.steers[i].progress));
    }
    forall e | e in t.log && e.Delivery? ensures Feeds(t, p, e.request.task, e.handle) {
      assert Feeds(s, p, e.request.task, e.handle);
    }
    forall other | other in t.handles ensures Feeds(t, p, other, Some(t.handles[other])) {
      assert Feeds(s, p, other, Some(s.handles[other]));
    }
  }

  lemma BeginWithinPolicy(s: State, r: Request, p: Policy)
    requires WithinPolicy(s, p)
    ensures WithinPolicy(Next(s, Begin(r)).value, p)
  {
    var t := Next(s, Begin(r)).value;
    forall i | 0 <= i < |t.steers| ensures Feeds(t, p, t.steers[i].request.task, HandleOf(t.steers[i].progress)) {
      if i < |s.steers| {
        assert Feeds(s, p, s.steers[i].request.task, HandleOf(s.steers[i].progress));
      }
    }
  }

  /** Steps that change at most the tasks and the attached handles. */
  lemma RegistryWithinPolicy(s: State, t: State, p: Policy)
    requires WithinPolicy(s, p) && t.registrations == s.registrations && t.steers == s.steers && t.log == s.log
    requires forall task :: task in t.handles ==> Feeds(s, p, task, Some(t.handles[task]))
    ensures WithinPolicy(t, p)
  {
    forall i | 0 <= i < |t.steers| ensures Feeds(t, p, t.steers[i].request.task, HandleOf(t.steers[i].progress)) {
      assert Feeds(s, p, s.steers[i].request.task, HandleOf(s.steers[i].progress));
    }
  }

  lemma StepWithinPolicy(s: State, a: Action, p: Policy)
    requires WithinPolicy(s, p) && Next(s, a).Some? && StepObeys(s, a, p)
    ensures WithinPolicy(Next(s, a).value, p)
  {
    match a
    case Begin(r) => BeginWithinPolicy(s, r, p);
    case Advance(i) => AdvanceWithinPolicy(s, i, p);
    case Drop(i) => SamePolicy(s, Next(s, a).value, i, [], p);
    case Register(task, owner) => RegisterWithinPolicy(s, task, owner, p);
    case _ => RegistryWithinPolicy(s, Next(s, a).value, p);
  }

  lemma {:induction false} AlwaysWithinPolicy(actions: seq<Action>, p: Policy)
    requires Run(actions).Some? && Obeys(actions, p)
    ensures WithinPolicy(Run(actions).value, p)
  {
    if actions == [] {
    } else {
      var last := |actions| - 1;
      AlwaysWithinPolicy(actions[..last], p);
      StepWithinPolicy(Run(actions[..last]).value, actions[last], p);
    }
  }

  lemma OneOwnerIsSafe(actions: seq<Action>, s: State, p: Policy, task: string)
    requires Run(actions) == Some(s) && Obeys(actions, p) && OneOwner(p, task)
    ensures Safe(s, task)
  {
    AlwaysSound(actions);
    AlwaysWithinPolicy(actions, p);
    forall e | e in s.log && e.steer < |s.steers| && s.steers[e.steer].request.task == task ensures LandsWell(s, e) {
      assert EntrySound(s, e);
      if LandsIn(e).Some? {
        assert s.registrations[e.looked] in p.registrations;
        var other := s.registrations[LandsIn(e).value];
        assert other in p.registrations && MayServe(p, other, task);
      }
    }
  }

  // ------------------------------------------------- and nothing less is

  /** One more step of a run that obeys the policy. */
  lemma Extend(actions: seq<Action>, s: State, a: Action, p: Policy) returns (longer: seq<Action>, t: State)
    requires Run(actions) == Some(s) && Obeys(actions, p) && Next(s, a).Some? && StepObeys(s, a, p)
    ensures Run(longer) == Some(t) && Next(s, a) == Some(t) && Obeys(longer, p)
  {
    longer, t := actions + [a], Next(s, a).value;
    assert longer[..|actions|] == actions;
  }

  /** Registered now, and nothing else there yet. */
  lemma RegisterTwo(first: Registration, second: Registration, p: Policy) returns (actions: seq<Action>, s: State)
    requires first in p.registrations && second in p.registrations && (first.task, second.task) in p.feeds
    requires first.task != second.task
    ensures Run(actions) == Some(s) && Obeys(actions, p)
    ensures s.registrations == [second, first] && s.handles == map[first.task := 0] && s.steers == [] && s.log == []
    ensures first.task in s.tasks && s.tasks[first.task] == Task(first.owner, false, [], 1)
  {
    actions, s := Extend([], INIT, Register(second.task, second.owner), p);
    actions, s := Extend(actions, s, Attach(first.task, 0), p);
    actions, s := Extend(actions, s, Register(first.task, first.owner), p);
  }

  /** A steer that starts on a registered live task and gets as far as fetching a handle. */
  lemma LookUp(actions: seq<Action>, s: State, r: Request, p: Policy) returns (longer: seq<Action>, t: State)
    requires Run(actions) == Some(s) && Obeys(actions, p) && s.steers == [] && Admissible(r)
    requires r.task in s.tasks && !s.tasks[r.task].terminal && Permits(s.tasks[r.task].owner, r.access)
    ensures Run(longer) == Some(t) && Obeys(longer, p)
    ensures t == s.(steers := t.steers) && t.steers == [Steer(r, Fetching(s.tasks[r.task].epoch))]
  {
    longer, t := Extend(actions, s, Begin(r), p);
    longer, t := Extend(longer, t, Advance(0), p);
    longer, t := Extend(longer, t, Advance(0), p);
  }

  /** A steer about to fetch its handle gets its id granted. */
  lemma FetchAndClaim(actions: seq<Action>, s: State, r: Request, looked: nat, p: Policy)
      returns (longer: seq<Action>, t: State)
    requires Run(actions) == Some(s) && Obeys(actions, p) && s.steers == [Steer(r, Fetching(looked))] && s.log == []
    requires r.id.Some? && r.task in s.tasks && s.tasks[r.task].recent == []
    ensures Run(longer) == Some(t) && Obeys(longer, p) && t.registrations == s.registrations
    ensures t.steers == [Steer(r, Delivering(looked, if r.task in s.handles then Some(s.handles[r.task]) else None))]
    ensures t.log == [Claim(0, looked, r.task, s.tasks[r.task].epoch, r.id.value, true)]
  {
    longer, t := Extend(actions, s, Advance(0), p);
    assert t.steers[0].progress.Claiming?;
    longer, t := Extend(longer, t, Advance(0), p);
  }

  /** And runs to its delivery. */
  lemma Deliver(actions: seq<Action>, s: State, r: Request, looked: nat, p: Policy)
      returns (longer: seq<Action>, t: State)
    requires Run(actions) == Some(s) && Obeys(actions, p) && s.steers == [Steer(r, Fetching(looked))] && s.log == []
    requires Admissible(r) && r.id.Some? && r.task in s.tasks && s.tasks[r.task].recent == []
    ensures Run(longer) == Some(t) && Obeys(longer, p) && t.registrations == s.registrations
    ensures |t.steers| == 1 && t.steers[0].request == r
    ensures t.log == [
      Claim(0, looked, r.task, s.tasks[r.task].epoch, r.id.value, true),
      Delivery(0, looked, r, if r.task in s.handles then Some(s.handles[r.task]) else None)]
  {
    longer, t := FetchAndClaim(actions, s, r, looked, p);
    longer, t := Extend(longer, t, Advance(0), p);
  }

  /** Whatever the request and whoever comes next: a steer that looked its task up before it was
      registered again by `other` is recorded in the memory of `other`. */
  lemma StaleLookupReachesOtherOwner(r: Request, owner: string, other: string, p: Policy)
      returns (actions: seq<Action>, s: State)
    requires Admissible(r) && r.id.Some? && r.access == Owner(owner) && owner != other
    requires Registration(r.task, owner) in p.registrations && Registration(r.task, other) in p.registrations
    ensures Run(actions) == Some(s) && Obeys(actions, p)
    ensures s.registrations == [Registration(r.task, owner), Registration(r.task, other)]
    ensures s.log == [Claim(0, 0, r.task, 1, r.id.value, true), Delivery(0, 0, r, None)]
    ensures |s.steers| == 1 && s.steers[0].request == r && !LandsWell(s, s.log[0])
  {
    actions, s := Extend([], INIT, Register(r.task, owner), p);
    actions, s := LookUp(actions, s, r, p);
    actions, s := Extend(actions, s, Remove(r.task), p);
    actions, s := Extend(actions, s, Register(r.task, other), p);
    actions, s := Deliver(actions, s, r, 0, p);
  }

  /** A task passes from one owner to the next, and the handle of the first stays attached. */
  lemma LeaveHandle(task: string, first: string, second: string, p: Policy) returns (actions: seq<Action>, s: State)
    requires Registration(task, first) in p.registrations && Registration(task, second) in p.registrations
    requires (task, task) in p.feeds
    ensures Run(actions) == Some(s) && Obeys(actions, p) && s.steers == [] && s.log == []
    ensures s.registrations == [Registration(task, first), Registration(task, second)]
    ensures s.handles == map[task := 0] && task in s.tasks && s.tasks[task] == Task(second, false, [], 1)
  {
    actions, s := Extend([], INIT, Register(task, first), p);
    actions, s := Extend(actions, s, Attach(task, 0), p);
    actions, s := Extend(actions, s, Remove(task), p);
    actions, s := Extend(actions, s, Register(task, second), p);
  }

  /** Even with lookup and claim on one and the same registration: a handle left behind by the run of
      `other`, which had the task before, gets the message. */
  lemma StaleHandleReachesOtherOwner(r: Request, owner: string, other: string, p: Policy)
      returns (actions: seq<Action>, s: State)
    requires Admissible(r) && r.id.Some? && r.access == Owner(owner) && owner != other
    requires Registration(r.task, owner) in p.registrations && Registration(r.task, other) in p.registrations
    requires (r.task, r.task) in p.feeds
    ensures Run(actions) == Some(s) && Obeys(actions, p)
    ensures s.registrations == [Registration(r.task, other), Registration(r.task, owner)]
    ensures s.log == [Claim(0, 1, r.task, 1, r.id.value, true), Delivery(0, 1, r, Some(0))]
    ensures |s.steers| == 1 && s.steers[0].request == r && LandsWell(s, s.log[0]) && !LandsWell(s, s.log[1])
  {
    actions, s := LeaveHandle(r.task, other, owner, p);
    actions, s := LookUp(actions, s, r, p);
    actions, s := Deliver(actions, s, r, 1, p);
  }

  /** A handle to a run of another task, attached under this one, gets the message of its owner. */
  lemma ForeignHandleReachesOtherOwner(r: Request, mine: Registration, other: Registration, p: Policy)
      returns (actions: seq<Action>, s: State)
    requires Admissible(r) && r.id.Some? && r.access == Owner(mine.owner) && r.task == mine.task
    requires mine in p.registrations && other in p.registrations && (mine.task, other.task) in p.feeds
    requires mine.task != other.task && mine.owner != other.owner
    ensures Run(actions) == Some(s) && Obeys(actions, p)
    ensures s.log == [Claim(0, 1, r.task, 1, r.id.value, true), Delivery(0, 1, r, Some(0))]
    ensures |s.steers| == 1 && s.steers[0].request == r && !LandsWell(s, s.log[1])
  {
    actions, s := RegisterTwo(mine, other, p);
    actions, s := LookUp(actions, s, r, p);
    actions, s := Deliver(actions, s, r, 1, p);
  }

  /** A policy without a single owner has a run that goes astray. */
  lemma UnsafeRun(p: Policy, task: string) returns (actions: seq<Action>, s: State)
    requires !OneOwner(p, task)
    ensures Run(actions) == Some(s) && Obeys(actions, p) && !Safe(s, task)
  {
    var mine, other :| mine in p.registrations && other in p.registrations
                       && mine.task == task && MayServe(p, other, task) && mine.owner != other.owner;
    var r := Request(task, Owner(mine.owner), "", SteerLane, Some(""));
    if other.task == task {
      assert mine == Registration(task, mine.owner) && other == Registration(task, other.owner);
      actions, s := StaleLookupReachesOtherOwner(r, mine.owner, other.owner, p);
      assert s.log[0] in s.log;
    } else {
      actions, s := ForeignHandleReachesOtherOwner(r, mine, other, p);
      assert s.log[1] in s.log;
    }
  }

  /**
   * What a host has to arrange so that steers of a task always stay with their owner: in every run
   * under its policy all claims and deliveries land well, exactly when everyone who may register the
   * task, or whose runs may be attached under it, is one and the same owner.
   */
  lemma SafeIffOneOwner(p: Policy, task: string)
    ensures OneOwner(p, task) <==>
      forall actions :: Run(actions).Some? && Obeys(actions, p) ==> Safe(Run(actions).value, task)
  {
    if OneOwner(p, task) {
      forall actions | Run(actions).Some? && Obeys(actions, p) ensures Safe(Run(actions).value, task) {
        OneOwnerIsSafe(actions, Run(actions).value, p, task);
      }
    } else {
      var actions, s := UnsafeRun(p, task);
    }
  }
}
