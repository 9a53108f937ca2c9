/** What holds over every run of concurrent steers. */
module SteeringGuarantees {
  import opened Text
  import opened RequestIds
  import opened Steering

  // Views of the log.

  function Deliveries(log: seq<Entry>, i: nat): nat {
    if log == [] then 0
    else
      var last := |log| - 1;
      Deliveries(log[..last], i) + if log[last].Delivery? && log[last].steer == i then 1 else 0
  }

  function Grants(log: seq<Entry>, i: nat): nat {
    if log == [] then 0
    else
      var last := |log| - 1;
      Grants(log[..last], i) + if log[last].Claim? && log[last].granted && log[last].steer == i then 1 else 0
  }

  /** The ids granted under one registration of a task, in order. */
  function GrantedIds(log: seq<Entry>, epoch: nat): seq<string> {
    if log == [] then []
    else
      var last := |log| - 1;
      GrantedIds(log[..last], epoch)
      + if log[last].Claim? && log[last].granted && log[last].epoch == epoch then [log[last].id] else []
  }

  lemma Push(log: seq<Entry>, e: Entry, i: nat, epoch: nat)
    ensures Deliveries(log + [e], i) == Deliveries(log, i) + if e.Delivery? && e.steer == i then 1 else 0
    ensures Grants(log + [e], i) == Grants(log, i) + if e.Claim? && e.granted && e.steer == i then 1 else 0
    ensures GrantedIds(log + [e], epoch)
         == GrantedIds(log, epoch) + if e.Claim? && e.granted && e.epoch == epoch then [e.id] else []
  {
    assert (log + [e])[..|log|] == log;
  }

  lemma {:induction false} GrantedIdsConcat(a: seq<Entry>, b: seq<Entry>, epoch: nat)
    ensures GrantedIds(a + b, epoch) == GrantedIds(a, epoch) + GrantedIds(b, epoch)
  {
    if b == [] {
      assert a + b == a;
    } else {
      var last := |b| - 1;
      GrantedIdsConcat(a, b[..last], epoch);
      assert a + b == (a + b[..last]) + [b[last]] && b == b[..last] + [b[last]];
      Push(a + b[..last], b[last], 0, epoch);
      Push(b[..last], b[last], 0, epoch);
    }
  }

  // What one steer has done so far.

  /** Passed every check that does not depend on the registry. */
  predicate Admissible(r: Request) {
    && r.lane != Followup
    && (r.id.Some? ==> |r.id.value| <= MAX_REQUEST_ID_BYTES)
    && (r.access.Owner? ==> |r.text| <= MAX_STEER_TEXT_BYTES)
  }

  function Keyed(r: Request): nat {
    if r.id.Some? then 1 else 0
  }

  /** A steer has delivered at most once, and with a request id only after one grant; a failed or
      duplicate steer has done neither. */
  predicate Consistent(x: Steer, deliveries: nat, grants: nat) {
    match x.progress
    case Delivering(_, _) => Admissible(x.request) && deliveries == 0 && grants == Keyed(x.request)
    case Finishing(_) => deliveries == 1 && grants == Keyed(x.request)
    case Dropped => deliveries <= 1 && grants <= Keyed(x.request) && (deliveries == 1 ==> grants == Keyed(x.request))
    case Checking => deliveries == 0 && grants == 0
    case Returned(Delivered(_)) => deliveries == 1 && grants == Keyed(x.request)
    case Returned(AlreadyApplied) => deliveries == 0 && grants == 0 && x.request.id.Some?
    case Returned(Failed(_)) => deliveries == 0 && grants == 0
    case _ => Admissible(x.request) && deliveries == 0 && grants == 0
  }

  predicate SteerSound(s: State, i: nat)
    requires i < |s.steers|
  {
    Consistent(s.steers[i], Deliveries(s.log, i), Grants(s.log, i))
  }

  /** Registration `epoch` is one of `task`. */
  predicate RegistrationOf(s: State, epoch: nat, task: string) {
    epoch < |s.registrations| && s.registrations[epoch].task == task
  }

  /** The access check of request `r` passed on registration `looked` of its task. */
  predicate LookedUp(s: State, looked: nat, r: Request) {
    RegistrationOf(s, looked, r.task) && Permits(s.registrations[looked].owner, r.access)
  }

  predicate HandleKnown(s: State, handle: Option<nat>) {
    handle.Some? ==> handle.value < |s.registrations|
  }

  /** What a steer in flight holds on to. */
  predicate HoldsLookup(s: State, x: Steer) {
    match x.progress
    case Fetching(looked) => LookedUp(s, looked, x.request)
    case Claiming(looked, handle) => LookedUp(s, looked, x.request) && HandleKnown(s, handle)
    case Delivering(looked, handle) => LookedUp(s, looked, x.request) && HandleKnown(s, handle)
    case _ => true
  }

  /** A log entry tells the truth about its steer. */
  predicate EntrySound(s: State, e: Entry) {
    && e.steer < |s.steers|
    && var x := s.steers[e.steer];
       && LookedUp(s, e.looked, x.request)
       && match e
          case Claim(_, _, task, epoch, id, granted) =>
            && RegistrationOf(s, epoch, task) && x.request.task == task && x.request.id == Some(id)
            && (!granted ==> x.progress == Returned(AlreadyApplied))
          case Delivery(_, _, request, handle) =>
            && request == x.request && Admissible(request) && HandleKnown(s, handle)
            && (x.progress.Finishing? ==> x.progress.route == RouteOf(handle))
            && (x.progress.Returned? ==> x.progress.result == Delivered(RouteOf(handle)))
  }

  ghost predicate SteersSound(s: State) {
    && (forall e :: e in s.log ==> EntrySound(s, e))
    && (forall i :: 0 <= i < |s.steers| ==> SteerSound(s, i) && HoldsLookup(s, s.steers[i]))
  }

  /** Steer `i` moved from `s` to `t` and added at most one entry, its own. */
  predicate Moves(s: State, t: State, i: nat, added: seq<Entry>) {
    && i < |s.steers| == |t.steers|
    && t.registrations == s.registrations
    && t.steers == s.steers[i := t.steers[i]]
    && t.steers[i].request == s.steers[i].request
    && t.log == s.log + added
    && |added| <= 1
    && (added != [] ==> added[0].steer == i)
  }

  lemma PushMoved(log: seq<Entry>, added: seq<Entry>, i: nat)
    requires |added| <= 1
    ensures Deliveries(log + added, i) == Deliveries(log, i) + Deliveries(added, i)
    ensures Grants(log + added, i) == Grants(log, i) + Grants(added, i)
  {
    if added == [] {
      assert log + added == log;
    } else {
      assert added == [added[0]] && [] + added == added;
      Push(log, added[0], i, 0);
      Push([], added[0], i, 0);
    }
  }

  lemma {:induction false} UncountedIsAbsent(log: seq<Entry>, i: nat)
    requires Deliveries(log, i) == 0
    ensures forall e :: e in log && e.Delivery? ==> e.steer != i
  {
    if log == [] {
    } else {
      UncountedIsAbsent(log[..|log| - 1], i);
      assert log == log[..|log| - 1] + [log[|log| - 1]];
    }
  }

  /** The entries of an atomic step. */
  function Added(s: State, i: nat): seq<Entry>
    requires i < |s.steers|
  {
    var r := s.steers[i].request;
    match s.steers[i].progress
    case Claiming(looked, _) =>
      if r.id.Some? && r.task in s.tasks then
        [Claim(i, looked, r.task, s.tasks[r.task].epoch, r.id.value, r.id.value !in s.tasks[r.task].recent)]
      else []
    case Delivering(looked, handle) => [Delivery(i, looked, r, if r.lane == Followup then None else handle)]
    case _ => []
  }

  lemma AdvanceMoves(s: State, i: nat)
    requires i < |s.steers| && AdvanceSteer(s, i).Some?
    ensures Moves(s, AdvanceSteer(s, i).value, i, Added(s, i))
  {
  }

  lemma CountsOfOne(e: Entry, i: nat)
    ensures Deliveries([e], i) == if e.Delivery? && e.steer == i then 1 else 0
    ensures Grants([e], i) == if e.Claim? && e.granted && e.steer == i then 1 else 0
  {
    Push([], e, i, 0);
    assert [] + [e] == [e];
  }

  lemma CountsOfAdded(s: State, i: nat)
    requires i < |s.steers|
    ensures Deliveries(Added(s, i), i) == if s.steers[i].progress.Delivering? then 1 else 0
    ensures Grants(Added(s, i), i)
         == if Added(s, i) != [] && Added(s, i)[0].Claim? && Added(s, i)[0].granted then 1 else 0
  {
    if Added(s, i) != [] {
      CountsOfOne(Added(s, i)[0], i);
      assert Added(s, i) == [Added(s, i)[0]];
    }
  }

  lemma AdvanceStaysConsistent(s: State, i: nat, deliveries: nat, grants: nat)
    requires i < |s.steers| && AdvanceSteer(s, i).Some? && Consistent(s.steers[i], deliveries, grants)
    ensures Consistent(AdvanceSteer(s, i).value.steers[i], deliveries + Deliveries(Added(s, i), i),
                       grants + Grants(Added(s, i), i))
  {
    CountsOfAdded(s, i);
  }

  lemma AdvanceKeepsOwn(s: State, i: nat)
    requires i < |s.steers| && AdvanceSteer(s, i).Some? && SteerSound(s, i)
    ensures i < |AdvanceSteer(s, i).value.steers| && SteerSound(AdvanceSteer(s, i).value, i)
  {
    AdvanceMoves(s, i);
    PushMoved(s.log, Added(s, i), i);
    AdvanceStaysConsistent(s, i, Deliveries(s.log, i), Grants(s.log, i));
  }

  /** Registered tasks and handles belong to registrations that took place. */
  predicate EpochsUsed(s: State) {
    && (forall task :: task in s.tasks ==>
          && RegistrationOf(s, s.tasks[task].epoch, task)
          && s.registrations[s.tasks[task].epoch].owner == s.tasks[task].owner)
    && (forall task :: task in s.handles ==> s.handles[task] < |s.registrations|)
  }

  lemma AdvanceHoldsLookup(s: State, i: nat)
    requires i < |s.steers| && AdvanceSteer(s, i).Some? && HoldsLookup(s, s.steers[i]) && EpochsUsed(s)
    ensures HoldsLookup(AdvanceSteer(s, i).value, AdvanceSteer(s, i).value.steers[i])
  {
  }

  lemma AddedIsSound(s: State, i: nat)
    requires i < |s.steers| && AdvanceSteer(s, i).Some? && SteerSound(s, i) && EpochsUsed(s)
    requires HoldsLookup(s, s.steers[i])
    ensures forall e :: e in Added(s, i) ==> EntrySound(AdvanceSteer(s, i).value, e)
  {
  }

  /** Entries logged before a move stay true of it. */
  lemma MoveKeepsEntries(s: State, t: State, i: nat, added: seq<Entry>)
    requires SteersSound(s) && Moves(s, t, i, added) && !s.steers[i].progress.Returned?
    requires
      || t.steers[i].progress == Dropped
      || (s.steers[i].progress.Finishing? && t.steers[i].progress == Returned(Delivered(s.steers[i].progress.route)))
      || Deliveries(s.log, i) == 0
    ensures forall e :: e in s.log ==> EntrySound(t, e)
  {
    if Deliveries(s.log, i) == 0 {
      UncountedIsAbsent(s.log, i);
    }
    assert forall j :: 0 <= j < |s.steers| && j != i ==> t.steers[j] == s.steers[j];
    assert forall e :: e in s.log ==> EntrySound(s, e);
  }

  lemma MoveKeepsOthers(s: State, t: State, i: nat, added: seq<Entry>)
    requires SteersSound(s) && Moves(s, t, i, added)
    ensures forall j :: 0 <= j < |s.steers| && j != i ==> SteerSound(t, j) && HoldsLookup(t, t.steers[j])
  {
    forall j | 0 <= j < |s.steers| && j != i ensures SteerSound(t, j) && HoldsLookup(t, t.steers[j]) {
      PushMoved(s.log, added, j);
      if added != [] {
        assert added == [added[0]];
        CountsOfOne(added[0], j);
      }
      assert SteerSound(s, j) && HoldsLookup(s, s.steers[j]);
    }
  }

  lemma AdvanceKeepsSteers(s: State, i: nat)
    requires SteersSound(s) && EpochsUsed(s) && i < |s.steers| && AdvanceSteer(s, i).Some?
    ensures SteersSound(AdvanceSteer(s, i).value)
  {
    var t := AdvanceSteer(s, i).value;
    assert SteerSound(s, i) && HoldsLookup(s, s.steers[i]);
    AdvanceMoves(s, i);
    AdvanceKeepsOwn(s, i);
    AdvanceHoldsLookup(s, i);
    AddedIsSound(s, i);
    MoveKeepsEntries(s, t, i, Added(s, i));
    MoveKeepsOthers(s, t, i, Added(s, i));
  }

  lemma DropKeepsSteers(s: State, i: nat)
    requires SteersSound(s) && i < |s.steers| && !s.steers[i].progress.Returned?
    ensures SteersSound(SetProgress(s, i, Dropped))
  {
    var t := SetProgress(s, i, Dropped);
    assert SteerSound(s, i);
    assert Moves(s, t, i, []);
    MoveKeepsEntries(s, t, i, []);
    MoveKeepsOthers(s, t, i, []);
  }

  lemma BeginKeepsSteers(s: State, r: Request)
    requires SteersSound(s)
    ensures SteersSound(s.(steers := s.steers + [Steer(r, Checking)]))
  {
    var t := s.(steers := s.steers + [Steer(r, Checking)]);
    assert forall e :: e in s.log ==> EntrySound(s, e);
    AbsentIsUncounted(s.log, |s.steers|);
    forall j | 0 <= j < |s.steers| ensures SteerSound(t, j) && HoldsLookup(t, t.steers[j]) {
      assert SteerSound(s, j) && HoldsLookup(s, s.steers[j]);
    }
  }

  lemma {:induction false} AbsentIsUncounted(log: seq<Entry>, i: nat)
    requires forall e :: e in log ==> e.steer != i
    ensures Deliveries(log, i) == 0 && Grants(log, i) == 0
  {
    if log == [] {
    } else {
      AbsentIsUncounted(log[..|log| - 1], i);
    }
  }

  /** The registry may change freely as long as its registrations are only added to. */
  lemma RegistryKeepsSteers(s: State, t: State)
    requires SteersSound(s) && t.steers == s.steers && t.log == s.log && s.registrations <= t.registrations
    ensures SteersSound(t)
  {
    forall e | e in s.log ensures EntrySound(t, e) {
      assert EntrySound(s, e);
    }
    forall i | 0 <= i < |t.steers| ensures SteerSound(t, i) && HoldsLookup(t, t.steers[i]) {
      assert SteerSound(s, i) && HoldsLookup(s, s.steers[i]);
    }
  }

  lemma StepKeepsSteers(s: State, a: Action)
    requires SteersSound(s) && EpochsUsed(s) && Next(s, a).Some?
    ensures SteersSound(Next(s, a).value)
  {
    match a
    case Begin(r) => BeginKeepsSteers(s, r);
    case Advance(i) => AdvanceKeepsSteers(s, i);
    case Drop(i) => DropKeepsSteers(s, i);
    case _ => RegistryKeepsSteers(s, Next(s, a).value);
  }

  /** A steer only ever changes the memory of a task. */
  predicate SameTask(a: Task, b: Task) {
    a.owner == b.owner && a.epoch == b.epoch
  }

  lemma AdvanceKeepsTasks(s: State, i: nat)
    requires i < |s.steers| && AdvanceSteer(s, i).Some?
    ensures var t := AdvanceSteer(s, i).value;
      && t.registrations == s.registrations && t.handles == s.handles
      && forall task :: task in t.tasks ==> task in s.tasks && SameTask(t.tasks[task], s.tasks[task])
  {
  }

  lemma AdvanceKeepsEpochs(s: State, i: nat)
    requires EpochsUsed(s) && i < |s.steers| && AdvanceSteer(s, i).Some?
    ensures EpochsUsed(AdvanceSteer(s, i).value)
  {
    AdvanceKeepsTasks(s, i);
    SameTasksSameEpochs(s, AdvanceSteer(s, i).value);
  }

  lemma SameTasksSameEpochs(s: State, t: State)
    requires EpochsUsed(s) && t.registrations == s.registrations && t.handles == s.handles
    requires forall task :: task in t.tasks ==> task in s.tasks && SameTask(t.tasks[task], s.tasks[task])
    ensures EpochsUsed(t)
  {
  }

  lemma RegisterKeepsEpochs(s: State, task: string, owner: string)
    requires EpochsUsed(s) && task !in s.tasks
    ensures EpochsUsed(Next(s, Register(task, owner)).value)
  {
  }

  lemma StepKeepsEpochs(s: State, a: Action)
    requires EpochsUsed(s) && Next(s, a).Some?
    ensures EpochsUsed(Next(s, a).value)
  {
    match a
    case Advance(i) => AdvanceKeepsEpochs(s, i);
    case Register(task, owner) => RegisterKeepsEpochs(s, task, owner);
    case _ =>
  }

  lemma {:induction false} AlwaysSound(actions: seq<Action>)
    requires Run(actions).Some?
    ensures SteersSound(Run(actions).value) && EpochsUsed(Run(actions).value)
  {
    if actions == [] {
    } else {
      var last := |actions| - 1;
      AlwaysSound(actions[..last]);
      StepKeepsSteers(Run(actions[..last]).value, actions[last]);
      StepKeepsEpochs(Run(actions[..last]).value, actions[last]);
    }
  }
}
