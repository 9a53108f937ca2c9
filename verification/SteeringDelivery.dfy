/** At-most-once delivery of remembered request ids, over every run. */
module SteeringDelivery {
  import opened Text
  import opened RequestIds
  import opened Steering
  import opened SteeringGuarantees

  // The registry's memory is exactly the last grants of the current registration.

  predicate TaskSound(s: State, task: string)
    requires task in s.tasks
  {
    s.tasks[task].recent == LastOf(GrantedIds(s.log, s.tasks[task].epoch), DEFAULT_CAPACITY)
  }

  predicate EpochsDistinct(s: State) {
    forall a, b :: a in s.tasks && b in s.tasks && s.tasks[a].epoch == s.tasks[b].epoch ==> a == b
  }

  ghost predicate MemorySound(s: State) {
    && (forall task :: task in s.tasks ==> s.tasks[task].epoch < |s.registrations|)
    && EpochsDistinct(s)
    && (forall e :: e in s.log && e.Claim? ==> e.epoch < |s.registrations|)
    && (forall task :: task in s.tasks ==> TaskSound(s, task))
    && (forall epoch: nat :: Spaced(GrantedIds(s.log, epoch), DEFAULT_CAPACITY))
  }

  lemma {:induction false} NoGrantsOfUnusedEpoch(log: seq<Entry>, epoch: nat)
    requires forall e :: e in log && e.Claim? ==> e.epoch < epoch
    ensures GrantedIds(log, epoch) == []
  {
    if log == [] {
    } else {
      NoGrantsOfUnusedEpoch(log[..|log| - 1], epoch);
    }
  }

  /** A new entry that grants nothing leaves every memory as it was. */
  lemma QuietEntryKeepsMemory(s: State, t: State, e: Entry)
    requires MemorySound(s) && t.tasks == s.tasks && t.registrations == s.registrations && t.log == s.log + [e]
    requires e.Claim? ==> !e.granted && e.epoch < |s.registrations|
    ensures MemorySound(t)
  {
    forall epoch: nat ensures GrantedIds(t.log, epoch) == GrantedIds(s.log, epoch) {
      Push(s.log, e, 0, epoch);
    }
    forall task | task in t.tasks ensures TaskSound(t, task) {
      assert TaskSound(s, task);
    }
  }

  lemma GrantKeepsOneSpaced(log: seq<Entry>, e: Entry, epoch: nat)
    requires e.Claim? && e.granted && Spaced(GrantedIds(log, epoch), DEFAULT_CAPACITY)
    requires e.epoch == epoch ==> e.id !in LastOf(GrantedIds(log, epoch), DEFAULT_CAPACITY)
    ensures Spaced(GrantedIds(log + [e], epoch), DEFAULT_CAPACITY)
  {
    Push(log, e, 0, epoch);
    if e.epoch == epoch {
      GrantKeepsSpaced(GrantedIds(log, epoch), DEFAULT_CAPACITY, e.id);
    } else {
      assert GrantedIds(log + [e], epoch) == GrantedIds(log, epoch);
    }
  }

  lemma GrantIsRemembered(log: seq<Entry>, e: Entry, epoch: nat)
    requires e.Claim? && e.granted
    ensures var recent := LastOf(GrantedIds(log, epoch), DEFAULT_CAPACITY);
      LastOf(GrantedIds(log + [e], epoch), DEFAULT_CAPACITY)
      == if e.epoch == epoch then Remember(recent, DEFAULT_CAPACITY, e.id) else recent
  {
    Push(log, e, 0, epoch);
    if e.epoch == epoch {
      RememberKeepsLast(GrantedIds(log, epoch), DEFAULT_CAPACITY, e.id);
    } else {
      assert GrantedIds(log + [e], epoch) == GrantedIds(log, epoch);
    }
  }

  /** A grant is recorded in the memory and keeps equal ids apart. */
  lemma GrantKeepsMemory(s: State, t: State, i: nat, looked: nat, key: string, id: string)
    requires MemorySound(s) && key in s.tasks && id !in s.tasks[key].recent
    requires t.tasks == s.tasks[key := s.tasks[key].(recent := Remember(s.tasks[key].recent, DEFAULT_CAPACITY, id))]
    requires t.registrations == s.registrations
    requires t.log == s.log + [Claim(i, looked, key, s.tasks[key].epoch, id, true)]
    ensures MemorySound(t)
  {
    var e := Claim(i, looked, key, s.tasks[key].epoch, id, true);
    assert TaskSound(s, key);
    forall epoch: nat ensures Spaced(GrantedIds(t.log, epoch), DEFAULT_CAPACITY) {
      assert Spaced(GrantedIds(s.log, epoch), DEFAULT_CAPACITY);
      GrantKeepsOneSpaced(s.log, e, epoch);
    }
    forall task | task in t.tasks ensures TaskSound(t, task) {
      assert TaskSound(s, task);
      GrantIsRemembered(s.log, e, s.tasks[task].epoch);
    }
  }

  lemma RegisterKeepsMemory(s: State, task: string, owner: string)
    requires MemorySound(s) && task !in s.tasks
    ensures MemorySound(Next(s, Register(task, owner)).value)
  {
    var t := Next(s, Register(task, owner)).value;
    NoGrantsOfUnusedEpoch(s.log, |s.registrations|);
    forall other | other in t.tasks ensures TaskSound(t, other) {
      if other != task {
        assert TaskSound(s, other);
      }
    }
  }

  /** Fewer tasks, or other statuses, change no memory. */
  lemma QuietChangeKeepsMemory(s: State, t: State)
    requires MemorySound(s) && t.log == s.log && t.registrations == s.registrations
    requires forall task :: task in t.tasks ==>
      task in s.tasks && t.tasks[task].recent == s.tasks[task].recent && t.tasks[task].epoch == s.tasks[task].epoch
    ensures MemorySound(t)
  {
    forall task | task in t.tasks ensures TaskSound(t, task) {
      assert TaskSound(s, task);
    }
  }

  lemma AdvanceKeepsMemory(s: State, i: nat)
    requires MemorySound(s) && i < |s.steers| && AdvanceSteer(s, i).Some?
    ensures MemorySound(AdvanceSteer(s, i).value)
  {
    var t, r, added := AdvanceSteer(s, i).value, s.steers[i].request, Added(s, i);
    AdvanceMoves(s, i);
    if added == [] {
      assert t.log == s.log;
      QuietChangeKeepsMemory(s, t);
    } else if added[0].Claim? && added[0].granted {
      GrantKeepsMemory(s, t, i, s.steers[i].progress.looked, r.task, r.id.value);
    } else {
      assert added == [added[0]];
      QuietEntryKeepsMemory(s, t, added[0]);
    }
  }

  lemma StepKeepsMemory(s: State, a: Action)
    requires MemorySound(s) && Next(s, a).Some?
    ensures MemorySound(Next(s, a).value)
  {
    match a
    case Advance(i) => AdvanceKeepsMemory(s, i);
    case Register(task, owner) => RegisterKeepsMemory(s, task, owner);
    case _ => QuietChangeKeepsMemory(s, Next(s, a).value);
  }

  lemma {:induction false} MemoryAlwaysSound(actions: seq<Action>)
    requires Run(actions).Some?
    ensures MemorySound(Run(actions).value)
  {
    if actions == [] {
    } else {
      var last := |actions| - 1;
      MemoryAlwaysSound(actions[..last]);
      StepKeepsMemory(Run(actions[..last]).value, actions[last]);
    }
  }

  // Main results.

  predicate IsGrant(log: seq<Entry>, c: nat, i: nat) {
    c < |log| && log[c].Claim? && log[c].granted && log[c].steer == i
  }

  /** A request id is granted a second time within one registration only after at least 64 other
      grants. */
  lemma RegrantIsFarAway(s: State, c: nat, d: nat)
    requires Reachable(s) && c < d < |s.log|
    requires s.log[c].Claim? && s.log[c].granted && s.log[d].Claim? && s.log[d].granted
    requires s.log[c].epoch == s.log[d].epoch && s.log[c].id == s.log[d].id
    ensures |GrantedIds(s.log[c + 1..d], s.log[c].epoch)| >= DEFAULT_CAPACITY
  {
    var actions :| Run(actions) == Some(s);
    MemoryAlwaysSound(actions);
    var epoch, log := s.log[c].epoch, s.log;
    var a, b, z := log[..c], log[c + 1..d], log[d + 1..];
    assert log == ((a + [log[c]]) + b + [log[d]]) + z;
    GrantedIdsConcat((a + [log[c]]) + b + [log[d]], z, epoch);
    Push((a + [log[c]]) + b, log[d], 0, epoch);
    GrantedIdsConcat(a + [log[c]], b, epoch);
    Push(a, log[c], 0, epoch);
    var ids := GrantedIds(log, epoch);
    var i := |GrantedIds(a, epoch)|;
    var j := i + 1 + |GrantedIds(b, epoch)|;
    assert ids[i] == ids[j];
    assert Spaced(ids, DEFAULT_CAPACITY);
  }

  lemma {:induction false} CountedGrantExists(log: seq<Entry>, i: nat) returns (c: nat)
    requires Grants(log, i) > 0
    ensures IsGrant(log, c, i)
  {
    var last := |log| - 1;
    if log[last].Claim? && log[last].granted && log[last].steer == i {
      c := last;
    } else {
      c := CountedGrantExists(log[..last], i);
    }
  }

  lemma {:induction false} CountedTwice(log: seq<Entry>, i: nat, c: nat, d: nat)
    requires c < d < |log| && log[c].Delivery? && log[d].Delivery? && log[c].steer == log[d].steer == i
    ensures Deliveries(log, i) >= 2
  {
    var last := |log| - 1;
    if d < last {
      CountedTwice(log[..last], i, c, d);
    } else {
      CountedOnce(log[..last], i, c);
    }
  }

  lemma {:induction false} CountedOnce(log: seq<Entry>, i: nat, c: nat)
    requires c < |log| && log[c].Delivery? && log[c].steer == i
    ensures Deliveries(log, i) >= 1
  {
    if c == |log| - 1 {
    } else {
      CountedOnce(log[..|log| - 1], i, c);
    }
  }

  /** Every delivery with a request id comes after its steer's grant. */
  predicate GrantedFirst(log: seq<Entry>) {
    forall d :: 0 <= d < |log| && log[d].Delivery? && log[d].request.id.Some? ==> Grants(log[..d], log[d].steer) > 0
  }

  lemma AdvanceGrantsFirst(s: State, i: nat)
    requires SteersSound(s) && GrantedFirst(s.log) && i < |s.steers| && AdvanceSteer(s, i).Some?
    ensures GrantedFirst(AdvanceSteer(s, i).value.log)
  {
    AdvanceMoves(s, i);
    var log := s.log + Added(s, i);
    assert SteerSound(s, i);
    assert forall d :: 0 <= d <= |s.log| ==> log[..d] == s.log[..d];
    assert s.log[..|s.log|] == s.log;
  }

  lemma {:induction false} AlwaysGrantedFirst(actions: seq<Action>)
    requires Run(actions).Some?
    ensures GrantedFirst(Run(actions).value.log)
  {
    if actions == [] {
    } else {
      var last := |actions| - 1;
      var s := Run(actions[..last]).value;
      AlwaysGrantedFirst(actions[..last]);
      AlwaysSound(actions[..last]);
      if actions[last].Advance? {
        AdvanceGrantsFirst(s, actions[last].steer);
      }
    }
  }

  /** No steer delivers twice, and one with a request id delivers only after its own grant. */
  lemma DeliveryHasOwnGrant(s: State, d: nat) returns (c: nat)
    requires Reachable(s) && d < |s.log| && s.log[d].Delivery? && s.log[d].request.id.Some?
    ensures c < d && IsGrant(s.log, c, s.log[d].steer)
    ensures s.log[c].task == s.log[d].request.task && Some(s.log[c].id) == s.log[d].request.id
    ensures Deliveries(s.log, s.log[d].steer) == 1 == Grants(s.log, s.log[d].steer)
  {
    var actions :| Run(actions) == Some(s);
    AlwaysSound(actions);
    var i := s.log[d].steer;
    assert EntrySound(s, s.log[d]) && SteerSound(s, i);
    CountedOnce(s.log, i, d);
    AlwaysGrantedFirst(actions);
    c := CountedGrantExists(s.log[..d], i);
    assert EntrySound(s, s.log[c]);
  }

  /** Two deliveries of one request id to one task were claimed either under two registrations of
      that task or with at least 64 other grants in between. */
  lemma RememberedIdIsDeliveredOnce(s: State, d: nat, e: nat) returns (c: nat, f: nat)
    requires Reachable(s) && d < e < |s.log| && s.log[d].Delivery? && s.log[e].Delivery?
    requires s.log[d].request.task == s.log[e].request.task
    requires s.log[d].request.id == s.log[e].request.id && s.log[d].request.id.Some?
    ensures s.log[d].steer != s.log[e].steer
    ensures c < d && IsGrant(s.log, c, s.log[d].steer)
    ensures f < e && IsGrant(s.log, f, s.log[e].steer)
    ensures s.log[c].epoch == s.log[f].epoch ==>
      || (c < f && |GrantedIds(s.log[c + 1..f], s.log[c].epoch)| >= DEFAULT_CAPACITY)
      || (f < c && |GrantedIds(s.log[f + 1..c], s.log[c].epoch)| >= DEFAULT_CAPACITY)
  {
    c := DeliveryHasOwnGrant(s, d);
    f := DeliveryHasOwnGrant(s, e);
    if s.log[d].steer == s.log[e].steer {
      CountedTwice(s.log, s.log[d].steer, d, e);
      assert false;
    }
    if s.log[c].epoch == s.log[f].epoch {
      if c < f {
        RegrantIsFarAway(s, c, f);
      } else {
        RegrantIsFarAway(s, f, c);
      }
    }
  }

  /** A steer that reports a route handed its message over exactly once, by that route; one that
      failed, or was told its id is already applied, handed over nothing. */
  lemma ResultTellsDelivery(s: State, i: nat)
    requires Reachable(s) && i < |s.steers| && s.steers[i].progress.Returned?
    ensures s.steers[i].progress.result.Delivered? <==> Deliveries(s.log, i) == 1
    ensures !s.steers[i].progress.result.Delivered? <==> Deliveries(s.log, i) == 0
    ensures !s.steers[i].progress.result.Delivered? ==> Grants(s.log, i) == 0
    ensures forall e :: e in s.log && e.Delivery? && e.steer == i ==>
      && s.steers[i].progress.result == Delivered(RouteOf(e.handle))
      && e.request == s.steers[i].request && Admissible(e.request)
    ensures s.steers[i].request.id.None? ==> s.steers[i].progress.result != AlreadyApplied
  {
    var actions :| Run(actions) == Some(s);
    AlwaysSound(actions);
    assert SteerSound(s, i);
    assert forall e :: e in s.log ==> EntrySound(s, e);
  }

  lemma {:induction false} UngrantedIsAbsent(log: seq<Entry>, i: nat)
    requires Grants(log, i) == 0
    ensures forall e :: e in log && e.Claim? && e.granted ==> e.steer != i
  {
    if log == [] {
    } else {
      UngrantedIsAbsent(log[..|log| - 1], i);
      assert log == log[..|log| - 1] + [log[|log| - 1]];
    }
  }

  /** A steer that failed left no trace: it claimed no id, was refused none, and handed over nothing,
      so its id can be used again. */
  lemma FailureLeavesNoTrace(s: State, i: nat)
    requires Reachable(s) && i < |s.steers| && s.steers[i].progress.Returned? && s.steers[i].progress.result.Failed?
    ensures forall e :: e in s.log ==> e.steer != i
  {
    var actions :| Run(actions) == Some(s);
    AlwaysSound(actions);
    assert SteerSound(s, i);
    UngrantedIsAbsent(s.log, i);
    UncountedIsAbsent(s.log, i);
    assert forall e :: e in s.log ==> EntrySound(s, e);
  }

  /** A claim is refused exactly when its id is among the last 64 grants of the task's current
      registration. */
  lemma RefusedIffRemembered(s: State, i: nat)
    requires Reachable(s) && i < |s.steers| && s.steers[i].progress.Claiming?
    requires s.steers[i].request.id.Some? && s.steers[i].request.task in s.tasks
    ensures AdvanceSteer(s, i).Some?
    ensures AdvanceSteer(s, i).value.steers[i].progress == Returned(AlreadyApplied)
       <==> s.steers[i].request.id.value
            in LastOf(GrantedIds(s.log, s.tasks[s.steers[i].request.task].epoch), DEFAULT_CAPACITY)
  {
    var actions :| Run(actions) == Some(s);
    MemoryAlwaysSound(actions);
    assert TaskSound(s, s.steers[i].request.task);
  }
}
