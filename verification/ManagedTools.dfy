/** Visibility sets of a turn's managed tools (crates/tinyagents-runtime/src/managed_tools.rs). */
module ManagedTools {

  datatype Names = Names(visible: set<string>, deferred: set<string>, permanent: set<string>)

  datatype Step =
    | Refresh(previous: set<string>, next: set<string>, auto: bool)
    | Defer(names: set<string>)
    | Promote(names: set<string>)

  function Apply(n: Names, step: Step): Names {
    match step
    case Refresh(previous, next, auto) =>
      var revoked, permanent := previous - next, n.permanent - (previous - next);
      var admitted := if auto then next - previous else {};
      Names(n.visible - revoked + admitted + permanent, n.deferred - revoked - permanent, permanent)
    case Defer(names) =>
      var moved := n.visible * names - n.permanent;
      Names(n.visible - moved, n.deferred + moved, n.permanent)
    case Promote(names) =>
      var permanent := n.permanent + names;
      Names(n.visible + permanent, n.deferred - permanent, permanent)
  }

  function Run(n: Names, steps: seq<Step>): Names
    decreases |steps|
  {
    if steps == [] then n else Run(Apply(n, steps[0]), steps[1..])
  }

  /** The sets as the host holds them, updated in place. */
  class ManagedToolNames {
    var visible: set<string>
    var deferred: set<string>
    var permanent: set<string>

    function View(): Names
      reads this
    {
      Names(visible, deferred, permanent)
    }

    constructor ()
      ensures View() == Names({}, {}, {})
    {
      visible, deferred, permanent := {}, {}, {};
    }

    method RefreshSynthesized(previous: set<string>, next: set<string>, auto: bool)
      modifies this
      ensures View() == Apply(old(View()), Refresh(previous, next, auto))
    {
      var revoked := previous - next;
      visible := visible - revoked;
      deferred := deferred - revoked;
      permanent := permanent - revoked;
      if auto {
        visible := visible + (next - previous);
      }
      visible := visible + permanent;
      deferred := set name | name in deferred && name !in permanent;
      assert deferred == old(deferred) - revoked - permanent;
    }

    method DeferVisible(names: set<string>)
      modifies this
      ensures View() == Apply(old(View()), Defer(names))
    {
      var moved := set name | name in visible * names && name !in permanent;
      ghost var all := moved;
      assert all == old(visible) * names - old(permanent);
      while moved != {}
        invariant moved <= all && permanent == old(permanent)
        invariant visible == old(visible) - (all - moved) && deferred == old(deferred) + (all - moved)
        decreases moved
      {
        var name :| name in moved;
        visible := visible - {name};
        deferred := deferred + {name};
        moved := moved - {name};
      }
    }

    method MakePermanent(names: set<string>)
      modifies this
      ensures View() == Apply(old(View()), Promote(names))
    {
      permanent := permanent + names;
      visible := visible + permanent;
      deferred := set name | name in deferred && name !in permanent;
      assert deferred == old(deferred) - permanent;
    }
  }

  // Every run.

  predicate PermanentKept(n: Names) {
    n.permanent <= n.visible && n.permanent !! n.deferred
  }

  /** Permanent names stay visible and are never deferred, whatever the steps. */
  lemma {:induction false} PermanentAlwaysKept(n: Names, steps: seq<Step>)
    requires PermanentKept(n)
    ensures PermanentKept(Run(n, steps))
    decreases |steps|
  {
    if steps == [] {
    } else {
      PermanentAlwaysKept(Apply(n, steps[0]), steps[1..]);
    }
  }

  /** Whether one name is known after a run, forgetting which set holds it: a revocation removes
      it, a promotion or an automatic inclusion adds it, nothing else matters. */
  function Known(known: bool, name: string, steps: seq<Step>): bool
    decreases |steps|
  {
    if steps == [] then known
    else
      var now := match steps[0]
        case Refresh(previous, next, auto) =>
          if name in previous && name !in next then false
          else known || (auto && name in next && name !in previous)
        case Defer(_) => known
        case Promote(names) => known || name in names;
      Known(now, name, steps[1..])
  }

  /** The three sets together hold exactly the names known by the history of the run: a revoked
      name is in none of them until it is admitted again, and no other name is gained or lost. */
  lemma {:induction false} HoldsExactlyKnown(n: Names, steps: seq<Step>, name: string)
    requires PermanentKept(n)
    ensures var r := Run(n, steps);
      name in r.visible + r.deferred + r.permanent <==> Known(name in n.visible + n.deferred, name, steps)
    decreases |steps|
  {
    if steps == [] {
    } else {
      HoldsExactlyKnown(Apply(n, steps[0]), steps[1..], name);
    }
  }

  predicate Revokes(step: Step, name: string) {
    step.Refresh? && name in step.previous && name !in step.next
  }

  predicate Releases(step: Step, name: string) {
    Revokes(step, name) || (step.Promote? && name in step.names)
  }

  /** A deferred name stays deferred until a step promotes or revokes it. */
  lemma {:induction false} DeferredUntilReleased(n: Names, steps: seq<Step>, name: string)
    requires name in n.deferred && name !in n.permanent
    requires forall i :: 0 <= i < |steps| ==> !Releases(steps[i], name)
    ensures name in Run(n, steps).deferred && name !in Run(n, steps).permanent
    decreases |steps|
  {
    if steps == [] {
    } else {
      assert !Releases(steps[0], name);
      assert forall i :: 0 <= i < |steps| - 1 ==> steps[1..][i] == steps[i + 1];
      DeferredUntilReleased(Apply(n, steps[0]), steps[1..], name);
    }
  }

  /** A permanent name stays permanent, and so visible, until a step revokes it. */
  lemma {:induction false} PermanentUntilRevoked(n: Names, steps: seq<Step>, name: string)
    requires name in n.permanent && name in n.visible
    requires forall i :: 0 <= i < |steps| ==> !Revokes(steps[i], name)
    ensures name in Run(n, steps).permanent && name in Run(n, steps).visible
    decreases |steps|
  {
    if steps == [] {
    } else {
      assert !Revokes(steps[0], name);
      assert forall i :: 0 <= i < |steps| - 1 ==> steps[1..][i] == steps[i + 1];
      PermanentUntilRevoked(Apply(n, steps[0]), steps[1..], name);
    }
  }

  /** Deferring hides every named tool that is not permanent, and only moves names. */
  lemma DeferOnlyMoves(n: Names, names: set<string>)
    ensures var r := Apply(n, Defer(names));
      && r.visible * names <= n.permanent == r.permanent
      && r.visible + r.deferred == n.visible + n.deferred
      && n.deferred <= r.deferred <= n.deferred + n.visible * names
  {
  }

  /** Without automatic inclusion a refresh adds no name, and never touches a name it does not revoke
      unless that name is permanent. */
  lemma RefreshWithoutAutoOnlyRemoves(n: Names, previous: set<string>, next: set<string>)
    requires PermanentKept(n)
    ensures Apply(n, Refresh(previous, next, false))
         == Names(n.visible - (previous - next), n.deferred - (previous - next), n.permanent - (previous - next))
  {
  }

  // A name is not both visible and deferred.

  /** Each refresh starts from the previous one's names, and synthesized names avoid the host's. */
  predicate Chained(steps: seq<Step>, current: set<string>, host: set<string>) {
    steps != [] ==>
      if steps[0].Refresh? then
        steps[0].previous == current && steps[0].next !! host && Chained(steps[1..], steps[0].next, host)
      else Chained(steps[1..], current, host)
  }

  predicate Accounted(n: Names, current: set<string>, host: set<string>) {
    && n.visible !! n.deferred
    && n.visible <= host + current + n.permanent
    && n.deferred <= host + current
    && PermanentKept(n)
  }

  lemma RefreshAccounted(n: Names, current: set<string>, next: set<string>, auto: bool, host: set<string>)
    requires Accounted(n, current, host) && next !! host
    ensures Accounted(Apply(n, Refresh(current, next, auto)), next, host)
  {
  }

  lemma {:induction false} NeverVisibleAndDeferred(n: Names, steps: seq<Step>, current: set<string>, host: set<string>)
    requires Accounted(n, current, host) && Chained(steps, current, host)
    ensures Run(n, steps).visible !! Run(n, steps).deferred
    decreases |steps|
  {
    if steps == [] {
    } else {
      if steps[0].Refresh? {
        RefreshAccounted(n, current, steps[0].next, steps[0].auto, host);
        NeverVisibleAndDeferred(Apply(n, steps[0]), steps[1..], steps[0].next, host);
      } else {
        NeverVisibleAndDeferred(Apply(n, steps[0]), steps[1..], current, host);
      }
    }
  }

  /** Outside such chains: a refresh keeps the two sets apart exactly when it admits no name that is
      deferred and not permanent. */
  lemma RefreshSeparatesIff(n: Names, previous: set<string>, next: set<string>, auto: bool)
    requires n.visible !! n.deferred
    ensures var r := Apply(n, Refresh(previous, next, auto));
      r.visible !! r.deferred <==> !auto || (next - previous) * n.deferred <= n.permanent
  {
    var r := Apply(n, Refresh(previous, next, auto));
    if auto && !((next - previous) * n.deferred <= n.permanent) {
      var name :| name in (next - previous) * n.deferred && name !in n.permanent;
      assert name in r.visible && name in r.deferred;
    }
  }

  /** A deferred name that a refresh reports as new ends up in both sets. */
  lemma RefreshCanOverlap()
    ensures var r := Apply(Names({}, {"search"}, {}), Refresh({}, {"search"}, true));
      r.visible == r.deferred == {"search"}
  {
  }
}
