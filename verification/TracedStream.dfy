/**
 * The traced model stream of a close request: every started call is closed exactly once
 * (crates/tinyagents-harness/src/close.rs, with the call guard of
 * crates/tinyagents-harness/src/observability/supplemental.rs).
 */
module TracedStream {
  import opened Text

  /** A stream item; `Progress` stands for every item that is not terminal, deferrals included. */
  datatype Item = Completed(response: nat) | Failed | ProviderFailed | Progress(text: string)

  datatype TraceEvent = ModelStarted | ModelCompleted(response: nat) | ModelFailed

  /** The wrapper: the inner items not yet polled, the call guard with its completed flag
      (`None` once taken, or when there is no trace), and the two stop flags. */
  datatype Wrapper = Wrapper(rest: seq<Item>, guard: Option<bool>, terminal: bool, ended: bool, trace: seq<TraceEvent>)

  predicate IsTerminal(item: Item) {
    !item.Progress?
  }

  /** The guard's drop: a call that was not completed is recorded as failed. */
  function DropGuard(w: Wrapper): Wrapper {
    w.(guard := None, trace := if w.guard == Some(false) then w.trace + [ModelFailed] else w.trace)
  }

  function Complete(w: Wrapper, response: nat): Wrapper {
    if w.guard.Some? then w.(guard := Some(true), trace := w.trace + [ModelCompleted(response)]) else w
  }

  function Start(inner: seq<Item>, traced: bool): Wrapper {
    Wrapper(inner, if traced then Some(false) else None, false, false, if traced then [ModelStarted] else [])
  }

  /** One poll by the consumer: the item forwarded, if any. */
  function Poll(w: Wrapper): (Option<Item>, Wrapper) {
    if w.terminal || w.ended then (None, w.(ended := true))
    else if w.rest == [] then (None, DropGuard(w).(ended := true))
    else
      var item := w.rest[0];
      var next := w.(rest := w.rest[1..], terminal := IsTerminal(item));
      match item
      case Completed(response) => (Some(item), Complete(next, response))
      case Progress(_) => (Some(item), next)
      case _ => (Some(item), DropGuard(next))
  }

  /** The items forwarded by the first `polls` polls, and the wrapper after them. */
  function Forward(w: Wrapper, polls: nat): (seq<Item>, Wrapper)
    decreases polls
  {
    if polls == 0 then ([], w)
    else
      var (item, next) := Poll(w);
      if item.None? then ([], next)
      else var (items, last) := Forward(next, polls - 1); ([item.value] + items, last)
  }

  /** The wrapper's whole life: so many polls, then the consumer drops it. */
  function Life(inner: seq<Item>, traced: bool, polls: nat): (seq<Item>, seq<TraceEvent>) {
    var (items, last) := Forward(Start(inner, traced), polls);
    (items, DropGuard(last).trace)
  }

  /** Opening the inner stream failed, or the caller was dropped while opening it. */
  function NeverOpened(traced: bool): seq<TraceEvent> {
    DropGuard(Start([], traced)).trace
  }

  /** Number of items up to and including the first terminal one. */
  function Reach(items: seq<Item>): (n: nat)
    ensures n <= |items|
    ensures forall i :: 0 <= i < n - 1 ==> !IsTerminal(items[i])
    ensures n < |items| ==> 0 < n && IsTerminal(items[n - 1])
  {
    if items == [] then 0 else if IsTerminal(items[0]) then 1 else 1 + Reach(items[1..])
  }

  predicate HasCompleted(items: seq<Item>) {
    exists i :: 0 <= i < |items| && items[i].Completed?
  }

  /** How the trace of a call that forwarded `items` must end. */
  predicate ClosedOnce(items: seq<Item>, trace: seq<TraceEvent>) {
    && |trace| == 2 && trace[0] == ModelStarted
    && (trace[1].ModelCompleted? <==> HasCompleted(items))
    && (trace[1].ModelFailed? <==> !HasCompleted(items))
    && (trace[1].ModelCompleted? ==> exists i :: 0 <= i < |items| && items[i] == Completed(trace[1].response))
  }

  /** What polling a live wrapper over `rest` must come to. */
  predicate GoodForward(rest: seq<Item>, traced: bool, polls: nat, items: seq<Item>, last: Wrapper) {
    && items == rest[..if polls < Reach(rest) then polls else Reach(rest)]
    && (if traced then ClosedOnce(items, DropGuard(last).trace) else DropGuard(last).trace == [])
    && (polls > |items| || (items != [] && IsTerminal(items[|items| - 1])) ==> last.trace == DropGuard(last).trace)
  }

  lemma ForwardNothing(rest: seq<Item>, traced: bool, polls: nat)
    requires polls == 0 || rest == []
    ensures var (items, last) := Forward(Start(rest, traced), polls); GoodForward(rest, traced, polls, items, last)
  {
  }

  lemma ForwardTerminal(rest: seq<Item>, traced: bool, polls: nat)
    requires polls > 0 && rest != [] && IsTerminal(rest[0])
    ensures var (items, last) := Forward(Start(rest, traced), polls); GoodForward(rest, traced, polls, items, last)
  {
    var next := Poll(Start(rest, traced)).1;
    AfterTerminal(next, polls - 1);
    var (items, last) := Forward(Start(rest, traced), polls);
    assert items == [rest[0]] == rest[..1];
    assert items[0] == rest[0];
    assert DropGuard(last).trace == last.trace == next.trace;
  }

  lemma ForwardProgress(rest: seq<Item>, traced: bool, polls: nat, items: seq<Item>, last: Wrapper)
    requires polls > 0 && rest != [] && !IsTerminal(rest[0]) && GoodForward(rest[1..], traced, polls - 1, items, last)
    ensures GoodForward(rest, traced, polls, [rest[0]] + items, last)
  {
    var trace := DropGuard(last).trace;
    PrependProgress(rest[0], items, trace);
    var all := [rest[0]] + items;
    assert Reach(rest) == 1 + Reach(rest[1..]);
    assert all == rest[..|items| + 1];
    assert items != [] ==> all[|all| - 1] == items[|items| - 1];
  }

  lemma {:induction false} ForwardFromStart(rest: seq<Item>, traced: bool, polls: nat)
    ensures var (items, last) := Forward(Start(rest, traced), polls); GoodForward(rest, traced, polls, items, last)
    decreases polls
  {
    if polls == 0 || rest == [] {
      ForwardNothing(rest, traced, polls);
    } else if IsTerminal(rest[0]) {
      ForwardTerminal(rest, traced, polls);
    } else {
      ForwardFromStart(rest[1..], traced, polls - 1);
      var (items, last) := Forward(Start(rest[1..], traced), polls - 1);
      assert Poll(Start(rest, traced)) == (Some(rest[0]), Start(rest[1..], traced));
      ForwardProgress(rest, traced, polls, items, last);
    }
  }

  lemma AfterTerminal(w: Wrapper, polls: nat)
    requires w.terminal
    ensures var (items, last) := Forward(w, polls);
            items == [] && last.trace == w.trace && last.guard == w.guard && last.terminal
  {
  }

  lemma PrependProgress(item: Item, items: seq<Item>, trace: seq<TraceEvent>)
    requires item.Progress?
    ensures ClosedOnce(items, trace) ==> ClosedOnce([item] + items, trace)
  {
    var all := [item] + items;
    assert forall i :: 0 <= i < |items| ==> all[i + 1] == items[i];
    assert HasCompleted(items) <==> HasCompleted(all) by {
      if HasCompleted(items) {
        var i :| 0 <= i < |items| && items[i].Completed?;
        assert all[i + 1].Completed?;
      }
      if HasCompleted(all) {
        var i :| 0 <= i < |all| && all[i].Completed?;
        assert items[i - 1].Completed?;
      }
    }
    if ClosedOnce(items, trace) && trace[1].ModelCompleted? {
      var i :| 0 <= i < |items| && items[i] == Completed(trace[1].response);
      assert all[i + 1] == Completed(trace[1].response);
    }
  }

  /**
   * For every inner stream and every moment at which the consumer drops the wrapper: the
   * items forwarded are the inner prefix up to and including the first terminal item, and a
   * started call ends exactly once, completed if and only if a completion was forwarded.
   */
  lemma EveryCallClosesOnce(inner: seq<Item>, traced: bool, polls: nat)
    ensures var (items, trace) := Life(inner, traced, polls);
            && items == inner[..if polls < Reach(inner) then polls else Reach(inner)]
            && (if traced then ClosedOnce(items, trace) else trace == [])
    ensures if traced then ClosedOnce([], NeverOpened(traced)) else NeverOpened(traced) == []
  {
    ForwardFromStart(inner, traced, polls);
  }

  /** The call is already closed when the consumer has seen a terminal item or the end of the
      stream, even if it goes on holding the wrapper. */
  lemma ClosedWithoutWaitingForDrop(inner: seq<Item>, polls: nat)
    ensures var (items, last) := Forward(Start(inner, true), polls);
            var n := Reach(inner);
            polls > n || (polls == n > 0 && IsTerminal(inner[n - 1])) ==> ClosedOnce(items, last.trace)
  {
    ForwardFromStart(inner, true, polls);
  }
}
