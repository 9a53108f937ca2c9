/** Grouped summary of a stopped turn (crates/tinyagents-harness/src/turn_stop.rs). */
module StopSummary {
  import opened Text
  import opened Decimal
  import opened Interpolate
  import opened RenderResults

  /** What decides which group a result joins. */
  datatype Label = Label(name: string, success: bool, error: Option<string>)

  datatype Group = Group(key: Label, count: nat)

  function LabelOf(r: ToolResult, scrub: string -> string): Label {
    Label(r.name, r.success, if r.success || scrub(r.content) == "" then None else Some(scrub(r.content)))
  }

  function Labels(results: seq<ToolResult>, scrub: string -> string): seq<Label> {
    seq(|results|, i requires 0 <= i < |results| => LabelOf(results[i], scrub))
  }

  function FirstIndex(labels: seq<Label>, l: Label): (i: nat)
    requires l in labels
    ensures i < |labels| && labels[i] == l && l !in labels[..i]
  {
    if labels[0] == l then 0 else 1 + FirstIndex(labels[1..], l)
  }

  function Total(groups: seq<Group>): nat {
    if groups == [] then 0 else Total(groups[..|groups| - 1]) + groups[|groups| - 1].count
  }

  /** One group per label, in order of first occurrence, each counting its results. */
  predicate Grouped(labels: seq<Label>, groups: seq<Group>) {
    && (forall i :: 0 <= i < |groups| ==> groups[i].key in labels)
    && (forall i :: 0 <= i < |groups| ==> groups[i].count == multiset(labels)[groups[i].key])
    && (forall l :: l in labels ==> exists i :: 0 <= i < |groups| && groups[i].key == l)
    && (forall i, j :: 0 <= i < j < |groups| ==>
          FirstIndex(labels, groups[i].key) < FirstIndex(labels, groups[j].key))
  }

  lemma FirstIndexOfPush(labels: seq<Label>, extra: Label, l: Label)
    requires l in labels + [extra]
    ensures FirstIndex(labels + [extra], l) == if l in labels then FirstIndex(labels, l) else |labels|
  {
    var all := labels + [extra];
    var i := FirstIndex(all, l);
    if l in labels {
      var j := FirstIndex(labels, l);
      assert all[..i] == labels[..i] || i == |labels|;
      assert all[..j] == labels[..j] && all[j] == l;
      assert i <= j;
      assert j <= i;
    }
  }

  method FindGroup(groups: seq<Group>, l: Label) returns (k: nat)
    ensures k <= |groups|
    ensures k < |groups| ==> groups[k].key == l
    ensures k == |groups| ==> forall i :: 0 <= i < |groups| ==> groups[i].key != l
  {
    k := 0;
    while k < |groups| && groups[k].key != l
      invariant k <= |groups| && forall i :: 0 <= i < k ==> groups[i].key != l
    {
      k := k + 1;
    }
  }

  lemma OrderKept(labels: seq<Label>, groups: seq<Group>, l: Label)
    requires Grouped(labels, groups)
    ensures forall i, j :: 0 <= i < j < |groups| ==>
      FirstIndex(labels + [l], groups[i].key) < FirstIndex(labels + [l], groups[j].key)
  {
    forall i, j | 0 <= i < j < |groups|
      ensures FirstIndex(labels + [l], groups[i].key) < FirstIndex(labels + [l], groups[j].key)
    {
      FirstIndexOfPush(labels, l, groups[i].key);
      FirstIndexOfPush(labels, l, groups[j].key);
    }
  }

  lemma LabelsApart(labels: seq<Label>, groups: seq<Group>, i: nat, j: nat)
    requires Grouped(labels, groups) && i < j < |groups|
    ensures groups[i].key != groups[j].key
  {
    assert FirstIndex(labels, groups[i].key) < FirstIndex(labels, groups[j].key);
  }

  lemma JoinKeepsGrouped(labels: seq<Label>, groups: seq<Group>, k: nat)
    requires Grouped(labels, groups) && k < |groups|
    ensures Grouped(labels + [groups[k].key], groups[k := groups[k].(count := groups[k].count + 1)])
  {
    var l := groups[k].key;
    var all, after := labels + [l], groups[k := groups[k].(count := groups[k].count + 1)];
    assert forall i :: 0 <= i < |groups| ==> after[i].key == groups[i].key;
    OrderKept(labels, groups, l);
    forall i | 0 <= i < |groups| ensures after[i].count == multiset(all)[after[i].key] {
      if i < k {
        LabelsApart(labels, groups, i, k);
      } else if k < i {
        LabelsApart(labels, groups, k, i);
      }
    }
    forall x | x in all ensures exists i :: 0 <= i < |after| && after[i].key == x {
      assert x in labels;
      var i :| 0 <= i < |groups| && groups[i].key == x;
      assert after[i].key == x;
    }
  }

  lemma NewLabelIsLast(labels: seq<Label>, groups: seq<Group>, l: Label)
    requires Grouped(labels, groups) && l !in labels
    ensures forall i :: 0 <= i < |groups| ==> FirstIndex(labels + [l], groups[i].key) < FirstIndex(labels + [l], l)
  {
    forall i | 0 <= i < |groups| ensures FirstIndex(labels + [l], groups[i].key) < FirstIndex(labels + [l], l) {
      FirstIndexOfPush(labels, l, groups[i].key);
      FirstIndexOfPush(labels, l, l);
    }
  }

  lemma StartKeepsGrouped(labels: seq<Label>, groups: seq<Group>, l: Label)
    requires Grouped(labels, groups) && forall i :: 0 <= i < |groups| ==> groups[i].key != l
    ensures Grouped(labels + [l], groups + [Group(l, 1)])
  {
    var all, after := labels + [l], groups + [Group(l, 1)];
    assert l !in labels;
    OrderKept(labels, groups, l);
    NewLabelIsLast(labels, groups, l);
    forall x | x in all ensures exists i :: 0 <= i < |after| && after[i].key == x {
      if x in labels {
        var i :| 0 <= i < |groups| && groups[i].key == x;
        assert after[i].key == x;
      } else {
        assert after[|groups|].key == x;
      }
    }
  }

  lemma {:induction false} TotalJoin(groups: seq<Group>, k: nat)
    requires k < |groups|
    ensures Total(groups[k := groups[k].(count := groups[k].count + 1)]) == Total(groups) + 1
  {
    var after, last := groups[k := groups[k].(count := groups[k].count + 1)], |groups| - 1;
    if k < last {
      TotalJoin(groups[..last], k);
      assert after[..last] == groups[..last][k := groups[k].(count := groups[k].count + 1)];
    } else {
      assert after[..last] == groups[..last];
    }
  }

  method AddResult(ghost labels: seq<Label>, groups: seq<Group>, l: Label) returns (after: seq<Group>)
    requires Grouped(labels, groups)
    ensures Grouped(labels + [l], after) && Total(after) == Total(groups) + 1
  {
    var k := FindGroup(groups, l);
    if k < |groups| {
      JoinKeepsGrouped(labels, groups, k);
      TotalJoin(groups, k);
      after := groups[k := groups[k].(count := groups[k].count + 1)];
    } else {
      StartKeepsGrouped(labels, groups, l);
      TotalStart(groups, Group(l, 1));
      after := groups + [Group(l, 1)];
    }
  }

  lemma TotalStart(groups: seq<Group>, g: Group)
    ensures Total(groups + [g]) == Total(groups) + g.count
  {
    assert (groups + [g])[..|groups|] == groups;
  }

  lemma LabelsStep(results: seq<ToolResult>, scrub: string -> string, i: nat)
    requires i < |results|
    ensures Labels(results[..i + 1], scrub) == Labels(results[..i], scrub) + [LabelOf(results[i], scrub)]
  {
  }

  method GroupStopResults(results: seq<ToolResult>, scrub: string -> string) returns (groups: seq<Group>)
    ensures Grouped(Labels(results, scrub), groups)
    ensures Total(groups) == |results|
  {
    groups := [];
    for i := 0 to |results|
      invariant Grouped(Labels(results[..i], scrub), groups) && Total(groups) == i
    {
      LabelsStep(results, scrub, i);
      groups := AddResult(Labels(results[..i], scrub), groups, LabelOf(results[i], scrub));
    }
    assert results[..|results|] == results;
  }

  // Rendering.

  const SHOWN_GROUPS: nat := 8

  datatype Copy = Copy(
    opening: string, heading: string, success: string, failure: string, hidden: string, proceed: string)

  function ShortName(name: string): string {
    if |name| <= 60 then name else TrimEnd(name[..60]) + "..."
  }

  function CountText(n: nat): string {
    if n == 1 then "" else " " + Digits(n) + " times"
  }

  function Line(copy: Copy, g: Group): string {
    if g.key.success then
      Substitute(copy.success, ["{name}", "{count}"], [ShortName(g.key.name), CountText(g.count)])
    else
      var error := if g.key.error.Some? then ": " + g.key.error.value else "";
      Substitute(copy.failure, ["{name}", "{count}", "{error}"], [ShortName(g.key.name), CountText(g.count), error])
  }

  function Lines(line: Group -> string, groups: seq<Group>): string {
    if groups == [] then "" else Lines(line, groups[..|groups| - 1]) + line(groups[|groups| - 1]) + "\n"
  }

  function HiddenLine(copy: Copy, hidden: nat): string {
    if hidden == 0 then "" else Substitute(copy.hidden, ["{count}"], [Digits(hidden)]) + "\n"
  }

  function Shown(groups: seq<Group>): seq<Group> {
    groups[SaturatingSub(|groups|, SHOWN_GROUPS)..]
  }

  function Hidden(groups: seq<Group>): seq<Group> {
    groups[..SaturatingSub(|groups|, SHOWN_GROUPS)]
  }

  function Opening(copy: Copy, reason: string): string {
    Substitute(copy.opening, ["{reason}"], [reason])
  }

  lemma LinesStep(line: Group -> string, groups: seq<Group>, g: Group)
    ensures Lines(line, groups + [g]) == Lines(line, groups) + line(g) + "\n"
  {
    assert (groups + [g])[..|groups|] == groups;
  }

  method RenderLines(line: Group -> string, groups: seq<Group>, shownFrom: nat) returns (out: string)
    requires shownFrom <= |groups|
    ensures out == Lines(line, groups[shownFrom..])
  {
    out := "";
    for i := shownFrom to |groups|
      invariant out == Lines(line, groups[shownFrom..i])
    {
      LinesStep(line, groups[shownFrom..i], groups[i]);
      assert groups[shownFrom..i + 1] == groups[shownFrom..i] + [groups[i]];
      out := out + line(groups[i]) + "\n";
    }
    assert groups[shownFrom..|groups|] == groups[shownFrom..];
  }

  method CountHidden(groups: seq<Group>, shownFrom: nat) returns (hidden: nat)
    requires shownFrom <= |groups|
    ensures hidden == Total(groups[..shownFrom])
  {
    hidden := 0;
    for i := 0 to shownFrom
      invariant hidden == Total(groups[..i])
    {
      TotalStart(groups[..i], groups[i]);
      assert groups[..i + 1] == groups[..i] + [groups[i]];
      hidden := hidden + groups[i].count;
    }
  }

  /** The last groups, one line each, and a line for the calls of the others. */
  function WhatHappened(copy: Copy, groups: seq<Group>): string {
    copy.heading + Lines(g => Line(copy, g), Shown(groups)) + HiddenLine(copy, Total(Hidden(groups)))
  }

  method RenderStopSummary(reason: string, groups: seq<Group>, copy: Copy) returns (out: string)
    ensures out == Opening(copy, reason) + (if groups == [] then "" else WhatHappened(copy, groups)) + copy.proceed
  {
    out := Opening(copy, reason);
    if groups != [] {
      var shownFrom := SaturatingSub(|groups|, SHOWN_GROUPS);
      var lines := RenderLines(g => Line(copy, g), groups, shownFrom);
      var hidden := CountHidden(groups, shownFrom);
      out := out + (copy.heading + lines + HiddenLine(copy, hidden));
    }
    out := out + copy.proceed;
  }

  lemma {:induction false} TotalConcat(a: seq<Group>, b: seq<Group>)
    ensures Total(a + b) == Total(a) + Total(b)
  {
    if b == [] {
      assert a + b == a;
    } else {
      TotalConcat(a, b[..|b| - 1]);
      assert (a + b)[..|a + b| - 1] == a + b[..|b| - 1];
    }
  }

  lemma {:induction false} TotalCoversLength(groups: seq<Group>)
    requires forall i :: 0 <= i < |groups| ==> groups[i].count >= 1
    ensures Total(groups) >= |groups|
  {
    if groups == [] {
    } else {
      TotalCoversLength(groups[..|groups| - 1]);
    }
  }

  lemma CountsArePositive(labels: seq<Label>, groups: seq<Group>)
    requires Grouped(labels, groups)
    ensures forall i :: 0 <= i < |groups| ==> groups[i].count >= 1
  {
    forall i | 0 <= i < |groups| ensures groups[i].count >= 1 {
      assert groups[i].key in labels;
    }
  }

  lemma SplitTotal(groups: seq<Group>)
    ensures Total(Hidden(groups)) + Total(Shown(groups)) == Total(groups)
  {
    TotalConcat(Hidden(groups), Shown(groups));
    assert Hidden(groups) + Shown(groups) == groups;
  }

  /** Every result is counted once, in a shown group or in the hidden total; a hidden total is
      printed exactly when there are more than eight groups. */
  lemma SummaryCountsEveryResult(labels: seq<Label>, groups: seq<Group>)
    requires Grouped(labels, groups) && Total(groups) == |labels|
    ensures |Shown(groups)| <= SHOWN_GROUPS
    ensures Total(Shown(groups)) + Total(Hidden(groups)) == |labels|
    ensures Total(Hidden(groups)) > 0 <==> |groups| > SHOWN_GROUPS
  {
    SplitTotal(groups);
    CountsArePositive(labels, groups);
    TotalCoversLength(Hidden(groups));
  }
}
