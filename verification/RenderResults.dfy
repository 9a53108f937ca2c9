/** Rendering of captured tool results under a character budget (crates/tinyagents-harness/src/close.rs). */
module RenderResults {
  import opened Text

  datatype ToolResult = ToolResult(name: string, success: bool, content: string)

  const ELLIPSIS: string := "\U{2026}"

  // ------------------------------------------------------- the plain renderer

  function Prefix(r: ToolResult): (p: string)
    ensures |p| > 2
  {
    "- `" + r.name + "` (" + (if r.success then "ok" else "failed") + "): "
  }

  /** One result written in full. */
  function Row(r: ToolResult): string {
    Prefix(r) + Trim(r.content)
  }

  function Rows(results: seq<ToolResult>): (rows: seq<string>)
    ensures |rows| == |results| && forall i :: 0 <= i < |results| ==> rows[i] == Row(results[i])
  {
    seq(|results|, i requires 0 <= i < |results| => Row(results[i]))
  }

  function JoinLines(rows: seq<string>): string {
    if rows == [] then "" else if |rows| == 1 then rows[0] else rows[0] + "\n" + JoinLines(rows[1..])
  }

  /** All results in full, in their original order. */
  function FullText(results: seq<ToolResult>): string {
    JoinLines(Rows(results))
  }

  function Reverse(rows: seq<string>): seq<string> {
    if rows == [] then [] else [rows[|rows| - 1]] + Reverse(rows[..|rows| - 1])
  }

  /** `head` shows `r` in full, stops inside its prefix, or ends its content with an ellipsis. */
  predicate IsCut(r: ToolResult, head: string) {
    && 0 < |head| <= |Row(r)|
    && (|| head == Row(r)
        || (|head| <= |Prefix(r)| && head == Row(r)[..|head|])
        || (|head| > |Prefix(r)| && head == Row(r)[..|head| - 1] + ELLIPSIS))
  }

  /** `out` shows result `k` as `head` and every later result in full, in order. */
  predicate ShowsFrom(results: seq<ToolResult>, k: nat, head: string, out: string) {
    if k < |results| then IsCut(results[k], head) && out == JoinLines([head] + Rows(results[k + 1..]))
    else out == ""
  }

  lemma RowsFrom(results: seq<ToolResult>, i: nat)
    requires i < |results|
    ensures Rows(results[i..]) == [Row(results[i])] + Rows(results[i + 1..])
    ensures |FullText(results[i..])|
         == |Row(results[i])| + (if i + 1 < |results| then 1 + |FullText(results[i + 1..])| else 0)
  {
    var rows := Rows(results[i..]);
    assert rows[1..] == Rows(results[i + 1..]);
  }

  /** Every older row adds to the length of the full text. */
  lemma {:induction false} FullTextGrows(results: seq<ToolResult>, i: nat)
    requires i <= |results|
    ensures |FullText(results)| >= |FullText(results[i..])|
    ensures 0 < i ==> |FullText(results)| >= |FullText(results[i..])| + 3
    ensures 0 < i < |results| ==> |FullText(results)| >= |FullText(results[i..])| + 4
  {
    if i == 0 {
      assert results[0..] == results;
    } else {
      FullTextGrows(results, i - 1);
      RowsFrom(results, i - 1);
    }
  }

  lemma JoinPrepend(head: string, rows: seq<string>)
    ensures |JoinLines([head] + rows)| == |head| + (if rows == [] then 0 else 1 + |JoinLines(rows)|)
  {
    assert ([head] + rows)[1..] == rows;
  }

  lemma ReversePush(rows: seq<string>, row: string)
    ensures Reverse(rows + [row]) == [row] + Reverse(rows)
  {
    assert (rows + [row])[..|rows|] == rows;
  }

  lemma CutNowhere(r: ToolResult)
    ensures IsCut(r, Row(r)) && |Row(r)| == |Prefix(r)| + |Trim(r.content)|
  {
  }

  lemma CutInPrefix(r: ToolResult, n: nat)
    requires 0 < n <= |Prefix(r)|
    ensures IsCut(r, Prefix(r)[..n])
    ensures |Row(r)| <= n ==> Prefix(r)[..n] == Row(r)
  {
    var p, row := Prefix(r), Row(r);
    assert p[..n] == row[..n];
    if |row| <= n { assert row[..n] == row; }
  }

  lemma CutInContent(r: ToolResult, n: nat)
    requires n < |Trim(r.content)|
    ensures IsCut(r, Prefix(r) + Trim(r.content)[..n] + ELLIPSIS)
    ensures |Row(r)| == |Prefix(r)| + |Trim(r.content)|
  {
    var p, c, row := Prefix(r), Trim(r.content), Row(r);
    assert p + c[..n] == row[..|p| + n];
  }

  /** One row within `remaining` characters, what is left after it, and whether to stop. */
  method RenderRow(r: ToolResult, remaining: nat) returns (row: string, left: nat, stop: bool)
    requires remaining > 0
    ensures IsCut(r, row) && |row| + left == remaining
    ensures |Row(r)| <= remaining ==> row == Row(r)
    ensures |Row(r)| > remaining || stop ==> left == 0
  {
    var prefix := Prefix(r);
    if |prefix| >= remaining {
      CutInPrefix(r, remaining);
      return prefix[..remaining], 0, true;
    }
    stop, left := false, remaining - |prefix|;
    var source := Trim(r.content);
    var truncated := |source| > left;
    var contentLimit := if truncated then left - 1 else left;
    var content := if contentLimit < |source| then source[..contentLimit] else source;
    var suffix := if truncated then ELLIPSIS else "";
    var used := |content| + |suffix|;
    left := SaturatingSub(left, used);
    row := prefix + content + suffix;
    if truncated {
      CutInContent(r, contentLimit);
    } else {
      CutNowhere(r);
      assert row == prefix + source;
    }
  }

  /** State of the newest-first loop: results from `i` on are shown, the oldest of them as `head`. */
  ghost predicate Shown(results: seq<ToolResult>, i: nat, head: string, text: string, remaining: nat,
                        totalBudget: nat)
  {
    && i <= |results|
    && ShowsFrom(results, i, head, text)
    && |text| + remaining == totalBudget
    && (i < |results| && head != Row(results[i]) ==> remaining == 0 && totalBudget < |FullText(results)|)
  }

  lemma ShownStart(results: seq<ToolResult>, totalBudget: nat)
    ensures Shown(results, |results|, "", JoinLines([]), totalBudget, totalBudget)
  {
  }

  /** Showing one more row in front of rows that are all in full. */
  lemma ShownStep(results: seq<ToolResult>, i: nat, head: string, rows: seq<string>, remaining: nat,
                  totalBudget: nat, row: string, left: nat)
    requires 0 < i && Shown(results, i, head, JoinLines(rows), remaining, totalBudget)
    requires remaining > (if i < |results| then 1 else 0)
    requires rows == if i < |results| then [head] + Rows(results[i + 1..]) else []
    requires IsCut(results[i - 1], row) && |row| + left == remaining - (if i < |results| then 1 else 0)
    requires |Row(results[i - 1])| <= |row| + left ==> row == Row(results[i - 1])
    requires |Row(results[i - 1])| > |row| + left ==> left == 0
    ensures [row] + rows == [row] + Rows(results[i..])
    ensures Shown(results, i - 1, row, JoinLines([row] + rows), left, totalBudget)
  {
    if i < |results| { RowsFrom(results, i); }
    assert rows == Rows(results[i..]);
    JoinPrepend(row, rows);
    RowsFrom(results, i - 1);
    FullTextGrows(results, i - 1);
  }

  /** The loop stops with the whole text or with too little room for one more row. */
  lemma ShownEnd(results: seq<ToolResult>, i: nat, head: string, text: string, remaining: nat, totalBudget: nat)
    requires Shown(results, i, head, text, remaining, totalBudget)
    requires i == 0 || remaining == 0 || (i < |results| && remaining == 1)
    ensures |FullText(results)| <= totalBudget ==> text == FullText(results)
    ensures |FullText(results)| > totalBudget ==> |text| >= totalBudget - 1
  {
    FullTextGrows(results, i);
    if i < |results| { RowsFrom(results, i); }
    assert results[0..] == results;
  }

  /**
   * Newest results first, never over budget. The rows shown are a suffix of the results in
   * original order and only the oldest of them may be cut. A text that fits is shown whole;
   * otherwise the budget is spent to within one character.
   */
  method RenderToolResults(results: seq<ToolResult>, totalBudget: nat) returns (out: string)
    ensures |out| <= totalBudget
    ensures |FullText(results)| <= totalBudget ==> out == FullText(results)
    ensures |FullText(results)| > totalBudget ==> |out| >= totalBudget - 1
    ensures exists k: nat, head: string :: k <= |results| && ShowsFrom(results, k, head, out)
  {
    var rendered: seq<string> := [];
    var remaining := totalBudget;
    var i := |results|;
    ghost var head := "";
    ShownStart(results, totalBudget);
    while i > 0
      invariant 0 <= i <= |results| && |rendered| == |results| - i
      invariant Reverse(rendered) == if i < |results| then [head] + Rows(results[i + 1..]) else []
      invariant Shown(results, i, head, JoinLines(Reverse(rendered)), remaining, totalBudget)
    {
      if remaining == 0 {
        break;
      }
      ghost var before := remaining;
      if rendered != [] {
        if remaining <= 1 {
          break;
        }
        remaining := remaining - 1;
      }
      var row, left, stop := RenderRow(results[i - 1], remaining);
      ShownStep(results, i, head, Reverse(rendered), before, totalBudget, row, left);
      ReversePush(rendered, row);
      rendered := rendered + [row];
      remaining := left;
      i := i - 1;
      head := row;
      if stop {
        break;
      }
    }
    out := JoinLines(Reverse(rendered));
    ShownEnd(results, i, head, out, remaining, totalBudget);
  }

  // ------------------------------------------------ the host-formatted renderer

  const USIZE_MAX: nat := 0xFFFF_FFFF_FFFF_FFFF

  function SaturatingAdd(a: nat, b: nat): nat {
    if a + b > USIZE_MAX then USIZE_MAX else a + b
  }

  /** Trimmed content cut to `cap` characters, with `marker` behind the cut. */
  function Capped(content: string, cap: nat, marker: string): string {
    var trimmed := Trim(content);
    if |trimmed| <= cap then trimmed else trimmed[..cap] + marker
  }

  function Bounded(r: ToolResult, cap: nat, marker: string): ToolResult {
    r.(content := Capped(r.content, cap, marker))
  }

  function Blocks(results: seq<ToolResult>, cap: nat, marker: string, block: ToolResult -> string): (r: seq<string>)
    ensures |r| == |results| && forall i :: 0 <= i < |results| ==> r[i] == block(Bounded(results[i], cap, marker))
  {
    seq(|results|, i requires 0 <= i < |results| => block(Bounded(results[i], cap, marker)))
  }

  /** Characters in a run of blocks, saturating like the source's counter. */
  function Total(blocks: seq<string>): nat {
    if blocks == [] then 0 else SaturatingAdd(Total(blocks[1..]), |blocks[0]|)
  }

  /** `k` starts the longest suffix that fits the budget, or the newest block alone. */
  predicate LongestSuffix(blocks: seq<string>, budget: nat, k: nat) {
    if blocks == [] then k == 0
    else
      && k < |blocks|
      && (k == |blocks| - 1 || Total(blocks[k..]) <= budget)
      && forall j :: 0 <= j < k ==> Total(blocks[j..]) > budget
  }

  lemma {:induction false} TotalGrows(blocks: seq<string>, j: nat, k: nat)
    requires j <= k <= |blocks|
    ensures Total(blocks[j..]) >= Total(blocks[k..])
    decreases k - j
  {
    if j == k {
    } else {
      TotalGrows(blocks, j + 1, k);
      assert blocks[j..][1..] == blocks[j + 1..];
      assert Total(blocks[j + 1..]) <= USIZE_MAX by { TotalBound(blocks[j + 1..]); }
    }
  }

  lemma {:induction false} TotalBound(blocks: seq<string>)
    ensures Total(blocks) <= USIZE_MAX
  {
  }

  lemma TotalFrom(blocks: seq<string>, i: nat)
    requires i < |blocks|
    ensures blocks[i..] == [blocks[i]] + blocks[i + 1..]
    ensures Total(blocks[i..]) == SaturatingAdd(Total(blocks[i + 1..]), |blocks[i]|)
  {
    assert blocks[i..][1..] == blocks[i + 1..];
  }

  /** Stopping at the first block that does not fit is stopping at the longest suffix. */
  lemma SuffixIsLongest(blocks: seq<string>, budget: nat, k: nat)
    requires if blocks == [] then k == 0 else k < |blocks|
    requires k < |blocks| - 1 ==> Total(blocks[k..]) <= budget
    requires k > 0 ==> Total(blocks[k - 1..]) > budget
    ensures LongestSuffix(blocks, budget, k)
  {
    forall j | 0 <= j < k ensures Total(blocks[j..]) > budget {
      TotalGrows(blocks, j, k - 1);
    }
  }

  /** Selected blocks keep their order behind the notice for the omitted ones. */
  method RenderWithOptions(results: seq<ToolResult>, cap: nat, marker: string, totalBudget: nat,
                           block: ToolResult -> string, notice: nat -> string) returns (out: string)
    ensures exists k: nat ::
      && k <= |results| && LongestSuffix(Blocks(results, cap, marker, block), totalBudget, k)
      && out == notice(k) + Concat(Blocks(results, cap, marker, block)[k..])
  {
    ghost var blocks := Blocks(results, cap, marker, block);
    var selected: seq<string> := [];
    var used := 0;
    var i := |results|;
    while i > 0
      invariant 0 <= i <= |results| && |selected| == |results| - i
      invariant Reverse(selected) == blocks[i..]
      invariant used == Total(blocks[i..])
      invariant i < |results| - 1 ==> used <= totalBudget
    {
      var bounded := Bounded(results[i - 1], cap, marker);
      var text := block(bounded);
      TotalFrom(blocks, i - 1);
      if selected != [] && SaturatingAdd(used, |text|) > totalBudget {
        break;
      }
      ReversePush(selected, text);
      used := SaturatingAdd(used, |text|);
      selected := selected + [text];
      i := i - 1;
    }
    var omitted := |results| - |selected|;
    out := notice(omitted) + Concat(Reverse(selected));
    SuffixIsLongest(blocks, totalBudget, i);
  }

  /** The selection is determined, and a larger budget never selects fewer blocks. */
  lemma LargerBudgetSelectsNoFewer(blocks: seq<string>, small: nat, large: nat, k: nat, l: nat)
    requires small <= large && LongestSuffix(blocks, small, k) && LongestSuffix(blocks, large, l)
    ensures l <= k
    ensures small == large ==> l == k
  {
  }
}
