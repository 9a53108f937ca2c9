/** Single-pass template substitution (crates/tinyagents-harness/src/close.rs). */
module Interpolate {
  import opened Text

  /** One piece of a split template: a literal character, or field number `field`. */
  datatype Segment = Lit(c: char) | Key(field: nat)

  predicate AllNonEmpty(keys: seq<string>) {
    forall k :: 0 <= k < |keys| ==> keys[k] != []
  }

  /** The first key that starts `t`, counting from key number `from`. */
  function KeyAtStart(keys: seq<string>, t: string, from: nat := 0): (r: Option<nat>)
    requires from <= |keys|
    ensures r.Some? ==> from <= r.value < |keys| && OccursAt(t, keys[r.value], 0)
    decreases |keys| - from
  {
    if from == |keys| then None
    else if OccursAt(t, keys[from], 0) then Some(from)
    else KeyAtStart(keys, t, from + 1)
  }

  lemma {:induction false} KeyAtStartExists(keys: seq<string>, t: string, from: nat, k: nat)
    requires from <= k < |keys| && OccursAt(t, keys[k], 0)
    ensures KeyAtStart(keys, t, from).Some? && KeyAtStart(keys, t, from).value <= k
    decreases |keys| - from
  {
    if OccursAt(t, keys[from], 0) {
    } else {
      KeyAtStartExists(keys, t, from + 1, k);
    }
  }

  /** Reference scanner: walk the template one position at a time. Values play no part. */
  function Segments(keys: seq<string>, t: string): (segs: seq<Segment>)
    requires AllNonEmpty(keys)
    ensures WellFormed(segs, |keys|)
    decreases |t|
  {
    if t == [] then []
    else match KeyAtStart(keys, t)
      case Some(k) => [Key(k)] + Segments(keys, t[|keys[k]|..])
      case None => [Lit(t[0])] + Segments(keys, t[1..])
  }

  predicate WellFormed(segs: seq<Segment>, fields: nat) {
    forall i :: 0 <= i < |segs| && segs[i].Key? ==> segs[i].field < fields
  }

  /** Replace every key of a split template by its value, all at once. */
  function Fill(segs: seq<Segment>, values: seq<string>): string
    requires WellFormed(segs, |values|)
  {
    if segs == [] then ""
    else (match segs[0] case Lit(c) => [c] case Key(k) => values[k]) + Fill(segs[1..], values)
  }

  /** Simultaneous substitution of `values` for `keys` in `t`. */
  function Substitute(t: string, keys: seq<string>, values: seq<string>): string
    requires AllNonEmpty(keys) && |keys| == |values|
  {
    Fill(Segments(keys, t), values)
  }

  function Literals(t: string): seq<Segment> {
    seq(|t|, i requires 0 <= i < |t| => Lit(t[i]))
  }

  /** The leftmost position where some key occurs, and the first key occurring there. */
  ghost predicate IsLeftmost(t: string, keys: seq<string>, at: nat, k: nat) {
    && k < |keys| && OccursAt(t, keys[k], at)
    && (forall j, i :: 0 <= j < |keys| && 0 <= i < at ==> !OccursAt(t, keys[j], i))
    && (forall j :: 0 <= j < k ==> !OccursAt(t, keys[j], at))
  }

  ghost predicate NoKey(t: string, keys: seq<string>) {
    forall j, i :: 0 <= j < |keys| && 0 <= i <= |t| ==> !OccursAt(t, keys[j], i)
  }

  /** The search of one loop round: the field whose key occurs first, ties to the earlier field. */
  method LeftmostField(t: string, keys: seq<string>) returns (best: Option<(nat, nat)>)
    ensures best.Some? ==> IsLeftmost(t, keys, best.value.0, best.value.1)
    ensures best.None? ==> NoKey(t, keys)
  {
    best := None;
    for k := 0 to |keys|
      invariant best.Some? ==> IsLeftmost(t, keys[..k], best.value.0, best.value.1)
      invariant best.None? ==> NoKey(t, keys[..k])
    {
      var found := Find(t, keys[k]);
      if found.Some? && (best.None? || found.value < best.value.0) {
        best := Some((found.value, k));
      }
    }
    assert keys[..|keys|] == keys;
  }

  lemma LiteralStep(t: string, keys: seq<string>, from: nat, at: nat)
    requires AllNonEmpty(keys) && from < at <= |t| && KeyAtStart(keys, t[from..]).None?
    ensures Segments(keys, t[from..]) == [Lit(t[from])] + Segments(keys, t[from + 1..])
    ensures Literals(t[from..at]) == [Lit(t[from])] + Literals(t[from + 1..at])
  {
    assert t[from..][1..] == t[from + 1..];
  }

  lemma KeyStep(t: string, keys: seq<string>, at: nat, k: nat)
    requires AllNonEmpty(keys) && at <= |t| && KeyAtStart(keys, t[at..]) == Some(k)
    ensures at + |keys[k]| <= |t|
    ensures Segments(keys, t[at..]) == [Key(k)] + Segments(keys, t[at + |keys[k]|..])
  {
    assert t[at..][|keys[k]|..] == t[at + |keys[k]|..];
  }

  lemma {:induction false} SegmentsFrom(t: string, keys: seq<string>, from: nat, at: nat)
    requires AllNonEmpty(keys) && from <= at <= |t|
    requires forall i :: from <= i < at ==> KeyAtStart(keys, t[i..]).None?
    ensures Segments(keys, t[from..]) == Literals(t[from..at]) + Segments(keys, t[at..])
    decreases at - from
  {
    if from == at {
      NoLiterals(t, at, Segments(keys, t[at..]));
    } else {
      SegmentsFrom(t, keys, from + 1, at);
      LiteralStep(t, keys, from, at);
      Associative([Lit(t[from])], Literals(t[from + 1..at]), Segments(keys, t[at..]));
    }
  }

  lemma NoLiterals(t: string, at: nat, rest: seq<Segment>)
    requires at <= |t|
    ensures Literals(t[at..at]) + rest == rest
  {
    assert Literals(t[at..at]) == [];
  }

  lemma Associative(a: seq<Segment>, b: seq<Segment>, c: seq<Segment>)
    ensures a + (b + c) == (a + b) + c
  {
  }

  lemma SegmentsTo(t: string, keys: seq<string>, at: nat)
    requires AllNonEmpty(keys) && at <= |t|
    requires forall i :: 0 <= i < at ==> KeyAtStart(keys, t[i..]).None?
    ensures Segments(keys, t) == Literals(t[..at]) + Segments(keys, t[at..])
  {
    SegmentsFrom(t, keys, 0, at);
    assert t[0..] == t;
  }

  lemma SegmentsAt(t: string, keys: seq<string>, at: nat, k: nat)
    requires AllNonEmpty(keys) && at <= |t| && KeyAtStart(keys, t[at..]) == Some(k)
    requires forall i :: 0 <= i < at ==> KeyAtStart(keys, t[i..]).None?
    ensures at + |keys[k]| <= |t|
    ensures Segments(keys, t) == Literals(t[..at]) + [Key(k)] + Segments(keys, t[at + |keys[k]|..])
  {
    SegmentsTo(t, keys, at);
    KeyStep(t, keys, at, k);
  }

  lemma LeftmostScans(t: string, keys: seq<string>, at: nat, k: nat)
    requires AllNonEmpty(keys) && IsLeftmost(t, keys, at, k)
    ensures forall i :: 0 <= i < at ==> KeyAtStart(keys, t[i..]).None?
    ensures KeyAtStart(keys, t[at..]) == Some(k)
  {
    forall j, i | 0 <= j < |keys| && 0 <= i <= at ensures OccursAt(t[i..], keys[j], 0) == OccursAt(t, keys[j], i) {
      OccursInSuffix(t, keys[j], i);
    }
    KeyAtStartExists(keys, t[at..], 0, k);
  }

  lemma OccursInSuffix(t: string, p: string, i: nat)
    requires i <= |t|
    ensures OccursAt(t[i..], p, 0) == OccursAt(t, p, i)
  {
    if i + |p| <= |t| {
      assert t[i..][0..|p|] == t[i..i + |p|];
    }
  }

  /** Up to its leftmost key a template is literal text; the split resumes after that key. */
  lemma SegmentsAtLeftmost(t: string, keys: seq<string>, at: nat, k: nat)
    requires AllNonEmpty(keys) && IsLeftmost(t, keys, at, k)
    ensures at + |keys[k]| <= |t|
    ensures Segments(keys, t) == Literals(t[..at]) + [Key(k)] + Segments(keys, t[at + |keys[k]|..])
  {
    LeftmostScans(t, keys, at, k);
    SegmentsAt(t, keys, at, k);
  }

  lemma SegmentsWithoutKeys(t: string, keys: seq<string>)
    requires AllNonEmpty(keys) && NoKey(t, keys)
    ensures Segments(keys, t) == Literals(t)
  {
    forall j, i | 0 <= j < |keys| && 0 <= i <= |t| ensures OccursAt(t[i..], keys[j], 0) == OccursAt(t, keys[j], i) {
      OccursInSuffix(t, keys[j], i);
    }
    SegmentsTo(t, keys, |t|);
    assert t[..|t|] == t;
  }

  lemma {:induction false} FillSplit(a: seq<Segment>, b: seq<Segment>, values: seq<string>)
    requires WellFormed(a, |values|) && WellFormed(b, |values|)
    ensures WellFormed(a + b, |values|)
    ensures Fill(a + b, values) == Fill(a, values) + Fill(b, values)
  {
    if a == [] {
      assert a + b == b;
    } else {
      assert (a + b)[1..] == a[1..] + b;
      FillSplit(a[1..], b, values);
    }
  }

  lemma {:induction false} FillLiterals(t: string, values: seq<string>)
    ensures Fill(Literals(t), values) == t
  {
    if t == [] {
    } else {
      assert Literals(t)[1..] == Literals(t[1..]);
      FillLiterals(t[1..], values);
    }
  }

  lemma Regroup(a: string, b: string, c: string, d: string)
    ensures a + (b + c + d) == (a + b + c) + d
  {
  }

  /**
   * The repeated leftmost search computes the simultaneous substitution. Keys must be
   * non-empty: the search makes no progress on an empty key, and every caller passes
   * literal tokens such as "{results}".
   */
  method InterpolateOnce(t: string, keys: seq<string>, values: seq<string>) returns (output: string)
    requires AllNonEmpty(keys) && |keys| == |values|
    ensures output == Substitute(t, keys, values)
  {
    output := "";
    var remaining := t;
    while true
      invariant output + Substitute(remaining, keys, values) == Substitute(t, keys, values)
      decreases |remaining|
    {
      var best := LeftmostField(remaining, keys);
      if best.None? {
        SegmentsWithoutKeys(remaining, keys);
        FillLiterals(remaining, values);
        break;
      }
      var (at, k) := best.value;
      var rest := remaining[at + |keys[k]|..];
      SubstituteAtLeftmost(remaining, keys, values, at, k);
      Regroup(output, remaining[..at], values[k], Substitute(rest, keys, values));
      output := output + remaining[..at] + values[k];
      remaining := rest;
    }
    output := output + remaining;
  }

  /** One round of the loop, on the specification side. */
  lemma SubstituteAtLeftmost(t: string, keys: seq<string>, values: seq<string>, at: nat, k: nat)
    requires AllNonEmpty(keys) && |keys| == |values| && IsLeftmost(t, keys, at, k)
    ensures at + |keys[k]| <= |t|
    ensures Substitute(t, keys, values)
         == t[..at] + values[k] + Substitute(t[at + |keys[k]|..], keys, values)
  {
    SegmentsAtLeftmost(t, keys, at, k);
    var rest := Segments(keys, t[at + |keys[k]|..]);
    FillSplit(Literals(t[..at]) + [Key(k)], rest, values);
    FillSplit(Literals(t[..at]), [Key(k)], values);
    FillLiterals(t[..at], values);
    assert Fill([Key(k)], values) == values[k];
  }

  /** Replacing every key by itself gives the template back: the split loses and invents nothing. */
  lemma {:induction false} SubstituteKeysIsIdentity(t: string, keys: seq<string>)
    requires AllNonEmpty(keys)
    ensures Substitute(t, keys, keys) == t
    decreases |t|
  {
    if t == [] {
    } else {
      match KeyAtStart(keys, t)
      case Some(k) =>
        SubstituteKeysIsIdentity(t[|keys[k]|..], keys);
        assert t == keys[k] + t[|keys[k]|..];
      case None =>
        SubstituteKeysIsIdentity(t[1..], keys);
        assert t == [t[0]] + t[1..];
    }
  }

  /** How often field `k` is used by a split template. */
  function Uses(segs: seq<Segment>, k: nat): nat {
    if segs == [] then 0 else (if segs[0] == Key(k) then 1 else 0) + Uses(segs[1..], k)
  }

  function LiteralCount(segs: seq<Segment>): nat {
    if segs == [] then 0 else (if segs[0].Lit? then 1 else 0) + LiteralCount(segs[1..])
  }

  /** Characters the first `n` fields contribute: each value times the uses of its field. */
  function ValueCount(segs: seq<Segment>, values: seq<string>, n: nat): nat
    requires n <= |values|
  {
    if n == 0 then 0 else ValueCount(segs, values, n - 1) + Uses(segs, n - 1) * |values[n - 1]|
  }

  lemma {:induction false} ValueCountStep(segs: seq<Segment>, values: seq<string>, n: nat)
    requires segs != [] && n <= |values|
    ensures ValueCount(segs, values, n)
         == ValueCount(segs[1..], values, n)
            + if segs[0].Key? && segs[0].field < n then |values[segs[0].field]| else 0
  {
    if n == 0 {
    } else {
      ValueCountStep(segs, values, n - 1);
      var used, length := Uses(segs[1..], n - 1), |values[n - 1]|;
      assert (1 + used) * length == used * length + length;
    }
  }

  lemma {:induction false} FillLength(segs: seq<Segment>, values: seq<string>)
    requires WellFormed(segs, |values|)
    ensures |Fill(segs, values)| == LiteralCount(segs) + ValueCount(segs, values, |values|)
  {
    if segs == [] {
      NoValues(values, |values|);
    } else {
      FillLength(segs[1..], values);
      ValueCountStep(segs, values, |values|);
    }
  }

  lemma {:induction false} NoValues(values: seq<string>, n: nat)
    requires n <= |values|
    ensures ValueCount([], values, n) == 0
  {
    if n == 0 {
    } else {
      NoValues(values, n - 1);
    }
  }

  /** Values are never rescanned: the length of the output is the literal text plus each value's
      length times the uses of its field in the template, whatever the values contain. */
  lemma LengthIsLinearInValues(t: string, keys: seq<string>, values: seq<string>)
    requires AllNonEmpty(keys) && |keys| == |values|
    ensures |Substitute(t, keys, values)|
         == LiteralCount(Segments(keys, t)) + ValueCount(Segments(keys, t), values, |values|)
  {
    FillLength(Segments(keys, t), values);
  }
}
