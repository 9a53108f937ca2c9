/** Validation and lookup of the offline model catalog (crates/tinyagents-registry/src/catalog.rs). */
module ModelCatalog {
  import opened Text

  datatype Tier = Tier(input: Option<real>, output: Option<real>, cacheRead: Option<real>, cacheWrite: Option<real>)

  /** Flat prices in the order of the source: input, output, cache read, cache creation, audio, reasoning. */
  datatype Pricing = Pricing(flat: seq<Option<real>>, tiers: seq<Tier>)

  datatype Entry = Entry(
    provider: string, modelId: string, aliases: seq<string>, source: string,
    maxInput: Option<nat>, maxOutput: Option<nat>,
    deprecation: Option<string>, release: Option<string>, pricing: Pricing)

  datatype Snapshot = Snapshot(retrievedAt: seq<string>, createdAt: string, models: seq<Entry>)

  datatype Rule =
    | DuplicateId | MissingSource | OutputExceedsInput | UnknownProvider | BadDate | NegativePrice | NameCollision

  datatype Verdict = Valid | BadSnapshotDate | BadEntry(index: nat, rule: Rule)

  /** What validation takes from its caller: the allowed providers, if restricted, and the timestamp
      parser of the date library. */
  datatype Context = Context(allowed: Option<set<string>>, isTimestamp: string -> bool)

  predicate PlainDate(s: string) {
    |s| == 10 && forall i :: 0 <= i < 10 ==> if i == 4 || i == 7 then s[i] == '-' else IsDigit(s[i])
  }

  predicate DateOk(ctx: Context, s: string) {
    PlainDate(s) || ctx.isTimestamp(s)
  }

  predicate Negative(rate: Option<real>) {
    rate.Some? && rate.value < 0.0
  }

  predicate PricingOk(p: Pricing) {
    && (forall i :: 0 <= i < |p.flat| ==> !Negative(p.flat[i]))
    && (forall i :: 0 <= i < |p.tiers| ==>
          && !Negative(p.tiers[i].input) && !Negative(p.tiers[i].output)
          && !Negative(p.tiers[i].cacheRead) && !Negative(p.tiers[i].cacheWrite))
  }

  /** The first rule an entry breaks on its own. */
  function LocalFault(ctx: Context, e: Entry): Option<Rule> {
    if Trim(e.source) == "" then Some(MissingSource)
    else if e.maxInput.Some? && e.maxOutput.Some? && e.maxOutput.value > e.maxInput.value then Some(OutputExceedsInput)
    else if ctx.allowed.Some? && e.provider !in ctx.allowed.value then Some(UnknownProvider)
    else if e.deprecation.Some? && !DateOk(ctx, e.deprecation.value) then Some(BadDate)
    else if e.release.Some? && !DateOk(ctx, e.release.value) then Some(BadDate)
    else if !PricingOk(e.pricing) then Some(NegativePrice)
    else None
  }

  /** The (provider, name) pairs an entry answers to. */
  function NamesOf(e: Entry): seq<(string, string)> {
    var names := [e.modelId] + e.aliases;
    seq(|names|, i requires 0 <= i < |names| => (e.provider, names[i]))
  }

  function AllNames(models: seq<Entry>): seq<(string, string)> {
    if models == [] then [] else AllNames(models[..|models| - 1]) + NamesOf(models[|models| - 1])
  }

  predicate Distinct<T(==)>(s: seq<T>) {
    forall i, j :: 0 <= i < j < |s| ==> s[i] != s[j]
  }

  /** Every entry is sound on its own, and no two names under one provider coincide. */
  predicate ModelsOk(ctx: Context, models: seq<Entry>) {
    (forall i :: 0 <= i < |models| ==> LocalFault(ctx, models[i]).None?) && Distinct(AllNames(models))
  }

  predicate DatesOk(ctx: Context, snapshot: Snapshot) {
    && (forall i :: 0 <= i < |snapshot.retrievedAt| ==> DateOk(ctx, snapshot.retrievedAt[i]))
    && DateOk(ctx, snapshot.createdAt)
  }

  predicate SameId(a: Entry, b: Entry) {
    a.provider == b.provider && a.modelId == b.modelId
  }

  /** Entry `i` is the first that makes the list ill formed, and `rule` is the first it breaks. */
  predicate IsFirstFault(ctx: Context, models: seq<Entry>, i: nat, rule: Rule) {
    && i < |models| && ModelsOk(ctx, models[..i]) && !ModelsOk(ctx, models[..i + 1])
    && IsFault(ctx, models[..i], models[i], rule)
  }

  /** The first rule an ill-formed entry breaks behind the entries before it. */
  predicate IsFault(ctx: Context, before: seq<Entry>, e: Entry, rule: Rule) {
    && (rule == DuplicateId <==> exists j :: 0 <= j < |before| && SameId(before[j], e))
    && (rule != DuplicateId ==> rule == if LocalFault(ctx, e).Some? then LocalFault(ctx, e).value else NameCollision)
  }

  function Elements<T>(s: seq<T>): set<T> {
    set x | x in s
  }

  lemma DistinctPush<T>(s: seq<T>, x: T)
    ensures Distinct(s + [x]) <==> Distinct(s) && x !in s
  {
    if x in s {
      var i :| 0 <= i < |s| && s[i] == x;
      assert (s + [x])[i] == (s + [x])[|s|];
    }
    if !Distinct(s) {
      var i, j :| 0 <= i < j < |s| && s[i] == s[j];
      assert (s + [x])[i] == (s + [x])[j];
    }
  }

  lemma DistinctPrefix<T>(s: seq<T>, t: seq<T>)
    requires Distinct(s + t)
    ensures Distinct(s)
  {
    forall i, j | 0 <= i < j < |s| ensures s[i] != s[j] {
      assert (s + t)[i] == s[i] && (s + t)[j] == s[j];
    }
  }

  /** Adds an entry's names one at a time until one is taken. */
  method InsertNames(seen: set<(string, string)>, ghost before: seq<(string, string)>, e: Entry)
      returns (ok: bool, now: set<(string, string)>)
    requires seen == Elements(before) && Distinct(before)
    ensures ok <==> Distinct(before + NamesOf(e))
    ensures ok ==> now == Elements(before + NamesOf(e))
  {
    var names := NamesOf(e);
    now := seen;
    assert before + names[..0] == before;
    for i := 0 to |names|
      invariant now == Elements(before + names[..i]) && Distinct(before + names[..i])
    {
      assert before + names[..i + 1] == (before + names[..i]) + [names[i]];
      DistinctPush(before + names[..i], names[i]);
      if names[i] in now {
        assert before + names == (before + names[..i + 1]) + names[i + 1..];
        if Distinct(before + names) {
          DistinctPrefix(before + names[..i + 1], names[i + 1..]);
        }
        return false, now;
      }
      now := now + {names[i]};
    }
    assert names[..|names|] == names;
    ok := true;
  }

  lemma AllNamesPush(models: seq<Entry>, e: Entry)
    ensures AllNames(models + [e]) == AllNames(models) + NamesOf(e)
  {
    assert (models + [e])[..|models|] == models;
  }

  lemma ModelsPush(ctx: Context, models: seq<Entry>, e: Entry)
    ensures AllNames(models + [e]) == AllNames(models) + NamesOf(e)
    ensures ModelsOk(ctx, models + [e]) <==>
      ModelsOk(ctx, models) && LocalFault(ctx, e).None? && Distinct(AllNames(models) + NamesOf(e))
  {
    var all := models + [e];
    AllNamesPush(models, e);
    assert forall i :: 0 <= i < |models| ==> all[i] == models[i];
    assert all[|models|] == e;
    if Distinct(AllNames(models) + NamesOf(e)) {
      DistinctPrefix(AllNames(models), NamesOf(e));
    }
  }

  lemma {:induction false} EarlierIdIsTaken(models: seq<Entry>, j: nat)
    requires j < |models|
    ensures (models[j].provider, models[j].modelId) in AllNames(models)
  {
    var last := |models| - 1;
    if j < last {
      EarlierIdIsTaken(models[..last], j);
    } else {
      assert NamesOf(models[last])[0] == (models[j].provider, models[j].modelId);
    }
  }

  /** A repeated (provider, id) pair already is a repeated name: that check only picks the message. */
  lemma RepeatedIdIsRepeatedName(models: seq<Entry>, e: Entry, j: nat)
    requires j < |models| && SameId(models[j], e)
    ensures !Distinct(AllNames(models) + NamesOf(e))
  {
    EarlierIdIsTaken(models, j);
    var names, k := AllNames(models) + NamesOf(e), |AllNames(models)|;
    var i :| 0 <= i < k && AllNames(models)[i] == (e.provider, e.modelId);
    assert names[i] == names[k];
  }

  /** Accepts exactly the well-formed snapshots. Otherwise it names the first entry whose prefix of
      the list is not well formed, and the first rule that entry breaks. */
  method Validate(ctx: Context, snapshot: Snapshot) returns (r: Verdict)
    ensures r == Valid <==> DatesOk(ctx, snapshot) && ModelsOk(ctx, snapshot.models)
    ensures r == BadSnapshotDate <==> !DatesOk(ctx, snapshot)
    ensures r.BadEntry? ==> IsFirstFault(ctx, snapshot.models, r.index, r.rule)
  {
    for i := 0 to |snapshot.retrievedAt|
      invariant forall j :: 0 <= j < i ==> DateOk(ctx, snapshot.retrievedAt[j])
    {
      if !DateOk(ctx, snapshot.retrievedAt[i]) {
        return BadSnapshotDate;
      }
    }
    if !DateOk(ctx, snapshot.createdAt) {
      return BadSnapshotDate;
    }
    r := ValidateModels(ctx, snapshot.models);
  }

  function Ids(models: seq<Entry>): set<(string, string)> {
    set e | e in models :: (e.provider, e.modelId)
  }

  /** One round of the loop: every check of an entry, against the ids and names seen before it. */
  method CheckEntry(ctx: Context, ghost before: seq<Entry>, e: Entry,
                    seenIds: set<(string, string)>, seenNames: set<(string, string)>)
      returns (fault: Option<Rule>, ids: set<(string, string)>, names: set<(string, string)>)
    requires ModelsOk(ctx, before) && seenIds == Ids(before) && seenNames == Elements(AllNames(before))
    ensures fault.None? <==> ModelsOk(ctx, before + [e])
    ensures fault.None? ==> ids == Ids(before + [e]) && names == Elements(AllNames(before + [e]))
    ensures fault.Some? ==> IsFault(ctx, before, e, fault.value)
  {
    ModelsPush(ctx, before, e);
    ids, names := seenIds, seenNames;
    if (e.provider, e.modelId) in seenIds {
      ghost var j :| 0 <= j < |before| && SameId(before[j], e);
      RepeatedIdIsRepeatedName(before, e, j);
      return Some(DuplicateId), ids, names;
    }
    ids := ids + {(e.provider, e.modelId)};
    fault := LocalFault(ctx, e);
    if fault.None? {
      var ok;
      ok, names := InsertNames(seenNames, AllNames(before), e);
      fault := if ok then None else Some(NameCollision);
    }
  }

  method ValidateModels(ctx: Context, models: seq<Entry>) returns (r: Verdict)
    ensures r != BadSnapshotDate
    ensures r == Valid <==> ModelsOk(ctx, models)
    ensures r.BadEntry? ==> IsFirstFault(ctx, models, r.index, r.rule)
  {
    var seenIds: set<(string, string)> := {};
    var seenNames: set<(string, string)> := {};
    for i := 0 to |models|
      invariant ModelsOk(ctx, models[..i])
      invariant seenIds == Ids(models[..i]) && seenNames == Elements(AllNames(models[..i]))
    {
      assert models[..i + 1] == models[..i] + [models[i]];
      var fault;
      fault, seenIds, seenNames := CheckEntry(ctx, models[..i], models[i], seenIds, seenNames);
      if fault.Some? {
        BrokenPrefixBreaksAll(ctx, models, i + 1);
        return BadEntry(i, fault.value);
      }
    }
    assert models[..|models|] == models;
    r := Valid;
  }

  lemma {:induction false} BrokenPrefixBreaksAll(ctx: Context, models: seq<Entry>, n: nat)
    requires n <= |models| && !ModelsOk(ctx, models[..n])
    ensures !ModelsOk(ctx, models)
  {
    if n == |models| {
      assert models[..n] == models;
    } else {
      var last := |models| - 1;
      assert models[..last][..n] == models[..n];
      BrokenPrefixBreaksAll(ctx, models[..last], n);
      ModelsPush(ctx, models[..last], models[last]);
      assert models[..last] + [models[last]] == models;
    }
  }

  // Lookup.

  predicate Matches(e: Entry, provider: string, name: string) {
    e.provider == provider && (e.modelId == name || name in e.aliases)
  }

  /** The first matching entry. */
  function Get(models: seq<Entry>, provider: string, name: string): Option<Entry> {
    if models == [] then None
    else if Matches(models[0], provider, name) then Some(models[0])
    else Get(models[1..], provider, name)
  }

  lemma MatchIsName(e: Entry, provider: string, name: string)
    ensures Matches(e, provider, name) <==> (provider, name) in NamesOf(e)
  {
    var names := [e.modelId] + e.aliases;
    if name in names {
      var i :| 0 <= i < |names| && names[i] == name;
      assert NamesOf(e)[i] == (e.provider, name);
    }
  }

  lemma {:induction false} MatchInAllNames(models: seq<Entry>, i: nat, provider: string, name: string)
    requires i < |models| && Matches(models[i], provider, name)
    ensures (provider, name) in AllNames(models)
  {
    var last := |models| - 1;
    if i < last {
      MatchInAllNames(models[..last], i, provider, name);
    } else {
      MatchIsName(models[last], provider, name);
    }
  }

  lemma DistinctHalves<T>(s: seq<T>, t: seq<T>, x: T)
    requires Distinct(s + t) && x in s
    ensures x !in t
  {
    var i :| 0 <= i < |s| && s[i] == x;
    assert (s + t)[i] == x;
    assert forall j :: 0 <= j < |t| ==> (s + t)[|s| + j] == t[j];
  }

  /** In a valid catalog at most one entry answers to a provider and name. */
  lemma {:induction false} AtMostOneMatch(ctx: Context, models: seq<Entry>, provider: string, name: string,
                                          i: nat, j: nat)
    requires ModelsOk(ctx, models) && i < j < |models|
    requires Matches(models[i], provider, name)
    ensures !Matches(models[j], provider, name)
  {
    var last := |models| - 1;
    var init := models[..last];
    assert models == init + [models[last]];
    ModelsPush(ctx, init, models[last]);
    if j < last {
      AtMostOneMatch(ctx, init, provider, name, i, j);
    } else {
      MatchInAllNames(init, i, provider, name);
      MatchIsName(models[last], provider, name);
      DistinctHalves(AllNames(init), NamesOf(models[last]), (provider, name));
    }
  }

  lemma {:induction false} GetIsFirstMatch(models: seq<Entry>, provider: string, name: string)
    ensures Get(models, provider, name).None? <==> forall e :: e in models ==> !Matches(e, provider, name)
    ensures Get(models, provider, name).Some? ==>
      Get(models, provider, name).value in models && Matches(Get(models, provider, name).value, provider, name)
  {
    if models == [] {
    } else {
      GetIsFirstMatch(models[1..], provider, name);
      assert models == [models[0]] + models[1..];
    }
  }

  /** Lookup in a valid catalog does not depend on the order of its entries. */
  lemma GetIgnoresOrder(ctx: Context, a: seq<Entry>, b: seq<Entry>, provider: string, name: string)
    requires ModelsOk(ctx, a) && multiset(a) == multiset(b)
    ensures Get(a, provider, name) == Get(b, provider, name)
  {
    GetIsFirstMatch(a, provider, name);
    GetIsFirstMatch(b, provider, name);
    SameElements(a, b);
    if Get(a, provider, name).Some? {
      MatchesAreEqual(ctx, a, provider, name, Get(a, provider, name).value, Get(b, provider, name).value);
    }
  }

  lemma SameElements<T>(a: seq<T>, b: seq<T>)
    requires multiset(a) == multiset(b)
    ensures forall x :: x in a <==> x in b
  {
    forall x ensures x in a <==> x in b {
      assert x in a <==> x in multiset(a);
      assert x in b <==> x in multiset(b);
    }
  }

  lemma MatchesAreEqual(ctx: Context, models: seq<Entry>, provider: string, name: string, x: Entry, y: Entry)
    requires ModelsOk(ctx, models) && x in models && y in models
    requires Matches(x, provider, name) && Matches(y, provider, name)
    ensures x == y
  {
    var i :| 0 <= i < |models| && models[i] == x;
    var j :| 0 <= j < |models| && models[j] == y;
    if i < j {
      AtMostOneMatch(ctx, models, provider, name, i, j);
    } else if j < i {
      AtMostOneMatch(ctx, models, provider, name, j, i);
    }
  }

  // Validity and order.

  lemma {:induction false} AllNamesConcat(a: seq<Entry>, b: seq<Entry>)
    ensures AllNames(a + b) == AllNames(a) + AllNames(b)
  {
    if b == [] {
      assert a + b == a;
    } else {
      var init, last := b[..|b| - 1], b[|b| - 1];
      AllNamesConcat(a, init);
      AllNamesPush(a + init, last);
      AllNamesPush(init, last);
      RejoinLast(a, b);
      Associative(AllNames(a), AllNames(init), NamesOf(last));
    }
  }

  lemma RejoinLast<T>(a: seq<T>, b: seq<T>)
    requires b != []
    ensures b == b[..|b| - 1] + [b[|b| - 1]] && a + b == (a + b[..|b| - 1]) + [b[|b| - 1]]
  {
  }

  lemma Associative<T>(a: seq<T>, b: seq<T>, c: seq<T>)
    ensures (a + b) + c == a + (b + c)
  {
  }

  function Without<T>(s: seq<T>, k: nat): seq<T>
    requires k < |s|
  {
    s[..k] + s[k + 1..]
  }

  lemma SplitAt<T>(s: seq<T>, k: nat)
    requires k < |s|
    ensures s == s[..k] + [s[k]] + s[k + 1..]
  {
  }

  lemma WithoutCounts<T>(s: seq<T>, k: nat)
    requires k < |s|
    ensures multiset(Without(s, k)) == multiset(s) - multiset{s[k]}
  {
    assert s == s[..k] + [s[k]] + s[k + 1..];
  }

  lemma MiddleCounts<T>(a: seq<T>, b: seq<T>, c: seq<T>)
    ensures multiset(a + b + c) == multiset(a + c) + multiset(b)
  {
  }

  lemma NamesAround(a: seq<Entry>, e: Entry, b: seq<Entry>)
    ensures AllNames(a + [e] + b) == AllNames(a) + NamesOf(e) + AllNames(b)
  {
    AllNamesPush(a, e);
    AllNamesConcat(a + [e], b);
  }

  lemma CountsAround(a: seq<Entry>, e: Entry, b: seq<Entry>)
    ensures multiset(AllNames(a + [e] + b)) == multiset(AllNames(a + b)) + multiset(NamesOf(e))
  {
    NamesAround(a, e, b);
    AllNamesConcat(a, b);
    MiddleCounts(AllNames(a), NamesOf(e), AllNames(b));
  }

  lemma NamesWithout(models: seq<Entry>, k: nat)
    requires k < |models|
    ensures multiset(AllNames(models)) == multiset(AllNames(Without(models, k))) + multiset(NamesOf(models[k]))
  {
    CountsAround(models[..k], models[k], models[k + 1..]);
    SplitAt(models, k);
  }

  /** Permuting the entries permutes their names. */
  lemma {:induction false} NamesOfPermutation(a: seq<Entry>, b: seq<Entry>)
    requires multiset(a) == multiset(b)
    ensures multiset(AllNames(a)) == multiset(AllNames(b))
    decreases |a|
  {
    if a == [] {
      assert |multiset(b)| == 0;
    } else {
      assert a[0] in multiset(b);
      var k :| 0 <= k < |b| && b[k] == a[0];
      WithoutCounts(a, 0);
      WithoutCounts(b, k);
      NamesOfPermutation(Without(a, 0), Without(b, k));
      NamesWithout(a, 0);
      NamesWithout(b, k);
    }
  }

  lemma {:induction false} DistinctIsCountOne<T>(s: seq<T>)
    ensures Distinct(s) <==> forall x :: x in s ==> multiset(s)[x] == 1
  {
    if s == [] {
    } else {
      var init, last := s[..|s| - 1], s[|s| - 1];
      assert s == init + [last];
      DistinctIsCountOne(init);
      DistinctPush(init, last);
      if Distinct(init) && last in init {
        assert multiset(s)[last] == 2;
      }
      if !Distinct(init) {
        var x :| x in init && multiset(init)[x] != 1;
        assert multiset(s)[x] >= multiset(init)[x] > 1;
      }
    }
  }

  /** Whether a catalog is valid does not depend on the order of its entries. */
  lemma ValidityIgnoresOrder(ctx: Context, a: seq<Entry>, b: seq<Entry>)
    requires multiset(a) == multiset(b)
    ensures ModelsOk(ctx, a) <==> ModelsOk(ctx, b)
  {
    NamesOfPermutation(a, b);
    DistinctIsCountOne(AllNames(a));
    DistinctIsCountOne(AllNames(b));
    SameElements(AllNames(a), AllNames(b));
    SoundEntriesIgnoreOrder(ctx, a, b);
    SoundEntriesIgnoreOrder(ctx, b, a);
  }

  lemma SoundEntriesIgnoreOrder(ctx: Context, a: seq<Entry>, b: seq<Entry>)
    requires multiset(a) == multiset(b)
    ensures (forall i :: 0 <= i < |a| ==> LocalFault(ctx, a[i]).None?)
        ==> forall i :: 0 <= i < |b| ==> LocalFault(ctx, b[i]).None?
  {
    SameElements(a, b);
    if forall i :: 0 <= i < |a| ==> LocalFault(ctx, a[i]).None? {
      forall i | 0 <= i < |b| ensures LocalFault(ctx, b[i]).None? {
        assert b[i] in a;
      }
    }
  }
}
