/** Bounded memory of applied steering request ids (crates/tinyagents-harness/src/steering/mod.rs). */
module RequestIds {
  const DEFAULT_CAPACITY: nat := 64
  const MAX_REQUEST_ID_BYTES: nat := 128

  /** The last `n` elements of a sequence, or all of them. */
  function LastOf<T>(s: seq<T>, n: nat): seq<T> {
    if |s| <= n then s else s[|s| - n..]
  }

  /** The memory after recording a new id. */
  function Remember(order: seq<string>, capacity: nat, id: string): seq<string> {
    (if order != [] && |order| >= capacity then order[1..] else order) + [id]
  }

  /** The ids granted so far, oldest first, when `ids` are claimed one after the other. */
  function Granted(ids: seq<string>, capacity: nat): seq<string>
    requires capacity > 0
  {
    if ids == [] then []
    else
      var before, id := Granted(ids[..|ids| - 1], capacity), ids[|ids| - 1];
      if id in LastOf(before, capacity) then before else before + [id]
  }

  /** Two grants of one id are more than `capacity` grants apart. */
  predicate Spaced<T(==)>(grants: seq<T>, capacity: nat) {
    forall i, j :: 0 <= i < j < |grants| && grants[i] == grants[j] ==> j - i > capacity
  }

  /** Dropping the oldest id when full keeps exactly the last `capacity` grants. */
  lemma RememberKeepsLast(grants: seq<string>, capacity: nat, id: string)
    requires capacity > 0
    ensures Remember(LastOf(grants, capacity), capacity, id) == LastOf(grants + [id], capacity)
  {
  }

  lemma GrantKeepsSpaced<T>(grants: seq<T>, capacity: nat, id: T)
    requires Spaced(grants, capacity) && id !in LastOf(grants, capacity)
    ensures Spaced(grants + [id], capacity)
  {
    var last := LastOf(grants, capacity);
    assert forall i :: |grants| - |last| <= i < |grants| ==> grants[i] == last[i - (|grants| - |last|)];
  }

  /** Over any sequence of claims, an id is granted again only after more than `capacity`
      further grants: within the remembered window it is granted at most once. */
  lemma {:induction false} GrantsAreSpaced(ids: seq<string>, capacity: nat)
    requires capacity > 0
    ensures Spaced(Granted(ids, capacity), capacity)
  {
    if ids == [] {
    } else {
      GrantsAreSpaced(ids[..|ids| - 1], capacity);
      var before, id := Granted(ids[..|ids| - 1], capacity), ids[|ids| - 1];
      if id !in LastOf(before, capacity) {
        GrantKeepsSpaced(before, capacity, id);
      }
    }
  }

  datatype ClaimResult = TooLong | Fresh | Duplicate

  /** Text lengths are in bytes. */
  class RecentRequestIds {
    const capacity: nat
    var order: seq<string>
    ghost var claimed: seq<string>  // every id that passed the length check, in order

    ghost predicate Valid()
      reads this
    {
      capacity > 0 && order == LastOf(Granted(claimed, capacity), capacity)
    }

    constructor (capacity: nat)
      ensures Valid() && claimed == []
      ensures this.capacity == if capacity < 1 then 1 else capacity
    {
      this.capacity := if capacity < 1 then 1 else capacity;
      order := [];
      claimed := [];
    }

    /** Grants an id exactly when it is not among the last `capacity` granted ids; the memory
        is always exactly those. */
    method Claim(id: string) returns (r: ClaimResult)
      requires Valid()
      modifies this
      ensures Valid()
      ensures |id| > MAX_REQUEST_ID_BYTES <==> r == TooLong
      ensures r == TooLong ==> claimed == old(claimed) && order == old(order)
      ensures r != TooLong ==> claimed == old(claimed) + [id]
      ensures r == Duplicate <==>
        |id| <= MAX_REQUEST_ID_BYTES && id in LastOf(Granted(old(claimed), capacity), capacity)
      ensures Granted(claimed, capacity) == Granted(old(claimed), capacity) + if r == Fresh then [id] else []
    {
      if |id| > MAX_REQUEST_ID_BYTES {
        return TooLong;
      }
      claimed := claimed + [id];
      assert claimed[..|claimed| - 1] == old(claimed);
      if id in order {
        return Duplicate;
      }
      RememberKeepsLast(Granted(old(claimed), capacity), capacity, id);
      if |order| >= capacity {
        order := order[1..];
      }
      order := order + [id];
      r := Fresh;
    }
  }
}
