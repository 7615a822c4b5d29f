/**
 The scenario selector (`get_situation_for_age`). It picks an index of the
 catalog, preferring scenarios that cover the age and were not used yet,
 then any scenario covering the age, then any scenario at all.

 The random choice is an explicit `draw`: the selector takes element
 `draw % |pool|` of its candidate pool. Its contracts hold for every draw,
 and every candidate is taken by some draw, so they pin down the set the
 choice ranges over and nothing more.
 */
module Selector {
  import opened GameData

  /** Index `i` is a catalog entry whose age range covers `age`. */
  predicate Eligible(age: int, i: int) {
    0 <= i < |Situations| && Situations[i].Covers(age)
  }

  /** The eligible indices from `i` on, in catalog order. */
  function EligibleFrom(age: int, i: nat): (r: seq<nat>)
    requires i <= |Situations|
    ensures forall k :: k in r <==> i <= k && Eligible(age, k)
    decreases |Situations| - i
  {
    if i == |Situations| then []
    else (if Situations[i].Covers(age) then [i] else []) + EligibleFrom(age, i + 1)
  }

  /** `available_indices`: every eligible index. */
  function AvailableIndices(age: int): (r: seq<nat>)
    ensures forall k :: k in r <==> Eligible(age, k)
  {
    EligibleFrom(age, 0)
  }

  /** The elements of `xs` that are not in `used`: `set(xs) - set(used)`. */
  function Unused(xs: seq<nat>, used: seq<nat>): (r: seq<nat>)
    ensures forall k :: k in r <==> k in xs && k !in used
  {
    if |xs| == 0 then []
    else (if xs[0] in used then [] else [xs[0]]) + Unused(xs[1..], used)
  }

  /** Index `i` is an entry of the catalog. */
  predicate InCatalog(i: int) {
    0 <= i < |Situations|
  }

  /** The indices `lo`, `lo + 1`, ..., `hi - 1`. */
  function Range(lo: nat, hi: nat): (r: seq<nat>)
    ensures |r| == if lo <= hi then hi - lo else 0
    ensures forall k :: 0 <= k < |r| ==> r[k] == lo + k
    ensures forall k :: k in r <==> lo <= k < hi
    decreases hi - lo
  {
    if lo >= hi then [] else [lo] + Range(lo + 1, hi)
  }

  /** Every index of the catalog: `range(len(SITUATIONS))`. */
  function AllIndices(): (r: seq<nat>)
    ensures forall k :: k in r <==> InCatalog(k)
  {
    Range(0, |Situations|)
  }

  /** The list `random.choice` draws from. */
  function Pool(age: int, used: seq<nat>): seq<nat> {
    var available := AvailableIndices(age);
    var unused := Unused(available, used);
    if |unused| > 0 then unused
    else if |available| > 0 then available
    else AllIndices()
  }

  /** The indices covering `age`, as a set. */
  function EligibleSet(age: int): set<nat> {
    set i: nat | i < |Situations| && Eligible(age, i)
  }

  /** The eligible indices not in `used`. */
  function NotUsedSet(age: int, used: seq<nat>): set<nat> {
    set i | i in EligibleSet(age) && i !in used
  }

  /** Every index of the catalog, as a set. */
  function CatalogSet(): set<nat> {
    set i: nat | i < |Situations| && InCatalog(i)
  }

  /** The three-tier candidate set, stated directly on the catalog. */
  function Candidates(age: int, used: seq<nat>): set<nat> {
    if NotUsedSet(age, used) != {} then NotUsedSet(age, used)
    else if EligibleSet(age) != {} then EligibleSet(age)
    else CatalogSet()
  }

  /** The eligible list and the eligible set hold the same indices. */
  lemma AvailableIsEligibleSet(age: int)
    ensures forall k :: k in AvailableIndices(age) <==> k in EligibleSet(age)
  {
  }

  /** The pool holds exactly the candidates, and is never empty. */
  lemma PoolIsCandidates(age: int, used: seq<nat>)
    ensures |Pool(age, used)| > 0
    ensures forall k :: k in Pool(age, used) <==> k in Candidates(age, used)
  {
    var available := AvailableIndices(age);
    var unused := Unused(available, used);
    var notUsed := NotUsedSet(age, used);
    AvailableIsEligibleSet(age);
    if |unused| > 0 {
      assert unused[0] in notUsed;
      assert Candidates(age, used) == notUsed;
    } else if |available| > 0 {
      assert notUsed == {};
      assert available[0] in EligibleSet(age);
      assert Candidates(age, used) == EligibleSet(age);
    } else {
      assert EligibleSet(age) == {};
      assert 0 in AllIndices();
    }
  }

  /** `get_situation_for_age`: the chosen record is the catalog entry at the
      chosen index. If an eligible index is unused, the choice is eligible
      and unused; otherwise, if any index is eligible, the choice is
      eligible; otherwise it is any index of the catalog. */
  function GetSituationForAge(age: int, used: seq<nat>, draw: nat): (r: (Situation, nat))
    ensures r.1 < |Situations| && r.0 == Situations[r.1]
    ensures r.1 in Candidates(age, used)
    ensures (exists i :: Eligible(age, i) && i !in used) ==> Eligible(age, r.1) && r.1 !in used
    ensures (exists i :: Eligible(age, i)) ==> Eligible(age, r.1)
  {
    PoolIsCandidates(age, used);
    var pool := Pool(age, used);
    var idx := pool[draw % |pool|];
    assert idx in pool;
    (Situations[idx], idx)
  }

  /** Every candidate is chosen by some draw: the selector ranges over the
      whole candidate set. */
  lemma EveryCandidateReachable(age: int, used: seq<nat>, i: nat)
    requires i in Candidates(age, used)
    ensures exists draw: nat :: GetSituationForAge(age, used, draw).1 == i
  {
    PoolIsCandidates(age, used);
    var pool := Pool(age, used);
    var j :| 0 <= j < |pool| && pool[j] == i;
    SmallModulo(j, |pool|);
    assert GetSituationForAge(age, used, j).1 == pool[j];
  }

  /** A draw below the pool size picks the element at its own position. */
  lemma SmallModulo(j: nat, n: nat)
    requires j < n
    ensures j % n == j
  {
  }

  /** In the shipped catalog, age 3 + 2 * k is covered by entry `k` alone:
      from `i` on, the eligible indices are `[k]` if `i <= k`, else none. */
  lemma {:induction false} EligibleFromOne(k: nat, i: nat)
    requires k < |Situations| && i <= |Situations|
    ensures EligibleFrom(3 + 2 * k, i) == if i <= k then [k] else []
    decreases |Situations| - i
  {
    if i < |Situations| {
      EligibleFromStep(k, i);
      EligibleFromOne(k, i + 1);
    }
  }

  /** One step of `EligibleFrom` at age 3 + 2 * k: entry i is kept exactly
      when i is k. */
  lemma EligibleFromStep(k: nat, i: nat)
    requires k < |Situations| && i < |Situations|
    ensures EligibleFrom(3 + 2 * k, i) == (if i == k then [i] else []) + EligibleFrom(3 + 2 * k, i + 1)
  {
    CatalogAges(i);
  }

  /** An age that is not 3 + 2 * k for a catalog index k is covered by no
      entry from `i` on. */
  lemma {:induction false} EligibleFromNone(age: int, i: nat)
    requires i <= |Situations|
    requires forall k :: InCatalog(k) ==> age != 3 + 2 * k
    ensures EligibleFrom(age, i) == []
    decreases |Situations| - i
  {
    if i < |Situations| {
      CatalogAges(i);
      assert InCatalog(i);
      EligibleFromNone(age, i + 1);
    }
  }

  /** An age other than 3, 5, ..., 17 is not 3 + 2 * k for any catalog
      index k. */
  lemma NotCatalogAge(age: int)
    requires !(3 <= age <= 17 && age % 2 == 1)
    ensures forall k :: InCatalog(k) ==> age != 3 + 2 * k
  {
  }

  /** Age 3 + 2 * k is covered by entry k alone. */
  lemma AvailableAtCatalogAge(k: nat)
    requires InCatalog(k)
    ensures AvailableIndices(3 + 2 * k) == [k]
  {
    EligibleFromOne(k, 0);
  }

  /** Each age 3, 5, ..., 17 matches exactly one catalog entry, index
      (age - 3) / 2; any other age matches none. */
  lemma AvailableShipped(age: int)
    ensures 3 <= age <= 17 && age % 2 == 1 ==> AvailableIndices(age) == [(age - 3) / 2]
    ensures !(3 <= age <= 17 && age % 2 == 1) ==> AvailableIndices(age) == []
  {
    if 3 <= age <= 17 && age % 2 == 1 {
      var k := (age - 3) / 2;
      assert age == 3 + 2 * k && InCatalog(k);
      AvailableAtCatalogAge(k);
    } else {
      NotCatalogAge(age);
      EligibleFromNone(age, 0);
    }
  }

  /** At age 3 + 2 * k the only candidate is entry k, whatever was used. */
  lemma CandidatesAt(k: nat, used: seq<nat>)
    requires InCatalog(k)
    ensures Candidates(3 + 2 * k, used) == {k}
  {
    var age := 3 + 2 * k;
    assert EligibleSet(age) == {k} by {
      forall i | i in EligibleSet(age)
        ensures i == k
      {
        CatalogAges(i);
      }
      CatalogAges(k);
      assert k in EligibleSet(age);
    }
    if k in used {
      assert NotUsedSet(age, used) == {};
    } else {
      assert k in NotUsedSet(age, used);
      assert NotUsedSet(age, used) == {k};
    }
  }

  /** At age 3 + 2 * k the choice is forced, whatever was used and whatever
      the draw: the entry at index k. */
  lemma SelectionForcedAt(k: nat, used: seq<nat>, draw: nat)
    requires InCatalog(k)
    ensures GetSituationForAge(3 + 2 * k, used, draw).1 == k
  {
    CandidatesAt(k, used);
  }

  /** For an odd age in 3..17 the choice is forced, whatever was used and
      whatever the draw: the entry at index (age - 3) / 2. */
  lemma SelectionForced(age: int, used: seq<nat>, draw: nat)
    requires 3 <= age <= 17 && age % 2 == 1
    ensures GetSituationForAge(age, used, draw).1 == (age - 3) / 2
  {
    AvailableShipped(age);
  }
}
