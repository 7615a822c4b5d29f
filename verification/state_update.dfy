/**
 Applying an analysis' effects to the game state (`update_game_state`):
 every effect whose key is a trait moves that trait by its delta, clamped
 to [0, 100]; every other key is ignored.
 */
module StateUpdate {
  import opened GameData

  /** One entry of the effects dictionary. */
  datatype Effect = Effect(key: string, delta: int)

  /** The effects dictionary as its items in iteration order. */
  type Effects = seq<Effect>

  /** Dictionary keys are distinct, and none of them is a non-trait state
      field. */
  predicate WellFormed(effects: Effects) {
    && (forall i, j :: 0 <= i < j < |effects| ==> effects[i].key != effects[j].key)
    && (forall i :: 0 <= i < |effects| ==> effects[i].key !in NonTraitKeys)
  }

  /** `max(0, min(100, x))`. */
  function Clamp(x: int): (r: int)
    ensures 0 <= r <= 100
    ensures 0 <= x <= 100 ==> r == x
    ensures x < 0 ==> r == 0
    ensures x > 100 ==> r == 100
  {
    if x < 0 then 0 else if x > 100 then 100 else x
  }

  /** The delta the effects give for key `key`, if they name it. */
  function Lookup(effects: Effects, key: string): (r: Option<int>)
    ensures r.None? <==> forall i :: 0 <= i < |effects| ==> effects[i].key != key
    ensures r.Some? ==> exists i :: 0 <= i < |effects| && effects[i] == Effect(key, r.value)
  {
    if |effects| == 0 then None
    else if effects[0].key == key then Some(effects[0].delta)
    else Lookup(effects[1..], key)
  }

  /** The value a trait ends at: clamped old + delta if named, else unchanged. */
  function Updated(before: int, delta: Option<int>): int {
    match delta
    case Some(d) => Clamp(before + d)
    case None => before
  }

  /** One iteration of the update loop. */
  function ApplyEffect(g: GameState, e: Effect): GameState {
    match TraitNamed(e.key)
    case Some(t) => g.(traits := g.traits.Set(t, Clamp(g.traits.Get(t) + e.delta)))
    case None => g
  }

  /** `update_game_state`: apply the effects one after the other, in
      iteration order. The result is the pointwise update: each named trait
      ends at the clamped sum of its old value and its delta, whatever the
      order of the items, and nothing else changes. */
  function UpdateGameState(g: GameState, effects: Effects): (r: GameState)
    requires WellFormed(effects)
    ensures r.childAge == g.childAge && r.childName == g.childName
    ensures r.totalSituations == g.totalSituations && r.phase == g.phase
    ensures forall t: Trait :: r.traits.Get(t) == Updated(g.traits.Get(t), Lookup(effects, t.Name()))
    decreases |effects|
  {
    if |effects| == 0 then g
    else UpdateGameState(ApplyEffect(g, effects[0]), effects[1..])
  }

  /** The update keeps every trait in [0, 100]: a trait the effects name is
      clamped, and one they do not name keeps its in-range value. */
  lemma UpdateKeepsRange(g: GameState, effects: Effects)
    requires WellFormed(effects) && InRange(g.traits)
    ensures InRange(UpdateGameState(g, effects).traits)
  {
  }

  /** Whatever the old values, a trait named by the effects ends in [0, 100]. */
  lemma NamedTraitInRange(g: GameState, effects: Effects, t: Trait)
    requires WellFormed(effects)
    requires Lookup(effects, t.Name()).Some?
    ensures 0 <= UpdateGameState(g, effects).traits.Get(t) <= 100
  {
  }

  /** Keys that are not state fields change nothing: dropping them from the
      effects gives the same state. */
  lemma {:induction false} UnknownKeysIgnored(g: GameState, effects: Effects, e: Effect)
    requires WellFormed([e] + effects)
    requires TraitNamed(e.key).None?
    ensures UpdateGameState(g, [e] + effects) == UpdateGameState(g, effects)
  {
    assert ([e] + effects)[1..] == effects;
    assert ApplyEffect(g, e) == g;
  }

  /** The order of the items does not matter: two well-formed effects
      holding the same items give the same state. */
  lemma OrderIrrelevant(g: GameState, xs: Effects, ys: Effects)
    requires WellFormed(xs) && WellFormed(ys)
    requires forall e :: e in xs <==> e in ys
    ensures UpdateGameState(g, xs) == UpdateGameState(g, ys)
  {
    forall t: Trait
      ensures Lookup(xs, t.Name()) == Lookup(ys, t.Name())
    {
      var k := t.Name();
      LookupUnique(xs, k);
      LookupUnique(ys, k);
      if i :| 0 <= i < |xs| && xs[i].key == k {
        assert xs[i] in ys;
      } else {
        forall j | 0 <= j < |ys|
          ensures ys[j].key != k
        {
          assert ys[j] in xs;
        }
      }
    }
    var r1 := UpdateGameState(g, xs);
    var r2 := UpdateGameState(g, ys);
    assert r1.traits.Get(Happiness) == r2.traits.Get(Happiness);
    assert r1.traits.Get(Growth) == r2.traits.Get(Growth);
    assert r1.traits.Get(Social) == r2.traits.Get(Social);
    assert r1.traits.Get(Creativity) == r2.traits.Get(Creativity);
    assert r1.traits.Get(Responsibility) == r2.traits.Get(Responsibility);
  }

  /** With distinct keys, the looked-up delta is the one of the unique item
      carrying the key. */
  lemma {:induction false} LookupUnique(effects: Effects, key: string)
    requires forall i, j :: 0 <= i < j < |effects| ==> effects[i].key != effects[j].key
    ensures forall i :: 0 <= i < |effects| && effects[i].key == key ==> Lookup(effects, key) == Some(effects[i].delta)
  {
    if |effects| > 0 && effects[0].key != key {
      LookupUnique(effects[1..], key);
      forall i | 0 < i < |effects| && effects[i].key == key
        ensures Lookup(effects, key) == Some(effects[i].delta)
      {
        assert effects[1..][i - 1] == effects[i];
      }
    }
  }
}
