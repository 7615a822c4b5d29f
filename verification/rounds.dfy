/**
 The round state machine: `process_user_response` (without the spinner and
 the rerun) and `reset_game`, over an explicit session record instead of
 the framework's session storage.

 The analysis of a response comes from a remote language-model service and
 is an input here: its effects, its feedback text and its response type,
 where the type "오류" marks the neutral result the service call returns
 on failure.
 */
module Rounds {
  import opened GameData
  import opened StateUpdate
  import opened Selector

  /** The response type of the neutral result returned on failure. */
  const ErrorType: string := "오류"

  /** The analysis of one response. */
  datatype Analysis = Analysis(effects: Effects, feedback: string, responseType: string) {
    predicate IsError() {
      responseType == ErrorType
    }
  }

  /** One entry of `game_history`: the scenario shown, the parent's text, its
      analysis and the child's age in that round. */
  datatype Round = Round(situation: Situation, userResponse: string, analysis: Analysis, age: int)

  /** The scenario on screen and its catalog index, stored together. */
  datatype Current = Current(situation: Situation, idx: nat)

  /** The session: game state, history, used indices, current scenario. */
  datatype Session = Session(
    game: GameState,
    history: seq<Round>,
    used: seq<nat>,
    current: Option<Current>)

  /** `reset_game`: the initial game state, empty history and used list, and
      no current scenario. */
  function ResetGame(): (s: Session)
    ensures s.game.traits == InitialTraits && s.game.childAge == 3
    ensures s.game.totalSituations == 0 && s.game.phase == Playing
    ensures s.history == [] && s.used == [] && s.current.None?
  {
    Session(InitialGameState, [], [], None)
  }

  /** The first-load path of the app: reset, then choose the scenario for the
      initial age. The reset buttons should lead here as well. */
  function RestartGame(draw: nat): (s: Session)
    ensures s.game == InitialGameState && s.history == [] && s.used == []
    ensures s.current.Some? && s.current.value.idx == 0
    ensures s.current.value.situation == Situations[0]
  {
    var reset := ResetGame();
    CandidatesAt(0, reset.used);
    var (situation, idx) := GetSituationForAge(reset.game.childAge, reset.used, draw);
    reset.(current := Some(Current(situation, idx)))
  }

  /** What one round does, as a relation between the session before and
      after. An error round leaves traits, age, counter, history and used
      list unchanged. A counted round updates each trait pointwise, adds 2
      to the age and 1 to the counter, and appends the round to the history
      and the scenario's index to the used list. The phase becomes the result
      phase exactly when eight rounds are counted; then the scenario on
      screen stays, otherwise it is a candidate for the child's new age. */
  predicate Processed(s: Session, userInput: string, a: Analysis, r: Session)
    requires s.current.Some?
  {
    && (a.IsError() ==>
      && r.game.traits == s.game.traits && r.game.childAge == s.game.childAge
      && r.game.totalSituations == s.game.totalSituations
      && r.history == s.history && r.used == s.used)
    && (!a.IsError() ==>
      && r.game.totalSituations == s.game.totalSituations + 1
      && r.game.childAge == s.game.childAge + 2
      && r.history == s.history + [Round(s.current.value.situation, userInput, a, s.game.childAge)]
      && r.used == s.used + [s.current.value.idx]
      && (forall t: Trait :: r.game.traits.Get(t) == Updated(s.game.traits.Get(t), Lookup(a.effects, t.Name()))))
    && r.game.childName == s.game.childName
    && r.game.phase == (if r.game.totalSituations >= TotalRounds then Result else s.game.phase)
    && (r.game.totalSituations >= TotalRounds ==> r.current == s.current)
    && (r.game.totalSituations < TotalRounds ==>
      && r.current.Some?
      && r.current.value.idx in Candidates(r.game.childAge, r.used)
      && r.current.value.situation == Situations[r.current.value.idx])
  }

  /** `process_user_response` after the analysis is in: count the round
      unless its analysis is an error, then end the game or choose the next
      scenario. */
  function ProcessUserResponse(s: Session, userInput: string, a: Analysis, draw: nat): (r: Session)
    requires s.current.Some?
    requires !a.IsError() ==> WellFormed(a.effects)
    ensures Processed(s, userInput, a, r)
  {
    var s1 :=
      if a.IsError() then s
      else
        var g := UpdateGameState(s.game, a.effects);
        Session(
          g.(childAge := g.childAge + 2, totalSituations := g.totalSituations + 1),
          s.history + [Round(s.current.value.situation, userInput, a, g.childAge)],
          s.used + [s.current.value.idx],
          s.current);
    if s1.game.totalSituations >= TotalRounds then
      s1.(game := s1.game.(phase := Result))
    else
      var (situation, idx) := GetSituationForAge(s1.game.childAge, s1.used, draw);
      s1.(current := Some(Current(situation, idx)))
  }

  /** The invariants of a session started by `RestartGame`. */
  predicate Invariant(s: Session) {
    && 0 <= s.game.totalSituations <= TotalRounds
    && s.game.childAge == 3 + 2 * s.game.totalSituations
    && |s.history| == |s.used| == s.game.totalSituations
    && InRange(s.game.traits)
    && (s.game.phase == Result <==> s.game.totalSituations == TotalRounds)
    && s.game.childName == InitialGameState.childName
    && s.current.Some? && InCatalog(s.current.value.idx)
    && s.current.value.situation == Situations[s.current.value.idx]
  }

  /** With the shipped catalog, the game walks it in order: round k showed
      entry k at age 3 + 2 * k, the used list is 0, 1, ..., and while the
      game runs the scenario on screen is the next entry. */
  predicate CatalogOrder(s: Session) {
    && (forall k :: 0 <= k < |s.used| ==> s.used[k] == k)
    && |s.history| <= |Situations|
    && (forall k :: 0 <= k < |s.history| ==> s.history[k].situation == Situations[k] && s.history[k].age == 3 + 2 * k)
    && (s.game.phase == Playing ==> s.current.Some? && s.current.value.idx == s.game.totalSituations)
  }

  /** A restarted session satisfies the invariants and offers the respond
      button. */
  lemma RestartEstablishes(draw: nat)
    ensures Invariant(RestartGame(draw)) && CatalogOrder(RestartGame(draw))
    ensures SubmitOffered(RestartGame(draw))
  {
    assert InRange(InitialTraits) by {
      assert forall u: Trait :: 0 <= InitialTraits.Get(u) <= 100;
    }
  }

  /** Any outcome of a round played while the game runs keeps the
      invariants. */
  lemma ProcessedKeepsInvariant(s: Session, userInput: string, a: Analysis, r: Session)
    requires Invariant(s) && s.game.phase == Playing
    requires Processed(s, userInput, a, r)
    ensures Invariant(r)
  {
    if !a.IsError() {
      forall u: Trait
        ensures 0 <= r.game.traits.Get(u) <= 100
      {
        assert 0 <= s.game.traits.Get(u) <= 100;
      }
    }
  }

  /** Any outcome of a round played while the game runs keeps the catalog
      order. */
  lemma ProcessedKeepsOrder(s: Session, userInput: string, a: Analysis, r: Session)
    requires Invariant(s) && CatalogOrder(s) && s.game.phase == Playing
    requires Processed(s, userInput, a, r) && Invariant(r)
    ensures CatalogOrder(r)
  {
    if !a.IsError() {
      CountedRoundExtendsOrder(s, userInput, a, r);
    }
    if r.game.totalSituations < TotalRounds {
      NextEntryOnScreen(r);
    }
  }

  /** A counted round appends entry n, shown at age 3 + 2 * n, to the
      history and n to the used list. */
  lemma CountedRoundExtendsOrder(s: Session, userInput: string, a: Analysis, r: Session)
    requires Invariant(s) && CatalogOrder(s) && s.game.phase == Playing
    requires r.history == s.history + [Round(s.current.value.situation, userInput, a, s.game.childAge)]
    requires r.used == s.used + [s.current.value.idx]
    ensures forall k :: 0 <= k < |r.used| ==> r.used[k] == k
    ensures forall k :: 0 <= k < |r.history| ==> r.history[k].situation == Situations[k] && r.history[k].age == 3 + 2 * k
  {
    var n := s.game.totalSituations;
    var last := Round(Situations[n], userInput, a, 3 + 2 * n);
    assert r.history == s.history + [last];
    forall k | 0 <= k < |r.history|
      ensures r.history[k].situation == Situations[k] && r.history[k].age == 3 + 2 * k
    {
      if k < n {
        assert r.history[k] == s.history[k];
      }
    }
    forall k | 0 <= k < |r.used|
      ensures r.used[k] == k
    {
      if k < n {
        assert r.used[k] == s.used[k];
      }
    }
  }

  /** While the game runs after a round, the scenario on screen is the next
      catalog entry: at age 3 + 2 * n the only candidate is entry n. */
  lemma NextEntryOnScreen(r: Session)
    requires 0 <= r.game.totalSituations < TotalRounds
    requires r.game.childAge == 3 + 2 * r.game.totalSituations
    requires r.current.Some? && r.current.value.idx in Candidates(r.game.childAge, r.used)
    ensures r.current.value.idx == r.game.totalSituations
  {
    CandidatesAt(r.game.totalSituations, r.used);
  }

  /** A round played while the game runs keeps the invariants. */
  lemma ProcessPreservesInvariant(s: Session, userInput: string, a: Analysis, draw: nat)
    requires Invariant(s) && s.game.phase == Playing
    requires !a.IsError() ==> WellFormed(a.effects)
    ensures Invariant(ProcessUserResponse(s, userInput, a, draw))
  {
    ProcessedKeepsInvariant(s, userInput, a, ProcessUserResponse(s, userInput, a, draw));
  }

  /** A round played while the game runs keeps the catalog order. */
  lemma ProcessKeepsCatalogOrder(s: Session, userInput: string, a: Analysis, draw: nat)
    requires Invariant(s) && CatalogOrder(s) && s.game.phase == Playing
    requires !a.IsError() ==> WellFormed(a.effects)
    ensures CatalogOrder(ProcessUserResponse(s, userInput, a, draw))
  {
    var r := ProcessUserResponse(s, userInput, a, draw);
    ProcessedKeepsInvariant(s, userInput, a, r);
    ProcessedKeepsOrder(s, userInput, a, r);
  }

  /** What the player can do: submit a response (with its analysis and the
      draw for the next scenario), or press a reset button. */
  datatype Event =
    | Submit(userInput: string, analysis: Analysis, draw: nat)
    | Reset(draw: nat)

  /** The effects of a submitted analysis are a well-formed dictionary. */
  predicate WellFormedEvent(e: Event) {
    e.Submit? && !e.analysis.IsError() ==> WellFormed(e.analysis.effects)
  }

  /** The respond button is on screen: the game runs and a scenario is
      shown. */
  predicate SubmitOffered(s: Session) {
    s.game.phase == Playing && s.current.Some?
  }

  /** A submit when the respond button is on screen. */
  function Submitted(s: Session, e: Event): (r: Session)
    requires e.Submit? && WellFormedEvent(e)
    ensures !SubmitOffered(s) ==> r == s
  {
    if SubmitOffered(s) then ProcessUserResponse(s, e.userInput, e.analysis, e.draw) else s
  }

  /** One event, with the reset buttons calling `reset_game` as written. */
  function StepAsWritten(s: Session, e: Event): Session
    requires WellFormedEvent(e)
  {
    match e
    case Submit(_, _, _) => Submitted(s, e)
    case Reset(_) => ResetGame()
  }

  /** One event, with the reset buttons restarting the game. */
  function Step(s: Session, e: Event): Session
    requires WellFormedEvent(e)
  {
    match e
    case Submit(_, _, _) => Submitted(s, e)
    case Reset(draw) => RestartGame(draw)
  }

  /** A sequence of events, reset as written. */
  function RunAsWritten(s: Session, events: seq<Event>): Session
    requires forall i :: 0 <= i < |events| ==> WellFormedEvent(events[i])
    decreases |events|
  {
    if |events| == 0 then s else RunAsWritten(StepAsWritten(s, events[0]), events[1..])
  }

  /** A sequence of events, reset restarting the game. */
  function Run(s: Session, events: seq<Event>): Session
    requires forall i :: 0 <= i < |events| ==> WellFormedEvent(events[i])
    decreases |events|
  {
    if |events| == 0 then s else Run(Step(s, events[0]), events[1..])
  }

  /** With `reset_game` as written, a reset leaves no scenario on screen and
      the first-load path never picks one, so the respond button never
      returns: whatever the player does, the session stays in its reset
      state. */
  lemma {:induction false} ResetLeavesGameStuck(events: seq<Event>)
    requires forall i :: 0 <= i < |events| ==> WellFormedEvent(events[i])
    ensures RunAsWritten(ResetGame(), events) == ResetGame()
    ensures !SubmitOffered(RunAsWritten(ResetGame(), events))
    decreases |events|
  {
    if |events| > 0 {
      assert StepAsWritten(ResetGame(), events[0]) == ResetGame();
      ResetLeavesGameStuck(events[1..]);
    }
  }

  /** Without resets the program as written and the restarting model agree:
      on submits alone, both runs give the same session. */
  lemma {:induction false} SubmitsAgree(s: Session, events: seq<Event>)
    requires forall i :: 0 <= i < |events| ==> events[i].Submit? && WellFormedEvent(events[i])
    ensures RunAsWritten(s, events) == Run(s, events)
    decreases |events|
  {
    if |events| > 0 {
      SubmitsAgree(Submitted(s, events[0]), events[1..]);
    }
  }

  /** With restarting resets, every event keeps the invariants and the
      catalog order. */
  lemma StepPreserves(s: Session, e: Event)
    requires WellFormedEvent(e) && Invariant(s) && CatalogOrder(s)
    ensures Invariant(Step(s, e)) && CatalogOrder(Step(s, e))
  {
    match e
    case Submit(input, a, draw) =>
      if SubmitOffered(s) {
        ProcessPreservesInvariant(s, input, a, draw);
        ProcessKeepsCatalogOrder(s, input, a, draw);
      }
    case Reset(draw) =>
      RestartEstablishes(draw);
  }

  /** From a restart, any sequence of events keeps the invariants: age is
      3 + 2 * rounds, history and used list have one entry per round, at
      most eight rounds, every trait in [0, 100], the result phase exactly
      at eight rounds, and the catalog walked in order. */
  lemma {:induction false} RunPreserves(s: Session, events: seq<Event>)
    requires forall i :: 0 <= i < |events| ==> WellFormedEvent(events[i])
    requires Invariant(s) && CatalogOrder(s)
    ensures Invariant(Run(s, events)) && CatalogOrder(Run(s, events))
    decreases |events|
  {
    if |events| > 0 {
      StepPreserves(s, events[0]);
      RunPreserves(Step(s, events[0]), events[1..]);
    }
  }

  /** A submit whose analysis is not an error. */
  predicate Counted(e: Event) {
    e.Submit? && !e.analysis.IsError()
  }

  /** Enough counted rounds end the game: from a session with `n` rounds
      counted, `8 - n` or more counted submits reach the result phase with
      eight rounds, age 19 and a full history. */
  lemma {:induction false} CountedRoundsConclude(s: Session, events: seq<Event>)
    requires Invariant(s) && CatalogOrder(s)
    requires forall i :: 0 <= i < |events| ==> WellFormedEvent(events[i]) && Counted(events[i])
    requires |events| >= TotalRounds - s.game.totalSituations
    ensures Run(s, events).game.phase == Result
    ensures Run(s, events).game.totalSituations == TotalRounds
    ensures Run(s, events).game.childAge == 19
    ensures |Run(s, events).history| == TotalRounds
    decreases |events|
  {
    if s.game.phase == Playing {
      CountedStep(s, events[0]);
      CountedRoundsConclude(Step(s, events[0]), events[1..]);
    } else {
      FinishedStaysFinished(s, events);
    }
  }

  /** A counted submit while the game runs keeps the invariants and the
      catalog order and counts one more round. */
  lemma CountedStep(s: Session, e: Event)
    requires Invariant(s) && CatalogOrder(s) && s.game.phase == Playing
    requires WellFormedEvent(e) && Counted(e)
    ensures Invariant(Step(s, e)) && CatalogOrder(Step(s, e))
    ensures Step(s, e).game.totalSituations == s.game.totalSituations + 1
  {
    StepPreserves(s, e);
  }

  /** Once the result phase is reached, submits change nothing. */
  lemma {:induction false} FinishedStaysFinished(s: Session, events: seq<Event>)
    requires s.game.phase == Result
    requires forall i :: 0 <= i < |events| ==> events[i].Submit? && WellFormedEvent(events[i])
    ensures Run(s, events) == s
    decreases |events|
  {
    if |events| > 0 {
      FinishedStaysFinished(Step(s, events[0]), events[1..]);
    }
  }

  /** An error round counts for nothing: submits whose analyses are errors
      leave the traits, age, counter, history and used list as they were. */
  lemma {:induction false} ErrorRoundsChangeNothing(s: Session, events: seq<Event>)
    requires forall i :: 0 <= i < |events| ==> events[i].Submit? && events[i].analysis.IsError()
    ensures Run(s, events).game.traits == s.game.traits
    ensures Run(s, events).game.childAge == s.game.childAge
    ensures Run(s, events).game.totalSituations == s.game.totalSituations
    ensures Run(s, events).history == s.history && Run(s, events).used == s.used
    decreases |events|
  {
    if |events| > 0 {
      ErrorRoundsChangeNothing(Step(s, events[0]), events[1..]);
    }
  }

  /** A full game of eight counted rounds from a restart ends in the result
      phase having shown the eight scenarios in catalog order. */
  lemma FullGame(draw: nat, events: seq<Event>)
    requires |events| == TotalRounds
    requires forall i :: 0 <= i < |events| ==> WellFormedEvent(events[i]) && Counted(events[i])
    ensures Run(RestartGame(draw), events).game.phase == Result
    ensures |Run(RestartGame(draw), events).history| == |Run(RestartGame(draw), events).used| == TotalRounds
    ensures forall k :: 0 <= k < TotalRounds ==> Run(RestartGame(draw), events).history[k].situation == Situations[k]
    ensures forall k :: 0 <= k < TotalRounds ==> Run(RestartGame(draw), events).used[k] == k
  {
    RestartEstablishes(draw);
    CountedRoundsConclude(RestartGame(draw), events);
    RunPreserves(RestartGame(draw), events);
  }
}
