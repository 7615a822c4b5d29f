# Raising-a-baby parenting simulation: game logic in Dafny

This project models the game logic of a single-session parenting
simulation. A parent reads a scripted scenario for the child's current age,
writes a response, and a remote language-model service scores it with five
integer trait deltas. Over eight counted rounds the child ages from 3 to 19.
At the end, a fixed decision table turns the five traits into a life outcome.

The model has four parts, one module each, plus a data module:

- `GameData` (`game_data.dfy`) holds the traits (happiness, growth, social,
  creativity, responsibility), the game state record, the initial state and
  the eight-entry scenario catalog.
- `StateUpdate` (`state_update.dfy`) is `update_game_state`. Each effect
  whose key is a trait moves that trait by its delta, clamped to [0, 100].
  Other keys are ignored.
- `FinalResult` (`final_result.dfy`) is `get_final_result`. It is an ordered
  decision table, stated next to an order-free reference reading (the first
  row whose own condition holds).
- `Selector` (`selector.dfy`) is `get_situation_for_age`. The random choice
  is an explicit `draw` parameter. The contracts hold for every draw, and a
  lemma shows every candidate is picked by some draw. So the model fixes the
  set the choice comes from, not the element.
- `Rounds` (`rounds.dfy`) is `process_user_response` (the state transition
  only) and `reset_game`, over an explicit `Session` record. It adds a small
  event model (submit / reset) of how the page drives these calls.

Integers are unbounded here, as in Python. The analysis of a response is an
input to the model: an effects dictionary (its items in order, with distinct
keys), a feedback text and a response type. The type `"오류"` marks the
neutral result that the service call returns on failure.

In the code (llmgame.py:225-239) an error round leaves `total_situations`
unchanged; only the scenario is chosen again. An error round therefore does
not use up one of the eight rounds.

## Model

| member | source | states |
|---|---|---|
| GameData.CatalogAges | llmgame.py:22-39 | Catalog entry i applies to exactly one age, 3 + 2*i |
| StateUpdate.Clamp | llmgame.py:185 | The clamped value lies in [0,100]. It is 0 below the range, 100 above it, and the value itself inside it |
| StateUpdate.UpdateGameState | llmgame.py:180-186 | Each trait the effects name ends at clamp(old + delta). Every other trait, the age, name, counter and phase are unchanged |
| StateUpdate.UpdateKeepsRange | llmgame.py:180-186 | If every trait starts in [0,100], every trait is still in [0,100] after the update |
| StateUpdate.NamedTraitInRange | llmgame.py:185 | A trait the effects name ends in [0,100], whatever its old value and delta |
| StateUpdate.UnknownKeysIgnored | llmgame.py:184 | An effect whose key is not a state field changes nothing |
| StateUpdate.OrderIrrelevant | llmgame.py:183-186 | Two effects dictionaries with the same items give the same state, whatever their iteration order |
| FinalResult.GetFinalResult | llmgame.py:188-208 | The chosen row's own condition holds and no earlier row's does. Leader holds exactly when the sum is >= 400. Wanderer holds exactly when the sum is < 200 and no trait is >= 80. Office worker holds exactly when 200 <= sum < 400 and no trait is >= 80 |
| FinalResult.ResolverIsFirstMatch | llmgame.py:193-208 | The resolver equals the first-match reading of the priority list |
| FinalResult.HighTotalWins | llmgame.py:191-194 | A sum >= 400 gives "훌륭한 리더", whatever the single traits are |
| FinalResult.TraitPriority | llmgame.py:195-204 | Below sum 400, the row of the first trait >= 80 wins, in the order responsibility, creativity, social, growth, happiness |
| FinalResult.NoStandoutFallsBack | llmgame.py:191-208 | Without a trait >= 80 the sum is at most 395, so the result is one of the two fallback rows |
| FinalResult.InitialOutcome | llmgame.py:205-208 | The initial traits (sum 280) resolve to "평범한 직장인" |
| FinalResult.HappyExample | llmgame.py:203-204 | Traits (90,50,40,30,20) resolve to the happy free spirit |
| Selector.AvailableIndices | llmgame.py:168 | The list holds exactly the indices whose age range covers the age |
| Selector.Unused | llmgame.py:171 | The list holds exactly the elements of the first list that are not in the used list |
| Selector.AllIndices | llmgame.py:176 | The list holds exactly the indices of the catalog |
| Selector.PoolIsCandidates | llmgame.py:171-176 | The pool is never empty and holds exactly the three-tier candidate set: unused eligible indices, else eligible indices, else all indices |
| Selector.GetSituationForAge | llmgame.py:165-178 | The record is the catalog entry at the chosen index. The index is in the candidate set. It is eligible and unused when such an index exists, and eligible when any index is eligible |
| Selector.EveryCandidateReachable | llmgame.py:172-176 | Every candidate index is chosen by some draw |
| Selector.AvailableAtCatalogAge | llmgame.py:22-39 | The available list for age 3 + 2*k is exactly [k] |
| Selector.AvailableShipped | llmgame.py:22-39 | Each odd age 3..17 matches only index (age-3)/2. Every other age matches no entry |
| Selector.SelectionForced | llmgame.py:165-178 | For an odd age 3..17 the chosen index is (age-3)/2, whatever the used list and the draw |
| Selector.SelectionForcedAt | llmgame.py:165-178 | At age 3 + 2*k the chosen index is k, whatever the used list and the draw |
| Rounds.ResetGame | llmgame.py:212-218 | Reset gives the initial traits, age 3, counter 0, the playing phase, empty history and used list, and no current scenario |
| Rounds.RestartGame | llmgame.py:343-348 | The first load resets and then shows catalog entry 0, the scenario for age 3 |
| Rounds.ProcessUserResponse | llmgame.py:225-246 | The result is related to the session before by `Processed`: an error round leaves traits, age, counter, history and used list unchanged. A counted round updates the traits, adds 2 to age and 1 to the counter, and appends one history entry and one used index. The phase becomes result exactly when the counter is >= 8. Otherwise a candidate scenario for the new age is on screen |
| Rounds.RestartEstablishes | llmgame.py:343-348 | A restarted session satisfies the invariants and shows the respond button |
| Rounds.ProcessPreservesInvariant | llmgame.py:225-246 | A round played in the playing phase keeps these invariants: age = 3 + 2*counter, history and used list as long as the counter, counter <= 8, traits in [0,100], result phase exactly at 8, and a catalog scenario on screen |
| Rounds.ProcessedKeepsInvariant | llmgame.py:225-246 | Any session related by `Processed` to a playing session that satisfies the invariants satisfies them too |
| Rounds.ProcessedKeepsOrder | llmgame.py:234-246 | Any session related by `Processed` to a playing session in catalog order is in catalog order too |
| Rounds.NextEntryOnScreen | llmgame.py:243-246 | While the game runs at n rounds (age 3 + 2*n), the only candidate on screen is catalog entry n |
| Rounds.ProcessKeepsCatalogOrder | llmgame.py:234-246 | A round keeps the catalog order: used list 0..n-1, round k showed entry k at age 3 + 2*k, and the next entry is on screen |
| Rounds.CountedRoundExtendsOrder | llmgame.py:228-234 | A counted round at n rounds keeps the used list 0..n and the history showing entry k at age 3 + 2*k for every k |
| Rounds.Submitted | llmgame.py:252-254 | Without a scenario on screen, or in the result phase, a submit changes nothing |
| Rounds.ResetLeavesGameStuck | llmgame.py:212-218 | With reset as written, no sequence of events ever leaves the reset state, so the respond button never comes back |
| Rounds.SubmitsAgree | llmgame.py:212-218 | On submits alone, the run with resets as written and the run with restarting resets give the same session, so the invariants proved for the latter hold for the program as written up to its first reset |
| Rounds.StepPreserves | llmgame.py:225-246 | With restarting resets, every event keeps the invariants and the catalog order |
| Rounds.RunPreserves | llmgame.py:237-246 | From a session satisfying the invariants, any sequence of events keeps them |
| Rounds.CountedStep | llmgame.py:225-239 | A counted submit while the game runs counts exactly one more round and keeps the invariants and the catalog order |
| Rounds.CountedRoundsConclude | llmgame.py:239-242 | From n counted rounds, 8 - n or more counted submits reach the result phase with counter 8, age 19 and 8 history entries |
| Rounds.FinishedStaysFinished | llmgame.py:364-367 | In the result phase, submits change nothing |
| Rounds.ErrorRoundsChangeNothing | llmgame.py:225 | From any session, submits with error analyses never change traits, age, counter, history or used list |
| Rounds.FullGame | llmgame.py:237-246 | Eight counted rounds after a restart end the game, having shown the eight scenarios in catalog order with used list 0..7 |

## Left out

- `analyze_parenting_response` (llmgame.py:86-162) calls a remote service, so its output is an input here. The model covers only the fields a round reads: effects, feedback and response type.
- `safe_json_parse` (llmgame.py:57-83) depends on a regex engine and a JSON parser that are not part of this model.
- Streamlit rendering, widgets, the spinner, rerun, error notices and the chart are left out. The event model keeps only what decides which calls can happen: the respond button needs the playing phase and a scenario on screen, and the reset buttons call `reset_game`.
- Loading the API key at startup (llmgame.py:9-17) is process setup, with no game logic.
- The probability distribution of `random.choice` is left out. Only the set the choice comes from is modelled.
- The respond button is disabled for blank input (llmgame.py:270). Python's whitespace rules are not modelled, so any text may be submitted.
- StateUpdate.UpdateGameState: effects keys are restricted. No key may be `child_age`, `child_name`, `total_situations` or `game_phase`. With such keys Python either adds to a non-trait field or raises a type error. Effect values are integers only.
- Rounds.ProcessUserResponse: requires a scenario on screen. The prompt is built outside the `try` (llmgame.py:123-130), so a missing scenario raises before any state change. An analysis missing `effects` or `response_type` would raise a KeyError, and that is not modelled.

## Findings

| source | as written | input that shows it | evidently intended | confidence | as-written member | corrected member |
|---|---|---|---|---|---|---|
| llmgame.py:212-218 | `reset_game` sets the current scenario to None. The first-load path (llmgame.py:343-348) picks a scenario only when no game state exists yet. After a reset a game state does exist, so the page stops at the "loading" notice (llmgame.py:252-254) and never shows the respond button again | Press either reset button (llmgame.py:272-273 or 313), then do anything | A reset should also pick the first scenario, as the first load does | medium, not executed (depends on the framework's rerun behaviour) | Rounds.ResetLeavesGameStuck | Rounds.RestartGame |

The event model's `Step` uses the corrected `RestartGame` for resets.
`Rounds.RestartEstablishes` and `Rounds.RunPreserves` prove that after it the
respond button is shown and every invariant holds. `StepAsWritten` and
`RunAsWritten` keep the code as written.
