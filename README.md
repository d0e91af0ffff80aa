# Risk engine event reducer

This project models the event reducer of the Risk game engine, `StateMutator`. It is
the only component that writes to the authoritative game state. Each event is either a
move issued by a player or a record derived by the engine. `commit` appends the event
to the game's log (the recording), then runs the handler for the event's variant. A
handler may:

- change territories (occupier and troops);
- change players (troop pool, hand, alive flag, matching-territory obligation);
- move cards between the hand, the deck and the discard pile;
- advance the card-set redemption counter;
- set the turn order;
- raise an error.

A card redemption also commits the `RecordRedeemedCards` it derives. Several handlers
find their cause by following log indices backwards, from a move to its combat record
and on to the attack move.

The project has four modules:

- `RiskTypes` (`types.dfy`) holds the entities: territories, players, the closed set of
  nineteen event variants, and the errors a commit can raise.
- `Redemption` (`redemption.dfy`) holds the pure computations of a redemption: the
  escalating set bonus, the cards handed in, the hand left over, and the territories
  that earn the matching-territory bonus.
- `Transitions` (`transitions.dfy`) describes the game state as a value (`Game`) and
  gives the effect of each handler as a function. `Apply` is the effect of a commit.
  `Commits` relates a state before a commit to every state the commit may leave; for a
  shuffle this covers any permutation of the discard pile. The lemmas state what a
  commit promises.
- `Mutator` (`state_mutator.dfy`) is the reducer in its own imperative form. The class
  `EngineState` has fields that the handlers update in place, and the class
  `StateMutator` has one method per handler. Each method is proved to leave exactly the
  state that the corresponding `Transitions` function describes.

## Model

All source paths are in `risk-engine/src/risk_engine/game/`.

| member | source | states |
|---|---|---|
| Mutator.StateMutator.Commit | risk-engine/src/risk_engine/game/state_mutator.py:31-74 | Commit appends the event and runs its handler. The state and outcome it leaves are allowed by `Commits`: they equal `Apply` on the old state, and a shuffle deck is a permutation of the old discard pile. Attack, defend, banned, redeemed-cards, winner and cancelled change only the log. |
| Mutator.StateMutator.constructor | risk-engine/src/risk_engine/game/state_mutator.py:28-29 | The reducer works on the state object it is given. |
| Mutator.EngineState.constructor | risk-engine/src/risk_engine/game/state_mutator.py:28 | The class stands for the imported `EngineState` that the reducer receives here; the object holds the game it was set up with. |
| Mutator.StateMutator.CommitMoveClaimTerritory | risk-engine/src/risk_engine/game/state_mutator.py:81-87 | The player occupies the territory with one troop, and their pool drops by one. |
| Mutator.StateMutator.CommitMoveDistributeTroops | risk-engine/src/risk_engine/game/state_mutator.py:94-105 | The loop adds each territory's share. It leaves `Distributed`: the shares added, the pool zero, the obligation empty. This holds whatever order the shares are visited in. |
| Mutator.StateMutator.CommitMoveFortify | risk-engine/src/risk_engine/game/state_mutator.py:108-110 | Moves the troop count from the source territory to the target territory. |
| Mutator.StateMutator.CommitMovePlaceInitialTroop | risk-engine/src/risk_engine/game/state_mutator.py:113-115 | One troop goes from the player's pool onto the territory. |
| Mutator.StateMutator.CommitMoveRedeemCards | risk-engine/src/risk_engine/game/state_mutator.py:118-153 | Redemption leaves the state given by `RedeemCards`, including the derived record committed through `Commit`. |
| Mutator.StateMutator.AwardSetBonuses | risk-engine/src/risk_engine/game/state_mutator.py:126-130 | The loop earns `TotalSetBonus(counter, count)` and advances the counter by `count`. Nothing else changes. |
| Mutator.GatherCards | risk-engine/src/risk_engine/game/state_mutator.py:132-135 | The gathered cards are `Flatten(sets)`: all cards of the sets, in submission order. |
| Mutator.StateMutator.CommitMoveTroopsAfterAttack | risk-engine/src/risk_engine/game/state_mutator.py:156-165 | Follows the record to its attack move. A pass raises `TroopsAfterPass`. Otherwise troops move from the attacking territory to the defending territory. |
| Mutator.StateMutator.CommitRecordAttack | risk-engine/src/risk_engine/game/state_mutator.py:168-177 | A pass raises `RecordAttackAfterPass`. Otherwise both losses come off their territories. |
| Mutator.StateMutator.CommitRecordDrewCard | risk-engine/src/risk_engine/game/state_mutator.py:184-185 | The card goes onto the end of the player's hand. |
| Mutator.StateMutator.CommitRecordPlayerEliminated | risk-engine/src/risk_engine/game/state_mutator.py:188-195 | The player is marked dead. The surrendered cards go to the player whose attack, found two log steps back, caused the elimination. |
| Mutator.StateMutator.CommitRecordShuffledCards | risk-engine/src/risk_engine/game/state_mutator.py:202-208 | A non-empty deck raises `ShuffledNonEmptyDeck`. Otherwise the deck becomes a permutation of the discard pile, and the discard pile empties. |
| Mutator.StateMutator.CommitRecordStartGame | risk-engine/src/risk_engine/game/state_mutator.py:211-212 | The turn order becomes the recorded one. Nothing else changes. |
| Mutator.StateMutator.CommitRecordStartTurn | risk-engine/src/risk_engine/game/state_mutator.py:215-216 | The territory bonus and continent bonus are added to the player's pool. |
| Mutator.StateMutator.CommitRecordTerritoryConquered | risk-engine/src/risk_engine/game/state_mutator.py:219-228 | A pass raises `ConqueredAfterPass`. Otherwise the defending territory is emptied and given to the attacker. |
| Redemption.SetBonus | risk-engine/src/risk_engine/game/state_mutator.py:119-124 | Every set is worth at least four troops. |
| Redemption.SetBonusSchedule | risk-engine/src/risk_engine/game/state_mutator.py:119-124 | The first eight sets are worth 4, 6, 8, 10, 12, 15, 20 and 25. |
| Redemption.SetBonusTail | risk-engine/src/risk_engine/game/state_mutator.py:124 | From the sixth set on, the bonus is 15 + 5·(x − 5), so each further set adds five. |
| Redemption.SetBonusStep | risk-engine/src/risk_engine/game/state_mutator.py:119-124 | Each set is worth more than the one before. |
| Redemption.SetBonusStrictlyIncreasing | risk-engine/src/risk_engine/game/state_mutator.py:119-124 | The schedule is strictly increasing. |
| Redemption.TotalSetBonus | risk-engine/src/risk_engine/game/state_mutator.py:127-130 | Redeeming k sets earns at least 4·k troops. |
| Redemption.TotalSetBonusSplit | risk-engine/src/risk_engine/game/state_mutator.py:127-130 | Redeeming j sets and then k more earns the same as redeeming j + k sets at once. |
| Redemption.TotalSetBonusGrowsWithCounter | risk-engine/src/risk_engine/game/state_mutator.py:127-130 | The same number of sets earns strictly more when redeemed later in the game. |
| Redemption.FlattenContains | risk-engine/src/risk_engine/game/state_mutator.py:133-135 | A card is handed in exactly when it belongs to one of the sets. |
| Redemption.FlattenAppend | risk-engine/src/risk_engine/game/state_mutator.py:133-135 | Gathering two batches of sets gives the concatenation of the two batches' cards. |
| Redemption.WithoutCards | risk-engine/src/risk_engine/game/state_mutator.py:146 | A card stays in the hand exactly when it was there and was not redeemed. The hand never grows. |
| Redemption.WithoutCardsAppend | risk-engine/src/risk_engine/game/state_mutator.py:146 | The filter keeps the hand's order: it distributes over concatenation. |
| Redemption.WithoutCardsUntouched | risk-engine/src/risk_engine/game/state_mutator.py:146 | A hand holding none of the redeemed cards is left as it was. |
| Redemption.CardTerritories | risk-engine/src/risk_engine/game/state_mutator.py:140 | The cards name at most as many territories as there are cards. |
| Redemption.CardTerritoriesContains | risk-engine/src/risk_engine/game/state_mutator.py:140 | A territory is named exactly when some redeemed card carries it. Wildcards carry none. |
| Redemption.MatchingTerritories | risk-engine/src/risk_engine/game/state_mutator.py:140 | Every matching territory exists and is occupied by the redeemer. |
| Redemption.MatchingTerritoriesContains | risk-engine/src/risk_engine/game/state_mutator.py:140 | A territory matches exactly when the redeemer occupies it and a redeemed card carries it. |
| Redemption.MatchingTerritoryBonus | risk-engine/src/risk_engine/game/state_mutator.py:141 | The bonus is 2 exactly when some territory matches, and 0 exactly when none does. |
| Transitions.OriginatingAttack | risk-engine/src/risk_engine/game/state_mutator.py:157-160 | Following a combat record's `moveAttackId` gives an attack move that is in the log. |
| Transitions.ResolutionStable | risk-engine/src/risk_engine/game/state_mutator.py:193-194 | Appending to the log never changes what an earlier index resolves to. |
| Transitions.CommitAppends | risk-engine/src/risk_engine/game/state_mutator.py:31-32 | The event is appended at the end of the old log. The log grows by one, or by two for a redemption. |
| Transitions.RedeemRecordsItself | risk-engine/src/risk_engine/game/state_mutator.py:151-153 | A redemption at index i is followed by a `RecordRedeemedCards` at i + 1. That record points to i and carries the bonuses credited. |
| Transitions.RedeemEffect | risk-engine/src/risk_engine/game/state_mutator.py:118-153 | A redemption credits the set bonus and the matching bonus to the pool, advances the counter by the number of sets, makes the matching territories the obligation, takes the redeemed cards out of the hand and puts them on the discard pile in order. Nothing else changes except the log. |
| Transitions.RedeemedCardsLeaveHand | risk-engine/src/risk_engine/game/state_mutator.py:146 | After a redemption, a card is in the hand exactly when it was there before and is in none of the sets. |
| Transitions.NoOpsOnlyLog | risk-engine/src/risk_engine/game/state_mutator.py:77-78 | Attack, defend, banned, redeemed-cards, winner and cancelled always succeed and change only the log. |
| Transitions.RaisesExactly | risk-engine/src/risk_engine/game/state_mutator.py:156-228 | A commit raises exactly when either: (1) troops-after-attack, combat or conquest follows an attack that was a pass; or (2) a shuffle finds a non-empty deck. After a raise the event stays in the log and nothing else has changed. |
| Transitions.FortifyConserves | risk-engine/src/risk_engine/game/state_mutator.py:108-110 | Fortifying keeps the combined troops of source and target. It changes no other territory, no occupier and no player. |
| Transitions.TroopsAfterAttackConserves | risk-engine/src/risk_engine/game/state_mutator.py:156-165 | Moving in keeps the combined troops of the attacking and defending territories. It changes no other territory and no occupier. |
| Transitions.PlaceInitialTroopConserves | risk-engine/src/risk_engine/game/state_mutator.py:113-115 | Placing moves exactly one troop from the pool onto the territory, and keeps the occupier. |
| Transitions.ClaimTerritoryEffect | risk-engine/src/risk_engine/game/state_mutator.py:81-87 | The claimed territory holds one troop of the claimant. The pool drops by one. Claiming an empty territory conserves troops. |
| Transitions.DistributeTroopsEffect | risk-engine/src/risk_engine/game/state_mutator.py:94-105 | The pool becomes zero and the obligation empty. Each named territory gains its share; the others and all occupiers stay the same. |
| Transitions.CombatLossesEffect | risk-engine/src/risk_engine/game/state_mutator.py:168-177 | Every territory loses the attacker's losses if it is the attacking territory and the defender's losses if it is the defending one (both when the two coincide); nothing else happens to it. No occupier and no player changes. |
| Transitions.ConquestEffect | risk-engine/src/risk_engine/game/state_mutator.py:219-228 | The defending territory ends up empty and belongs to the attacker. Every other territory is unchanged. |
| Transitions.PlayerEliminatedEffect | risk-engine/src/risk_engine/game/state_mutator.py:188-195 | The eliminated player is dead. The victor's hand gains the surrendered cards at its end. |
| Transitions.ShuffleEffect | risk-engine/src/risk_engine/game/state_mutator.py:202-208 | A shuffle fails exactly when the deck is not empty. Otherwise the deck becomes a permutation of the discard pile, the discard pile empties, and territories and players are untouched. |
| Transitions.ConquestThenMoveIn | risk-engine/src/risk_engine/game/state_mutator.py:156-165 | Conquest followed by move-in leaves exactly the moved troops on the conquered territory. |
| Transitions.MoveInThenConquest | risk-engine/src/risk_engine/game/state_mutator.py:219-228 | In the reverse order, the conquest wipes out the moved troops, which the attacker has still lost. |
| Transitions.CommitKeepsRedemptionsLinked | risk-engine/src/risk_engine/game/state_mutator.py:151-153 | Every `RecordRedeemedCards` in the log directly follows the redemption it names. Every commit keeps this, as long as callers never commit such a record themselves. |
| Transitions.CounterTracksLog | risk-engine/src/risk_engine/game/state_mutator.py:126-130 | Every commit advances the redemption counter by exactly the number of sets that the log gains. |

## Left out

- The random order of the shuffle is not modelled. `random.shuffle` becomes a
  nondeterministic choice of permutation: `Commits` accepts any deck that is a
  permutation of the old discard pile.
- Failed dictionary lookups, out-of-range indices and wrong-variant casts are not
  modelled as errors. These are the `KeyError`/`IndexError` cases and the unchecked
  `cast` to `RecordAttack`/`MoveAttack`. Each one is a precondition (`Admissible`).
  Only the four explicit `RuntimeError` raises are modelled as outcomes.
- Negative log indices are excluded. Python would count them from the end of the log.
- The `NotImplementedError` fallback of `commit` is not modelled. It cannot be reached,
  because the event datatype is closed.
- Cards are ids, not card objects. The reducer's `cards` table maps an id to the
  territory it carries, or `None` for a wildcard. The hand filter of the redemption
  handler is modelled as comparing card ids.
- The key of a territory is assumed to equal its `territory_id`.
- Territories and players are values in maps. Aliasing between the objects the
  handlers hold and the state's dictionaries is not modelled.
- The order of the matching-territory obligation is not modelled: it is a set, where
  the source builds a list from a set in arbitrary order.
- The order in which troop distribution visits the map is not modelled. The loop picks
  the territories in any order, and the result is proved independent of that order.
- Counting set bonuses and gathering the redeemed cards happen in the separate methods
  `AwardSetBonuses` and `GatherCards`. The redemption handler calls them; the steps are
  the same as the source's.
- Mutator.StateMutator.Commit: the shuffle case ensures only a permutation, not the
  particular order that the random source produces.
- No rule validation is modelled. The reducer does none, so troop counts are
  unbounded integers that may go negative, and nothing conserves the total number of
  cards.
- Two behaviours of the code are easy to misread. The set bonus from the seventh
  set on is 15 + 5·(x − 5). A shuffle that raises has already appended its record to
  the log.
