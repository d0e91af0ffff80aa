/**
 * The entities the event reducer of the Risk engine reads and writes: identities,
 * territories, players, the closed set of move and record variants that make up the
 * event log, and the outcome of committing one of them.
 */
module RiskTypes {

  type PlayerId = int
  type TerritoryId = int
  type CardId = int

  datatype Option<+T> = None | Some(value: T)

  /** A territory on the board. `occupier` is None only before it is claimed. */
  datatype Territory = Territory(occupier: Option<PlayerId>, troops: int)

  /**
   * A player. `troopsRemaining` is the pool of troops not yet placed on the board,
   * `cards` the hand in the order the cards were received, and `mustPlace` the
   * territories the player is obliged to reinforce after a matching card redemption.
   */
  datatype Player = Player(
    troopsRemaining: int,
    cards: seq<CardId>,
    alive: bool,
    mustPlace: set<TerritoryId>)

  /** What an attack move chose: to pass, or to attack one territory from another. */
  datatype AttackChoice =
    | Pass
    | Attack(attacking: TerritoryId, defending: TerritoryId)

  /**
   * One entry of the event log: a move issued by a player or a record derived by
   * the engine. Fields that refer to other log entries (`moveAttackId`,
   * `recordAttackId`, `redeemCardsMove`) hold their index in the log.
   */
  datatype Record =
    | MoveAttack(moveBy: PlayerId, move: AttackChoice)
    | MoveClaimTerritory(moveBy: PlayerId, territory: TerritoryId)
    | MoveDefend(moveBy: PlayerId)
    | MoveDistributeTroops(moveBy: PlayerId, distributions: map<TerritoryId, int>)
    | MoveFortify(moveBy: PlayerId, source: TerritoryId, target: TerritoryId, troopCount: int)
    | MovePlaceInitialTroop(moveBy: PlayerId, territory: TerritoryId)
    | MoveRedeemCards(moveBy: PlayerId, sets: seq<seq<CardId>>)
    | MoveTroopsAfterAttack(moveBy: PlayerId, recordAttackId: int, troopCount: int)
    | RecordAttack(moveAttackId: int, attackingTroopsLost: int, defendingTroopsLost: int)
    | RecordBanned
    | RecordDrewCard(player: PlayerId, card: CardId)
    | RecordPlayerEliminated(player: PlayerId, recordAttackId: int, cardsSurrendered: seq<CardId>)
    | RecordRedeemedCards(redeemCardsMove: int, totalSetBonus: int, matchingTerritoryBonus: int)
    | RecordShuffledCards
    | RecordStartGame(turnOrder: seq<PlayerId>)
    | RecordStartTurn(player: PlayerId, territoryBonus: int, continentBonus: int)
    | RecordTerritoryConquered(recordAttackId: int)
    | RecordWinner
    | RecordCancelled

  /** The runtime errors a handler raises, one per `raise` in the reducer. */
  datatype Error =
    | TroopsAfterPass        // troops moved in after an attack that was a pass
    | RecordAttackAfterPass  // combat losses recorded for an attack that was a pass
    | ConqueredAfterPass     // a conquest recorded for an attack that was a pass
    | ShuffledNonEmptyDeck   // the discard pile shuffled back while the deck still held cards

  /** Committing an event either completes or raises one of the errors above. */
  datatype Outcome = Done | Raised(error: Error)
}
