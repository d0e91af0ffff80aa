/**
 * The event reducer itself: the engine state as an object whose fields are updated in
 * place, and the StateMutator that appends each event to the log and runs the handler
 * for its variant. Every handler is proved to leave the state that the matching
 * function of module Transitions describes, and Commit to leave a state Commits allows.
 */
module Mutator {
  import opened RiskTypes
  import opened Redemption
  import opened Transitions

  /** The authoritative game state; only a StateMutator writes to it. */
  class EngineState {
    var territories: map<TerritoryId, Territory>
    var players: map<PlayerId, Player>
    var cards: map<CardId, Option<TerritoryId>>
    var deck: seq<CardId>
    var discardedDeck: seq<CardId>
    var cardSetsRedeemed: nat
    var recording: seq<Record>
    var turnOrder: seq<PlayerId>

    /** A state holding the given game, as set up before the reducer runs. */
    constructor (g: Game)
      ensures View() == g
    {
      territories, players, cards := g.territories, g.players, g.cards;
      deck, discardedDeck, cardSetsRedeemed := g.deck, g.discardedDeck, g.cardSetsRedeemed;
      recording, turnOrder := g.recording, g.turnOrder;
    }

    /** The fields of the state as one value. */
    function View(): Game
      reads this
    {
      Game(territories, players, cards, deck, discardedDeck, cardSetsRedeemed, recording, turnOrder)
    }
  }

  lemma NonEmptyHasElement(s: set<TerritoryId>)
    requires |s| > 0
    ensures exists t :: t in s
  {
    if forall t :: t !in s {
      assert false;
    }
  }

  /** The cards of all redeemed sets, gathered set by set in submission order. */
  method GatherCards(sets: seq<seq<CardId>>) returns (allCards: seq<CardId>)
    ensures allCards == Flatten(sets)
  {
    allCards := [];
    for i := 0 to |sets|
      invariant allCards == Flatten(sets[..i])
    {
      assert sets[..i + 1][..i] == sets[..i];
      allCards := allCards + sets[i];
    }
    assert sets[..|sets|] == sets;
  }

  class StateMutator {
    const state: EngineState

    constructor (state: EngineState)
      ensures this.state == state
    {
      this.state := state;
    }

    /**
     * Appends `record` to the log, then applies the handler of its variant. The
     * handlers of attack, defend, banned, redeemed-cards, winner and cancelled do
     * nothing. A raised error leaves the record in the log.
     */
    method Commit(record: Record) returns (outcome: Outcome)
      requires Admissible(state.View(), record)
      modifies state
      ensures Commits(old(state.View()), record, state.View(), outcome)
      decreases if record.MoveRedeemCards? then 1 else 0, 1
    {
      state.recording := state.recording + [record];
      outcome := Done;
      match record {
        case MoveAttack(_, _) =>
        case MoveClaimTerritory(p, t) => CommitMoveClaimTerritory(p, t);
        case MoveDefend(_) =>
        case MoveDistributeTroops(p, d) => CommitMoveDistributeTroops(p, d);
        case MoveFortify(_, s, t, n) => CommitMoveFortify(s, t, n);
        case MovePlaceInitialTroop(p, t) => CommitMovePlaceInitialTroop(p, t);
        case MoveRedeemCards(p, sets) => CommitMoveRedeemCards(p, sets);
        case MoveTroopsAfterAttack(_, i, n) => outcome := CommitMoveTroopsAfterAttack(i, n);
        case RecordAttack(m, a, d) => outcome := CommitRecordAttack(m, a, d);
        case RecordBanned =>
        case RecordDrewCard(p, c) => CommitRecordDrewCard(p, c);
        case RecordPlayerEliminated(p, i, cs) => CommitRecordPlayerEliminated(p, i, cs);
        case RecordRedeemedCards(_, _, _) =>
        case RecordShuffledCards => outcome := CommitRecordShuffledCards();
        case RecordStartGame(order) => CommitRecordStartGame(order);
        case RecordStartTurn(p, tb, cb) => CommitRecordStartTurn(p, tb, cb);
        case RecordTerritoryConquered(i) => outcome := CommitRecordTerritoryConquered(i);
        case RecordWinner =>
        case RecordCancelled =>
      }
    }

    method CommitMoveClaimTerritory(p: PlayerId, t: TerritoryId)
      requires p in state.players && t in state.territories
      modifies state
      ensures state.View() == ClaimTerritory(old(state.View()), p, t)
    {
      var player := state.players[p];
      state.territories := state.territories[t := state.territories[t].(occupier := Some(p))];
      state.territories := state.territories[t := state.territories[t].(troops := 1)];
      state.players := state.players[p := player.(troopsRemaining := player.troopsRemaining - 1)];
    }

    /** Empties the pool, clears the obligation, then adds each share in turn. */
    method CommitMoveDistributeTroops(p: PlayerId, distributions: map<TerritoryId, int>)
      requires p in state.players && distributions.Keys <= state.territories.Keys
      modifies state
      ensures state.View() == DistributeTroops(old(state.View()), p, distributions)
    {
      state.players := state.players[p := state.players[p].(troopsRemaining := 0)];
      state.players := state.players[p := state.players[p].(mustPlace := {})];
      ghost var before := old(state.territories);
      var pending := distributions.Keys;
      while |pending| > 0
        invariant pending <= distributions.Keys
        invariant state.territories.Keys == before.Keys
        invariant forall t :: t in state.territories ==>
          state.territories[t] ==
            if t in distributions && t !in pending
            then before[t].(troops := before[t].troops + distributions[t])
            else before[t]
        invariant state.View() == DistributeTroops(old(state.View()), p, distributions).(territories := state.territories)
        decreases pending
      {
        NonEmptyHasElement(pending);
        var t: TerritoryId :| t in pending;
        state.territories := AddTroops(state.territories, t, distributions[t]);
        pending := pending - {t};
      }
      var expected := Distributed(before, distributions);
      assert state.territories.Keys == expected.Keys;
      assert forall t :: t in expected ==> state.territories[t] == expected[t];
    }

    method CommitMoveFortify(source: TerritoryId, target: TerritoryId, troopCount: int)
      requires source in state.territories && target in state.territories
      modifies state
      ensures state.View() == Fortify(old(state.View()), source, target, troopCount)
    {
      state.territories := AddTroops(state.territories, source, -troopCount);
      state.territories := AddTroops(state.territories, target, troopCount);
    }

    method CommitMovePlaceInitialTroop(p: PlayerId, t: TerritoryId)
      requires p in state.players && t in state.territories
      modifies state
      ensures state.View() == PlaceInitialTroop(old(state.View()), p, t)
    {
      state.territories := AddTroops(state.territories, t, 1);
      state.players := state.players[p := state.players[p].(troopsRemaining := state.players[p].troopsRemaining - 1)];
    }

    /**
     * Credits one set bonus per set while advancing the counter, gathers the cards of
     * all sets, credits the matching-territory bonus, updates the hand, the obligation
     * and the discard pile, and commits the derived RecordRedeemedCards, which names
     * this move's own log index.
     */
    method CommitMoveRedeemCards(p: PlayerId, sets: seq<seq<CardId>>)
      requires p in state.players && CardsKnown(state.cards, Flatten(sets))
      modifies state
      ensures state.View() == RedeemCards(old(state.View()), p, sets)
      decreases 1, 0
    {
      ghost var g := state.View();
      var totalSetBonus := AwardSetBonuses(|sets|);
      assert state.territories == g.territories && state.cards == g.cards && state.players == g.players;
      var allCards := GatherCards(sets);

      var matching := MatchingTerritories(state.cards, allCards, state.territories, p);
      var matchingBonus := MatchingTerritoryBonus(matching);

      var player := state.players[p];
      state.players := state.players[p := player.(
        troopsRemaining := player.troopsRemaining + totalSetBonus + matchingBonus,
        mustPlace := matching,
        cards := WithoutCards(player.cards, Elements(allCards)))];
      state.discardedDeck := state.discardedDeck + allCards;

      var record := RecordRedeemedCards(|state.recording| - 1, totalSetBonus, matchingBonus);
      ghost var expected := RedeemCards(g, p, sets);
      assert expected.players == state.players;
      assert expected.discardedDeck == state.discardedDeck;
      assert expected.cardSetsRedeemed == state.cardSetsRedeemed;
      assert expected.recording == state.recording + [record];
      assert expected == state.View().(recording := state.recording + [record]);
      var derived := Commit(record);
    }

    /**
     * Adds up the set bonus of `count` sets redeemed one after another, advancing the
     * redemption counter once per set.
     */
    method AwardSetBonuses(count: nat) returns (totalSetBonus: nat)
      modifies state
      ensures totalSetBonus == TotalSetBonus(old(state.cardSetsRedeemed), count)
      ensures state.View() == old(state.View()).(cardSetsRedeemed := old(state.cardSetsRedeemed) + count)
    {
      totalSetBonus := 0;
      for i := 0 to count
        invariant state.cardSetsRedeemed == old(state.cardSetsRedeemed) + i
        invariant totalSetBonus == TotalSetBonus(old(state.cardSetsRedeemed), i)
        invariant state.View() == old(state.View()).(cardSetsRedeemed := state.cardSetsRedeemed)
      {
        totalSetBonus := totalSetBonus + SetBonus(state.cardSetsRedeemed);
        state.cardSetsRedeemed := state.cardSetsRedeemed + 1;
      }
    }

    /**
     * Follows the combat record to the attack move that caused it and, unless that
     * attack was a pass, moves the troops from the attacking into the defending territory.
     */
    method CommitMoveTroopsAfterAttack(recordAttackId: int, troopCount: int) returns (outcome: Outcome)
      requires IsRecordAttackAt(state.recording, recordAttackId)
      requires AttackKnown(state.territories, OriginatingAttack(state.recording, recordAttackId).move)
      modifies state
      ensures Step(outcome, state.View()) == TroopsAfterAttack(old(state.View()), recordAttackId, troopCount)
    {
      var recordAttack := state.recording[recordAttackId];
      var moveAttack := state.recording[recordAttack.moveAttackId];
      if moveAttack.move.Pass? {
        return Raised(TroopsAfterPass);
      }
      state.territories := AddTroops(state.territories, moveAttack.move.attacking, -troopCount);
      state.territories := AddTroops(state.territories, moveAttack.move.defending, troopCount);
      outcome := Done;
    }

    /** Takes the combat losses off both territories of the attack, unless it was a pass. */
    method CommitRecordAttack(moveAttackId: int, attackingLost: int, defendingLost: int) returns (outcome: Outcome)
      requires IsMoveAttackAt(state.recording, moveAttackId)
      requires AttackKnown(state.territories, state.recording[moveAttackId].move)
      modifies state
      ensures Step(outcome, state.View()) == CombatLosses(old(state.View()), moveAttackId, attackingLost, defendingLost)
    {
      var moveAttack := state.recording[moveAttackId];
      if moveAttack.move.Pass? {
        return Raised(RecordAttackAfterPass);
      }
      state.territories := AddTroops(state.territories, moveAttack.move.attacking, -attackingLost);
      state.territories := AddTroops(state.territories, moveAttack.move.defending, -defendingLost);
      outcome := Done;
    }

    method CommitRecordDrewCard(p: PlayerId, card: CardId)
      requires p in state.players
      modifies state
      ensures state.View() == DrewCard(old(state.View()), p, card)
    {
      state.players := state.players[p := state.players[p].(cards := state.players[p].cards + [card])];
    }

    /** Marks `p` dead and hands the surrendered cards to the player whose attack caused it. */
    method CommitRecordPlayerEliminated(p: PlayerId, recordAttackId: int, surrendered: seq<CardId>)
      requires p in state.players && IsRecordAttackAt(state.recording, recordAttackId)
      requires OriginatingAttack(state.recording, recordAttackId).moveBy in state.players
      modifies state
      ensures state.View() == PlayerEliminated(old(state.View()), p, recordAttackId, surrendered)
    {
      state.players := state.players[p := state.players[p].(alive := false)];
      var recordAttack := state.recording[recordAttackId];
      var moveAttack := state.recording[recordAttack.moveAttackId];
      var victor := moveAttack.moveBy;
      state.players := state.players[victor := state.players[victor].(cards := state.players[victor].cards + surrendered)];
    }

    /**
     * Turns the discard pile into the deck in an order the random source picks, here any
     * permutation, and empties the discard pile; raises if the deck still holds cards.
     */
    method CommitRecordShuffledCards() returns (outcome: Outcome)
      modifies state
      ensures Step(outcome, state.View()) == ShuffledCards(old(state.View()), state.deck)
      ensures |old(state.deck)| == 0 ==> multiset(state.deck) == multiset(old(state.discardedDeck))
    {
      if |state.deck| != 0 {
        return Raised(ShuffledNonEmptyDeck);
      }
      assert multiset(state.discardedDeck) == multiset(state.discardedDeck);
      var shuffled: seq<CardId> :| multiset(shuffled) == multiset(state.discardedDeck);
      state.deck := shuffled;
      state.discardedDeck := [];
      outcome := Done;
    }

    method CommitRecordStartGame(order: seq<PlayerId>)
      modifies state
      ensures state.View() == old(state.View()).(turnOrder := order)
    {
      state.turnOrder := order;
    }

    method CommitRecordStartTurn(p: PlayerId, territoryBonus: int, continentBonus: int)
      requires p in state.players
      modifies state
      ensures state.View() == StartTurn(old(state.View()), p, territoryBonus, continentBonus)
    {
      var player := state.players[p];
      state.players := state.players[p := player.(troopsRemaining := player.troopsRemaining + territoryBonus + continentBonus)];
    }

    /**
     * Follows the combat record to its attack move and, unless that attack was a pass,
     * zeroes the defending territory and gives it to the attacking player.
     */
    method CommitRecordTerritoryConquered(recordAttackId: int) returns (outcome: Outcome)
      requires IsRecordAttackAt(state.recording, recordAttackId)
      requires var m := OriginatingAttack(state.recording, recordAttackId);
        m.move.Attack? ==> m.move.defending in state.territories
      modifies state
      ensures Step(outcome, state.View()) == TerritoryConquered(old(state.View()), recordAttackId)
    {
      var recordAttack := state.recording[recordAttackId];
      var moveAttack := state.recording[recordAttack.moveAttackId];
      if moveAttack.move.Pass? {
        return Raised(ConqueredAfterPass);
      }
      var defending := moveAttack.move.defending;
      state.territories := state.territories[defending := state.territories[defending].(troops := 0)];
      state.territories := state.territories[defending := state.territories[defending].(occupier := Some(moveAttack.moveBy))];
      outcome := Done;
    }
  }
}
