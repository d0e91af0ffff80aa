/**
 * The game state as a value and the effect of committing one event to it, handler by
 * handler. `Apply` is the reference the imperative reducer in module Mutator is
 * proved against; the lemmas at the end state what a commit promises: the log
 * grows by the event (and, for a redemption, by the derived record that points back
 * to it), troops are conserved where the rules move them, and the explicit failure
 * cases raise exactly when their condition holds, leaving everything but the log
 * untouched.
 */
module Transitions {
  import opened RiskTypes
  import opened Redemption

  /** Everything the reducer reads or writes. */
  datatype Game = Game(
    territories: map<TerritoryId, Territory>,
    players: map<PlayerId, Player>,
    cards: map<CardId, Option<TerritoryId>>,
    deck: seq<CardId>,
    discardedDeck: seq<CardId>,
    cardSetsRedeemed: nat,
    recording: seq<Record>,
    turnOrder: seq<PlayerId>)

  /** The outcome of one commit together with the state it leaves. */
  datatype Step = Step(outcome: Outcome, game: Game)

  // ---------------------------------------------------------------------------
  // History resolution: looking causes up in the log by index.

  /** Log entry `i` exists and is an attack move. */
  predicate IsMoveAttackAt(log: seq<Record>, i: int)
  {
    0 <= i < |log| && log[i].MoveAttack?
  }

  /** Log entry `i` is a combat record whose `moveAttackId` holds an attack move. */
  predicate IsRecordAttackAt(log: seq<Record>, i: int)
  {
    0 <= i < |log| && log[i].RecordAttack? && IsMoveAttackAt(log, log[i].moveAttackId)
  }

  /** The attack move that caused the combat record at index `i`, two steps back. */
  function OriginatingAttack(log: seq<Record>, i: int): (m: Record)
    requires IsRecordAttackAt(log, i)
    ensures m.MoveAttack? && m in log
  {
    log[log[i].moveAttackId]
  }

  /** Appending to the log never changes what an earlier index resolves to. */
  lemma ResolutionStable(log: seq<Record>, more: seq<Record>, i: int)
    requires IsRecordAttackAt(log, i)
    ensures IsRecordAttackAt(log + more, i)
    ensures OriginatingAttack(log + more, i) == OriginatingAttack(log, i)
  {
  }

  // ---------------------------------------------------------------------------
  // Which events the reducer can apply to a state without a lookup failing.

  /** Both territories of a real attack exist. */
  predicate AttackKnown(territories: map<TerritoryId, Territory>, move: AttackChoice)
  {
    move.Attack? ==> move.attacking in territories && move.defending in territories
  }

  /**
   * The lookups the handler for `rec` performs all succeed when `rec` is committed
   * to `g`: every player, territory and card it names exists, and every log index
   * it follows holds the variant the handler casts it to.
   */
  predicate Admissible(g: Game, rec: Record)
  {
    var log := g.recording + [rec];
    match rec
    case MoveClaimTerritory(p, t) => p in g.players && t in g.territories
    case MoveDistributeTroops(p, d) => p in g.players && d.Keys <= g.territories.Keys
    case MoveFortify(_, s, t, _) => s in g.territories && t in g.territories
    case MovePlaceInitialTroop(p, t) => p in g.players && t in g.territories
    case MoveRedeemCards(p, sets) => p in g.players && CardsKnown(g.cards, Flatten(sets))
    case MoveTroopsAfterAttack(_, i, _) =>
      IsRecordAttackAt(log, i) && AttackKnown(g.territories, OriginatingAttack(log, i).move)
    case RecordAttack(m, _, _) =>
      IsMoveAttackAt(log, m) && AttackKnown(g.territories, log[m].move)
    case RecordDrewCard(p, _) => p in g.players
    case RecordPlayerEliminated(p, i, _) =>
      p in g.players && IsRecordAttackAt(log, i) && OriginatingAttack(log, i).moveBy in g.players
    case RecordStartTurn(p, _, _) => p in g.players
    case RecordTerritoryConquered(i) =>
      IsRecordAttackAt(log, i) &&
      (OriginatingAttack(log, i).move.Attack? ==> OriginatingAttack(log, i).move.defending in g.territories)
    case _ => true
  }

  // ---------------------------------------------------------------------------
  // The handlers. Each takes the state after the event has been appended to the log.

  /** Territory `t` with `n` more troops. */
  function AddTroops(territories: map<TerritoryId, Territory>, t: TerritoryId, n: int): (r: map<TerritoryId, Territory>)
    requires t in territories
    ensures r.Keys == territories.Keys
  {
    territories[t := territories[t].(troops := territories[t].troops + n)]
  }

  /** `n` troops taken from `source`, then given to `target`. */
  function MoveTroops(territories: map<TerritoryId, Territory>, source: TerritoryId, target: TerritoryId, n: int): (r: map<TerritoryId, Territory>)
    requires source in territories && target in territories
    ensures r.Keys == territories.Keys
  {
    AddTroops(AddTroops(territories, source, -n), target, n)
  }

  function ClaimTerritory(g: Game, p: PlayerId, t: TerritoryId): Game
    requires p in g.players && t in g.territories
  {
    var player := g.players[p];
    g.(territories := g.territories[t := g.territories[t].(occupier := Some(p), troops := 1)],
       players := g.players[p := player.(troopsRemaining := player.troopsRemaining - 1)])
  }

  /** Every territory named in `distributions` with its share added. */
  function Distributed(territories: map<TerritoryId, Territory>, distributions: map<TerritoryId, int>): map<TerritoryId, Territory>
  {
    map t | t in territories ::
      if t in distributions then territories[t].(troops := territories[t].troops + distributions[t])
      else territories[t]
  }

  function DistributeTroops(g: Game, p: PlayerId, distributions: map<TerritoryId, int>): Game
    requires p in g.players
  {
    g.(players := g.players[p := g.players[p].(troopsRemaining := 0, mustPlace := {})],
       territories := Distributed(g.territories, distributions))
  }

  function Fortify(g: Game, source: TerritoryId, target: TerritoryId, n: int): Game
    requires source in g.territories && target in g.territories
  {
    g.(territories := MoveTroops(g.territories, source, target, n))
  }

  function PlaceInitialTroop(g: Game, p: PlayerId, t: TerritoryId): Game
    requires p in g.players && t in g.territories
  {
    var player := g.players[p];
    g.(territories := AddTroops(g.territories, t, 1),
       players := g.players[p := player.(troopsRemaining := player.troopsRemaining - 1)])
  }

  /**
   * Redemption of `sets` by `p`, including the derived RecordRedeemedCards it commits,
   * whose `redeemCardsMove` is the last index of the log as it stands.
   */
  function RedeemCards(g: Game, p: PlayerId, sets: seq<seq<CardId>>): Game
    requires p in g.players && CardsKnown(g.cards, Flatten(sets))
  {
    var totalSetBonus := TotalSetBonus(g.cardSetsRedeemed, |sets|);
    var all := Flatten(sets);
    var matching := MatchingTerritories(g.cards, all, g.territories, p);
    var matchingBonus := MatchingTerritoryBonus(matching);
    var player := g.players[p];
    g.(cardSetsRedeemed := g.cardSetsRedeemed + |sets|,
       players := g.players[p := player.(
         troopsRemaining := player.troopsRemaining + totalSetBonus + matchingBonus,
         mustPlace := matching,
         cards := WithoutCards(player.cards, Elements(all)))],
       discardedDeck := g.discardedDeck + all,
       recording := g.recording + [RecordRedeemedCards(|g.recording| - 1, totalSetBonus, matchingBonus)])
  }

  function TroopsAfterAttack(g: Game, recordAttackId: int, n: int): Step
    requires IsRecordAttackAt(g.recording, recordAttackId)
    requires AttackKnown(g.territories, OriginatingAttack(g.recording, recordAttackId).move)
  {
    var move := OriginatingAttack(g.recording, recordAttackId).move;
    if move.Pass? then Step(Raised(TroopsAfterPass), g)
    else Step(Done, g.(territories := MoveTroops(g.territories, move.attacking, move.defending, n)))
  }

  function CombatLosses(g: Game, moveAttackId: int, attackingLost: int, defendingLost: int): Step
    requires IsMoveAttackAt(g.recording, moveAttackId)
    requires AttackKnown(g.territories, g.recording[moveAttackId].move)
  {
    var move := g.recording[moveAttackId].move;
    if move.Pass? then Step(Raised(RecordAttackAfterPass), g)
    else
      var lost := AddTroops(g.territories, move.attacking, -attackingLost);
      Step(Done, g.(territories := AddTroops(lost, move.defending, -defendingLost)))
  }

  function DrewCard(g: Game, p: PlayerId, card: CardId): Game
    requires p in g.players
  {
    g.(players := g.players[p := g.players[p].(cards := g.players[p].cards + [card])])
  }

  function PlayerEliminated(g: Game, p: PlayerId, recordAttackId: int, surrendered: seq<CardId>): Game
    requires p in g.players && IsRecordAttackAt(g.recording, recordAttackId)
    requires OriginatingAttack(g.recording, recordAttackId).moveBy in g.players
  {
    var players := g.players[p := g.players[p].(alive := false)];
    var victor := OriginatingAttack(g.recording, recordAttackId).moveBy;
    g.(players := players[victor := players[victor].(cards := players[victor].cards + surrendered)])
  }

  /** `shuffled` is the order the random source gave the discard pile. */
  function ShuffledCards(g: Game, shuffled: seq<CardId>): Step
  {
    if |g.deck| != 0 then Step(Raised(ShuffledNonEmptyDeck), g)
    else Step(Done, g.(deck := shuffled, discardedDeck := []))
  }

  function StartTurn(g: Game, p: PlayerId, territoryBonus: int, continentBonus: int): Game
    requires p in g.players
  {
    var player := g.players[p];
    g.(players := g.players[p := player.(troopsRemaining := player.troopsRemaining + territoryBonus + continentBonus)])
  }

  function TerritoryConquered(g: Game, recordAttackId: int): Step
    requires IsRecordAttackAt(g.recording, recordAttackId)
    requires var m := OriginatingAttack(g.recording, recordAttackId);
      m.move.Attack? ==> m.move.defending in g.territories
  {
    var m := OriginatingAttack(g.recording, recordAttackId);
    if m.move.Pass? then Step(Raised(ConqueredAfterPass), g)
    else
      var d := m.move.defending;
      Step(Done, g.(territories := g.territories[d := g.territories[d].(troops := 0, occupier := Some(m.moveBy))]))
  }

  /**
   * Committing `rec` to `g`: append it to the log, then run its handler. `shuffled`
   * is used only by RecordShuffledCards, as the new order of the deck.
   */
  function Apply(g: Game, rec: Record, shuffled: seq<CardId>): Step
    requires Admissible(g, rec)
  {
    var h := g.(recording := g.recording + [rec]);
    match rec
    case MoveAttack(_, _) => Step(Done, h)
    case MoveClaimTerritory(p, t) => Step(Done, ClaimTerritory(h, p, t))
    case MoveDefend(_) => Step(Done, h)
    case MoveDistributeTroops(p, d) => Step(Done, DistributeTroops(h, p, d))
    case MoveFortify(_, s, t, n) => Step(Done, Fortify(h, s, t, n))
    case MovePlaceInitialTroop(p, t) => Step(Done, PlaceInitialTroop(h, p, t))
    case MoveRedeemCards(p, sets) => Step(Done, RedeemCards(h, p, sets))
    case MoveTroopsAfterAttack(_, i, n) => TroopsAfterAttack(h, i, n)
    case RecordAttack(m, a, d) => CombatLosses(h, m, a, d)
    case RecordBanned => Step(Done, h)
    case RecordDrewCard(p, c) => Step(Done, DrewCard(h, p, c))
    case RecordPlayerEliminated(p, i, cs) => Step(Done, PlayerEliminated(h, p, i, cs))
    case RecordRedeemedCards(_, _, _) => Step(Done, h)
    case RecordShuffledCards => ShuffledCards(h, shuffled)
    case RecordStartGame(order) => Step(Done, h.(turnOrder := order))
    case RecordStartTurn(p, tb, cb) => Step(Done, StartTurn(h, p, tb, cb))
    case RecordTerritoryConquered(i) => TerritoryConquered(h, i)
    case RecordWinner => Step(Done, h)
    case RecordCancelled => Step(Done, h)
  }

  /**
   * `after` and `outcome` are a possible result of committing `rec` to `before`: the
   * state Apply gives, where a shuffle puts some permutation of the discard pile in
   * the deck.
   */
  predicate Commits(before: Game, rec: Record, after: Game, outcome: Outcome)
    requires Admissible(before, rec)
  {
    (rec.RecordShuffledCards? && |before.deck| == 0 ==> multiset(after.deck) == multiset(before.discardedDeck)) &&
    Apply(before, rec, after.deck) == Step(outcome, after)
  }

  // ---------------------------------------------------------------------------
  // What one commit promises.

  /**
   * The event is appended at index |recording| before anything else; a redemption adds
   * one derived record after it, every other event nothing.
   */
  lemma CommitAppends(g: Game, rec: Record, shuffled: seq<CardId>)
    requires Admissible(g, rec)
    ensures var log := Apply(g, rec, shuffled).game.recording;
      g.recording + [rec] <= log &&
      |log| == |g.recording| + (if rec.MoveRedeemCards? then 2 else 1)
  {
  }

  /**
   * Redeeming at log index i appends the move at i and a RecordRedeemedCards at i + 1
   * whose `redeemCardsMove` is i, carrying the bonuses the player was credited.
   */
  lemma RedeemRecordsItself(g: Game, p: PlayerId, sets: seq<seq<CardId>>, shuffled: seq<CardId>)
    requires Admissible(g, MoveRedeemCards(p, sets))
    ensures var i := |g.recording|;
      var matching := MatchingTerritories(g.cards, Flatten(sets), g.territories, p);
      Apply(g, MoveRedeemCards(p, sets), shuffled).game.recording ==
        g.recording + [MoveRedeemCards(p, sets),
                       RecordRedeemedCards(i, TotalSetBonus(g.cardSetsRedeemed, |sets|), MatchingTerritoryBonus(matching))]
  {
    var h := g.(recording := g.recording + [MoveRedeemCards(p, sets)]);
    assert Apply(g, MoveRedeemCards(p, sets), shuffled) == Step(Done, RedeemCards(h, p, sets));
  }

  /**
   * Redemption credits the set bonuses and the matching-territory bonus, advances the
   * counter by the number of sets, replaces the obligation by the matching territories,
   * takes every redeemed card out of the hand and puts the cards on the discard pile
   * in submission order. Nothing else but the log changes.
   */
  lemma RedeemEffect(g: Game, p: PlayerId, sets: seq<seq<CardId>>, shuffled: seq<CardId>)
    requires Admissible(g, MoveRedeemCards(p, sets))
    ensures var step := Apply(g, MoveRedeemCards(p, sets), shuffled);
      step.outcome == Done && RedeemCardsEffect(g, p, sets, step.game)
  {
    var h := g.(recording := g.recording + [MoveRedeemCards(p, sets)]);
    var g' := RedeemCards(h, p, sets);
    assert Apply(g, MoveRedeemCards(p, sets), shuffled) == Step(Done, g');
    assert g'.players == g.players[p := g'.players[p]];
  }

  /** What redemption of `sets` by `p` does to `g`, apart from the log. */
  predicate RedeemCardsEffect(g: Game, p: PlayerId, sets: seq<seq<CardId>>, g': Game)
    requires p in g.players && CardsKnown(g.cards, Flatten(sets))
  {
    var all := Flatten(sets);
    var matching := MatchingTerritories(g.cards, all, g.territories, p);
    g'.cardSetsRedeemed == g.cardSetsRedeemed + |sets| &&
    p in g'.players &&
    g'.players[p].troopsRemaining ==
      g.players[p].troopsRemaining + TotalSetBonus(g.cardSetsRedeemed, |sets|) + MatchingTerritoryBonus(matching) &&
    g'.players[p].mustPlace == matching &&
    g'.players[p].alive == g.players[p].alive &&
    g'.players[p].cards == WithoutCards(g.players[p].cards, Elements(all)) &&
    g'.discardedDeck == g.discardedDeck + all &&
    g'.players == g.players[p := g'.players[p]] &&
    g'.territories == g.territories && g'.deck == g.deck && g'.cards == g.cards &&
    g'.turnOrder == g.turnOrder
  }

  /**
   * After redemption a card is in the redeemer's hand exactly when it was there before
   * and belongs to none of the redeemed sets.
   */
  lemma RedeemedCardsLeaveHand(g: Game, p: PlayerId, sets: seq<seq<CardId>>, shuffled: seq<CardId>, c: CardId)
    requires Admissible(g, MoveRedeemCards(p, sets))
    ensures var g' := Apply(g, MoveRedeemCards(p, sets), shuffled).game;
      p in g'.players &&
      (c in g'.players[p].cards <==>
        c in g.players[p].cards && !(exists i :: 0 <= i < |sets| && c in sets[i]))
  {
    RedeemEffect(g, p, sets, shuffled);
    FlattenContains(sets, c);
    assert c in Elements(Flatten(sets)) <==> c in Flatten(sets);
  }

  /** Attack, defend, banned, redeemed-cards, winner and cancelled change nothing but the log. */
  lemma NoOpsOnlyLog(g: Game, rec: Record, shuffled: seq<CardId>)
    requires rec.MoveAttack? || rec.MoveDefend? || rec.RecordBanned? ||
             rec.RecordRedeemedCards? || rec.RecordWinner? || rec.RecordCancelled?
    ensures Admissible(g, rec)
    ensures Apply(g, rec, shuffled) == Step(Done, g.(recording := g.recording + [rec]))
  {
  }

  /**
   * A commit raises exactly when it follows an attack that was a pass (troops after
   * attack, combat losses, conquest) or shuffles while the deck still holds cards. When
   * it raises, the event has been appended and nothing else has changed.
   */
  lemma RaisesExactly(g: Game, rec: Record, shuffled: seq<CardId>)
    requires Admissible(g, rec)
    ensures var log := g.recording + [rec];
      var step := Apply(g, rec, shuffled);
      (step.outcome.Raised? <==>
        (rec.MoveTroopsAfterAttack? && OriginatingAttack(log, rec.recordAttackId).move.Pass?) ||
        (rec.RecordAttack? && log[rec.moveAttackId].move.Pass?) ||
        (rec.RecordTerritoryConquered? && OriginatingAttack(log, rec.recordAttackId).move.Pass?) ||
        (rec.RecordShuffledCards? && |g.deck| != 0)) &&
      (step.outcome.Raised? ==> step.game == g.(recording := log))
  {
  }

  /**
   * Fortifying keeps the combined troops of source and target and touches no other
   * territory, no occupier and no player.
   */
  lemma FortifyConserves(g: Game, p: PlayerId, s: TerritoryId, t: TerritoryId, n: int, shuffled: seq<CardId>)
    requires Admissible(g, MoveFortify(p, s, t, n))
    ensures var g' := Apply(g, MoveFortify(p, s, t, n), shuffled).game;
      g'.territories.Keys == g.territories.Keys &&
      g'.territories[s].troops + g'.territories[t].troops == g.territories[s].troops + g.territories[t].troops &&
      (s != t ==> g'.territories[s].troops == g.territories[s].troops - n) &&
      (forall u :: u in g.territories ==> g'.territories[u].occupier == g.territories[u].occupier) &&
      (forall u :: u in g.territories && u != s && u != t ==> g'.territories[u] == g.territories[u]) &&
      g'.players == g.players
  {
  }

  /**
   * Moving troops in after a won attack keeps the combined troops of the attacking and
   * defending territories and touches no other territory.
   */
  lemma TroopsAfterAttackConserves(g: Game, p: PlayerId, i: int, n: int, shuffled: seq<CardId>)
    requires Admissible(g, MoveTroopsAfterAttack(p, i, n))
    requires OriginatingAttack(g.recording + [MoveTroopsAfterAttack(p, i, n)], i).move.Attack?
    ensures var move := OriginatingAttack(g.recording + [MoveTroopsAfterAttack(p, i, n)], i).move;
      var a, d := move.attacking, move.defending;
      var step := Apply(g, MoveTroopsAfterAttack(p, i, n), shuffled);
      var g' := step.game;
      step.outcome == Done &&
      g'.territories.Keys == g.territories.Keys &&
      g'.territories[a].troops + g'.territories[d].troops == g.territories[a].troops + g.territories[d].troops &&
      (a != d ==> g'.territories[d].troops == g.territories[d].troops + n) &&
      (forall u :: u in g.territories ==> g'.territories[u].occupier == g.territories[u].occupier) &&
      (forall u :: u in g.territories && u != a && u != d ==> g'.territories[u] == g.territories[u])
  {
  }

  /** Placing an initial troop moves one troop from the player's pool onto the territory. */
  lemma PlaceInitialTroopConserves(g: Game, p: PlayerId, t: TerritoryId, shuffled: seq<CardId>)
    requires Admissible(g, MovePlaceInitialTroop(p, t))
    ensures var g' := Apply(g, MovePlaceInitialTroop(p, t), shuffled).game;
      t in g'.territories && p in g'.players &&
      g'.territories[t].troops + g'.players[p].troopsRemaining ==
        g.territories[t].troops + g.players[p].troopsRemaining &&
      g'.territories[t].troops == g.territories[t].troops + 1 &&
      g'.territories[t].occupier == g.territories[t].occupier
  {
  }

  /**
   * Claiming a territory makes the player its occupier with exactly one troop, taken
   * from the pool; claiming an empty territory therefore conserves troops.
   */
  lemma ClaimTerritoryEffect(g: Game, p: PlayerId, t: TerritoryId, shuffled: seq<CardId>)
    requires Admissible(g, MoveClaimTerritory(p, t))
    ensures var g' := Apply(g, MoveClaimTerritory(p, t), shuffled).game;
      t in g'.territories && p in g'.players &&
      g'.territories[t] == Territory(Some(p), 1) &&
      g'.players[p].troopsRemaining == g.players[p].troopsRemaining - 1 &&
      (g.territories[t].troops == 0 ==>
        g'.territories[t].troops + g'.players[p].troopsRemaining ==
          g.territories[t].troops + g.players[p].troopsRemaining)
  {
  }

  /**
   * Distributing empties the pool, clears the obligation and adds each named share to
   * its territory; territories not named keep their troops.
   */
  lemma DistributeTroopsEffect(g: Game, p: PlayerId, d: map<TerritoryId, int>, shuffled: seq<CardId>)
    requires Admissible(g, MoveDistributeTroops(p, d))
    ensures var g' := Apply(g, MoveDistributeTroops(p, d), shuffled).game;
      p in g'.players &&
      g'.players[p].troopsRemaining == 0 && g'.players[p].mustPlace == {} &&
      g'.territories.Keys == g.territories.Keys &&
      (forall t :: t in d ==> g'.territories[t].troops == g.territories[t].troops + d[t]) &&
      (forall t :: t in g.territories && t !in d ==> g'.territories[t] == g.territories[t]) &&
      (forall t :: t in g.territories ==> g'.territories[t].occupier == g.territories[t].occupier)
  {
  }

  /**
   * Combat losses come off the attacking and the defending territory of the attack the
   * record resolves (both off the same territory when the two coincide); no other
   * territory, no occupier and no player changes.
   */
  lemma CombatLossesEffect(g: Game, m: int, a: int, d: int, shuffled: seq<CardId>)
    requires Admissible(g, RecordAttack(m, a, d))
    requires g.recording[m].move.Attack?
    ensures var move := g.recording[m].move;
      var step := Apply(g, RecordAttack(m, a, d), shuffled);
      var g' := step.game;
      step.outcome == Done &&
      g'.territories.Keys == g.territories.Keys &&
      (forall u :: u in g.territories ==>
        g'.territories[u].troops == g.territories[u].troops
          - (if u == move.attacking then a else 0) - (if u == move.defending then d else 0)) &&
      (forall u :: u in g.territories ==> g'.territories[u].occupier == g.territories[u].occupier) &&
      g'.players == g.players
  {
  }

  /**
   * A conquest zeroes the defending territory and hands it to the attacking player;
   * every other territory is unchanged.
   */
  lemma ConquestEffect(g: Game, i: int, shuffled: seq<CardId>)
    requires Admissible(g, RecordTerritoryConquered(i))
    requires OriginatingAttack(g.recording + [RecordTerritoryConquered(i)], i).move.Attack?
    ensures var m := OriginatingAttack(g.recording + [RecordTerritoryConquered(i)], i);
      var step := Apply(g, RecordTerritoryConquered(i), shuffled);
      step.outcome == Done &&
      m.move.defending in step.game.territories &&
      step.game.territories[m.move.defending] == Territory(Some(m.moveBy), 0) &&
      (forall u :: u in g.territories && u != m.move.defending ==> u in step.game.territories && step.game.territories[u] == g.territories[u])
  {
  }

  /**
   * Elimination marks the player dead and appends the surrendered cards to the hand of
   * the player whose attack caused it.
   */
  lemma PlayerEliminatedEffect(g: Game, p: PlayerId, i: int, surrendered: seq<CardId>, shuffled: seq<CardId>)
    requires Admissible(g, RecordPlayerEliminated(p, i, surrendered))
    ensures var victor := OriginatingAttack(g.recording + [RecordPlayerEliminated(p, i, surrendered)], i).moveBy;
      var g' := Apply(g, RecordPlayerEliminated(p, i, surrendered), shuffled).game;
      p in g'.players && victor in g'.players &&
      !g'.players[p].alive &&
      g'.players[victor].cards == g.players[victor].cards + surrendered
  {
  }

  /**
   * Shuffling fails exactly when the deck is not empty; otherwise the deck becomes a
   * permutation of the old discard pile and the discard pile empties.
   */
  lemma ShuffleEffect(g: Game, g': Game, outcome: Outcome)
    requires Commits(g, RecordShuffledCards, g', outcome)
    ensures outcome == Raised(ShuffledNonEmptyDeck) <==> |g.deck| != 0
    ensures outcome == Done <==> |g.deck| == 0
    ensures outcome == Done ==>
      multiset(g'.deck) == multiset(g.discardedDeck) && g'.discardedDeck == [] &&
      g'.territories == g.territories && g'.players == g.players
  {
  }

  /**
   * The conquest must precede the troops moved in: committed in this order the defending
   * territory ends up holding exactly the troops moved in.
   */
  lemma ConquestThenMoveIn(g: Game, p: PlayerId, i: int, n: int, sh1: seq<CardId>, sh2: seq<CardId>)
    requires IsRecordAttackAt(g.recording, i)
    requires OriginatingAttack(g.recording, i).move.Attack?
    requires AttackKnown(g.territories, OriginatingAttack(g.recording, i).move)
    requires OriginatingAttack(g.recording, i).move.attacking != OriginatingAttack(g.recording, i).move.defending
    ensures Admissible(g, RecordTerritoryConquered(i))
    ensures var g1 := Apply(g, RecordTerritoryConquered(i), sh1).game;
      Admissible(g1, MoveTroopsAfterAttack(p, i, n)) &&
      var g2 := Apply(g1, MoveTroopsAfterAttack(p, i, n), sh2).game;
      var m := OriginatingAttack(g.recording, i);
      g2.territories[m.move.defending] == Territory(Some(m.moveBy), n) &&
      g2.territories[m.move.attacking].troops == g.territories[m.move.attacking].troops - n
  {
    var rec := RecordTerritoryConquered(i);
    ResolutionStable(g.recording, [rec], i);
    var g1 := Apply(g, rec, sh1).game;
    ResolutionStable(g1.recording, [MoveTroopsAfterAttack(p, i, n)], i);
    ResolutionStable(g.recording, [rec, MoveTroopsAfterAttack(p, i, n)], i);
    assert g1.recording + [MoveTroopsAfterAttack(p, i, n)] == g.recording + [rec, MoveTroopsAfterAttack(p, i, n)];
  }

  /**
   * Committed the other way round, the conquest wipes out the troops just moved in: the
   * defending territory ends up with none, while the attacker has still lost them.
   */
  lemma MoveInThenConquest(g: Game, p: PlayerId, i: int, n: int, sh1: seq<CardId>, sh2: seq<CardId>)
    requires IsRecordAttackAt(g.recording, i)
    requires OriginatingAttack(g.recording, i).move.Attack?
    requires AttackKnown(g.territories, OriginatingAttack(g.recording, i).move)
    requires OriginatingAttack(g.recording, i).move.attacking != OriginatingAttack(g.recording, i).move.defending
    ensures Admissible(g, MoveTroopsAfterAttack(p, i, n))
    ensures var g1 := Apply(g, MoveTroopsAfterAttack(p, i, n), sh1).game;
      Admissible(g1, RecordTerritoryConquered(i)) &&
      var g2 := Apply(g1, RecordTerritoryConquered(i), sh2).game;
      var m := OriginatingAttack(g.recording, i);
      g2.territories[m.move.defending] == Territory(Some(m.moveBy), 0) &&
      g2.territories[m.move.attacking].troops == g.territories[m.move.attacking].troops - n
  {
    var rec := MoveTroopsAfterAttack(p, i, n);
    ResolutionStable(g.recording, [rec], i);
    var g1 := Apply(g, rec, sh1).game;
    ResolutionStable(g1.recording, [RecordTerritoryConquered(i)], i);
    ResolutionStable(g.recording, [rec, RecordTerritoryConquered(i)], i);
    assert g1.recording + [RecordTerritoryConquered(i)] == g.recording + [rec, RecordTerritoryConquered(i)];
  }

  // ---------------------------------------------------------------------------
  // Invariants of the log that every commit keeps.

  /** Every RecordRedeemedCards in the log directly follows the redemption it names. */
  predicate RedemptionsLinked(log: seq<Record>)
  {
    forall j :: 0 <= j < |log| && log[j].RecordRedeemedCards? ==>
      0 < j && log[j].redeemCardsMove == j - 1 && log[j - 1].MoveRedeemCards?
  }

  /**
   * As long as callers never commit a RecordRedeemedCards themselves, every such record
   * in the log points at the redemption move just before it.
   */
  lemma CommitKeepsRedemptionsLinked(g: Game, rec: Record, shuffled: seq<CardId>)
    requires Admissible(g, rec) && RedemptionsLinked(g.recording) && !rec.RecordRedeemedCards?
    ensures RedemptionsLinked(Apply(g, rec, shuffled).game.recording)
  {
    var log := Apply(g, rec, shuffled).game.recording;
    CommitAppends(g, rec, shuffled);
    if rec.MoveRedeemCards? {
      RedeemRecordsItself(g, rec.moveBy, rec.sets, shuffled);
    }
    forall j | 0 <= j < |log| && log[j].RecordRedeemedCards?
      ensures 0 < j && log[j].redeemCardsMove == j - 1 && log[j - 1].MoveRedeemCards?
    {
      if j < |g.recording| {
        assert log[j] == g.recording[j] && log[j - 1] == g.recording[j - 1];
      }
    }
  }

  /** The number of sets redeemed by the redemption moves of `log`. */
  function SetsRedeemedIn(log: seq<Record>): nat
    decreases |log|
  {
    if log == [] then 0
    else
      var last := log[|log| - 1];
      SetsRedeemedIn(log[..|log| - 1]) + (if last.MoveRedeemCards? then |last.sets| else 0)
  }

  /**
   * The redemption counter advances by exactly the sets the log gains: the difference
   * between the counter and the sets redeemed in the log never changes.
   */
  lemma CounterTracksLog(g: Game, rec: Record, shuffled: seq<CardId>)
    requires Admissible(g, rec)
    ensures var g' := Apply(g, rec, shuffled).game;
      g'.cardSetsRedeemed - SetsRedeemedIn(g'.recording) == g.cardSetsRedeemed - SetsRedeemedIn(g.recording)
  {
    var log1 := g.recording + [rec];
    assert log1[..|log1| - 1] == g.recording;
    if rec.MoveRedeemCards? {
      RedeemEffect(g, rec.moveBy, rec.sets, shuffled);
      RedeemRecordsItself(g, rec.moveBy, rec.sets, shuffled);
      var log2 := Apply(g, rec, shuffled).game.recording;
      assert log2[..|log2| - 1] == log1;
    } else {
      CommitAppends(g, rec, shuffled);
      assert Apply(g, rec, shuffled).game.cardSetsRedeemed == g.cardSetsRedeemed;
    }
  }
}
