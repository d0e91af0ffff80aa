/**
 * The pure arithmetic and set computations of card redemption: the escalating set
 * bonus, the cards a redemption hands in, what is left of the hand, and the
 * territories whose cards earn the matching-territory bonus.
 */
module Redemption {
  import opened RiskTypes

  /** Bonuses for the first six sets redeemed in a game. */
  const FixedSetBonuses: seq<nat> := [4, 6, 8, 10, 12, 15]

  /** The troops awarded for a set when `x` sets have been redeemed before it. */
  function SetBonus(x: nat): (r: nat)
    ensures 4 <= r
  {
    if x < |FixedSetBonuses| then FixedSetBonuses[x]
    else 15 + (x - |FixedSetBonuses| + 1) * 5
  }

  /** The schedule for the first eight redemptions of a game. */
  lemma SetBonusSchedule()
    ensures SetBonus(0) == 4 && SetBonus(1) == 6 && SetBonus(2) == 8 && SetBonus(3) == 10
    ensures SetBonus(4) == 12 && SetBonus(5) == 15 && SetBonus(6) == 20 && SetBonus(7) == 25
  {
  }

  /** From the sixth set on, every further set is worth five troops more. */
  lemma SetBonusTail(x: nat)
    requires 5 <= x
    ensures SetBonus(x) == 15 + 5 * (x - 5)
    ensures SetBonus(x + 1) == SetBonus(x) + 5
  {
  }

  /** Each redemption is worth strictly more than the one before it. */
  lemma SetBonusStep(x: nat)
    ensures SetBonus(x) < SetBonus(x + 1)
  {
    if x >= 5 {
      SetBonusTail(x);
    }
  }

  /** The schedule is strictly increasing. */
  lemma {:induction false} SetBonusStrictlyIncreasing(x: nat, y: nat)
    requires x < y
    ensures SetBonus(x) < SetBonus(y)
    decreases y - x
  {
    SetBonusStep(y - 1);
    if x < y - 1 {
      SetBonusStrictlyIncreasing(x, y - 1);
    }
  }

  /**
   * The bonus for redeeming `k` sets one after another when `counter` sets have
   * been redeemed before: the sum of SetBonus(counter + i) for i < k.
   */
  function TotalSetBonus(counter: nat, k: nat): (r: nat)
    ensures 4 * k <= r
    decreases k
  {
    if k == 0 then 0 else TotalSetBonus(counter, k - 1) + SetBonus(counter + k - 1)
  }

  /**
   * Redeeming j sets and then k more yields the same total bonus as redeeming all
   * j + k sets at once.
   */
  lemma {:induction false} TotalSetBonusSplit(counter: nat, j: nat, k: nat)
    ensures TotalSetBonus(counter, j + k) == TotalSetBonus(counter, j) + TotalSetBonus(counter + j, k)
    decreases k
  {
    if k > 0 {
      TotalSetBonusSplit(counter, j, k - 1);
    }
  }

  /** The same number of sets is worth strictly more the later it is redeemed. */
  lemma {:induction false} TotalSetBonusGrowsWithCounter(c: nat, d: nat, k: nat)
    requires c < d && 0 < k
    ensures TotalSetBonus(c, k) < TotalSetBonus(d, k)
    decreases k
  {
    SetBonusStrictlyIncreasing(c + k - 1, d + k - 1);
    if k > 1 {
      TotalSetBonusGrowsWithCounter(c, d, k - 1);
    }
  }

  /** All cards of the redeemed sets, in submission order. */
  function Flatten(sets: seq<seq<CardId>>): seq<CardId>
    decreases |sets|
  {
    if sets == [] then [] else Flatten(sets[..|sets| - 1]) + sets[|sets| - 1]
  }

  /** A card is handed in exactly when it belongs to one of the redeemed sets. */
  lemma {:induction false} FlattenContains(sets: seq<seq<CardId>>, c: CardId)
    ensures c in Flatten(sets) <==> exists i :: 0 <= i < |sets| && c in sets[i]
    decreases |sets|
  {
    if sets != [] {
      var init := sets[..|sets| - 1];
      FlattenContains(init, c);
      if c in Flatten(sets) && c !in sets[|sets| - 1] {
        var i :| 0 <= i < |init| && c in init[i];
        assert c in sets[i];
      }
      if exists i :: 0 <= i < |sets| && c in sets[i] {
        var i :| 0 <= i < |sets| && c in sets[i];
        if i < |sets| - 1 {
          assert c in init[i];
        }
      }
    }
  }

  /** Handing in two batches of sets hands in the concatenation of their cards. */
  lemma {:induction false} FlattenAppend(a: seq<seq<CardId>>, b: seq<seq<CardId>>)
    ensures Flatten(a + b) == Flatten(a) + Flatten(b)
    decreases |b|
  {
    if b == [] {
      assert a + b == a;
    } else {
      var init := b[..|b| - 1];
      FlattenAppend(a, init);
      assert (a + b)[..|a + b| - 1] == a + init;
    }
  }

  /** The distinct elements of a sequence. */
  function Elements(s: seq<CardId>): set<CardId>
  {
    set c | c in s
  }

  /**
   * The hand left after redemption: the cards of `hand` that are not in `redeemed`,
   * in their original order.
   */
  function WithoutCards(hand: seq<CardId>, redeemed: set<CardId>): (r: seq<CardId>)
    ensures forall c :: c in r <==> c in hand && c !in redeemed
    ensures |r| <= |hand|
    decreases |hand|
  {
    if hand == [] then []
    else (if hand[0] in redeemed then [] else [hand[0]]) + WithoutCards(hand[1..], redeemed)
  }

  /** Filtering the hand preserves order: it distributes over concatenation. */
  lemma {:induction false} WithoutCardsAppend(a: seq<CardId>, b: seq<CardId>, redeemed: set<CardId>)
    ensures WithoutCards(a + b, redeemed) == WithoutCards(a, redeemed) + WithoutCards(b, redeemed)
    decreases |a|
  {
    if a == [] {
      assert a + b == b;
    } else {
      assert (a + b)[0] == a[0];
      assert (a + b)[1..] == a[1..] + b;
      WithoutCardsAppend(a[1..], b, redeemed);
    }
  }

  /** A hand holding none of the redeemed cards is left exactly as it was. */
  lemma {:induction false} WithoutCardsUntouched(hand: seq<CardId>, redeemed: set<CardId>)
    requires forall i :: 0 <= i < |hand| ==> hand[i] !in redeemed
    ensures WithoutCards(hand, redeemed) == hand
    decreases |hand|
  {
    if hand != [] {
      WithoutCardsUntouched(hand[1..], redeemed);
      assert [hand[0]] + hand[1..] == hand;
    }
  }

  /** Every card of `all` is a card of the game. */
  predicate CardsKnown(cards: map<CardId, Option<TerritoryId>>, all: seq<CardId>)
  {
    forall i :: 0 <= i < |all| ==> all[i] in cards
  }

  /** The territories named by the cards `all` (cards without a territory are skipped). */
  function CardTerritories(cards: map<CardId, Option<TerritoryId>>, all: seq<CardId>): (r: set<TerritoryId>)
    requires CardsKnown(cards, all)
    ensures |r| <= |all|
    decreases |all|
  {
    if all == [] then {}
    else
      var here: set<TerritoryId> := match cards[all[0]] case None => {} case Some(t) => {t};
      here + CardTerritories(cards, all[1..])
  }

  /** A territory is named exactly when some card of `all` carries it. */
  lemma {:induction false} CardTerritoriesContains(cards: map<CardId, Option<TerritoryId>>, all: seq<CardId>, t: TerritoryId)
    requires CardsKnown(cards, all)
    ensures t in CardTerritories(cards, all) <==> exists i :: 0 <= i < |all| && cards[all[i]] == Some(t)
    decreases |all|
  {
    if all != [] {
      CardTerritoriesContains(cards, all[1..], t);
      if t in CardTerritories(cards, all) && cards[all[0]] != Some(t) {
        var i :| 0 <= i < |all[1..]| && cards[all[1..][i]] == Some(t);
        assert cards[all[i + 1]] == Some(t);
      }
      if exists i :: 0 <= i < |all| && cards[all[i]] == Some(t) {
        var i :| 0 <= i < |all| && cards[all[i]] == Some(t);
        if i > 0 {
          assert cards[all[1..][i - 1]] == Some(t);
        }
      }
    }
  }

  /** The territories occupied by player `p`. */
  function OccupiedBy(territories: map<TerritoryId, Territory>, p: PlayerId): set<TerritoryId>
  {
    set t | t in territories && territories[t].occupier == Some(p)
  }

  /** The territories named by the redeemed cards that player `p` occupies. */
  function MatchingTerritories(
    cards: map<CardId, Option<TerritoryId>>, all: seq<CardId>,
    territories: map<TerritoryId, Territory>, p: PlayerId): (r: set<TerritoryId>)
    requires CardsKnown(cards, all)
    ensures r <= territories.Keys
    ensures forall t :: t in r ==> territories[t].occupier == Some(p)
  {
    CardTerritories(cards, all) * OccupiedBy(territories, p)
  }

  /**
   * A territory matches exactly when it is occupied by the redeemer and some
   * redeemed card carries it.
   */
  lemma MatchingTerritoriesContains(
    cards: map<CardId, Option<TerritoryId>>, all: seq<CardId>,
    territories: map<TerritoryId, Territory>, p: PlayerId, t: TerritoryId)
    requires CardsKnown(cards, all)
    ensures t in MatchingTerritories(cards, all, territories, p) <==>
      t in territories && territories[t].occupier == Some(p) &&
      exists i :: 0 <= i < |all| && cards[all[i]] == Some(t)
  {
    CardTerritoriesContains(cards, all, t);
  }

  /** The matching-territory bonus: two troops when any territory matches, else none. */
  function MatchingTerritoryBonus(matching: set<TerritoryId>): (r: int)
    ensures r == 2 <==> matching != {}
    ensures r == 0 <==> matching == {}
  {
    if |matching| > 0 then 2 else 0
  }
}
