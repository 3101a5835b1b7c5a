/** The game's state: the `player` and `enemy` records and the `shop`
    price list, their starting values, and the invariant every operation keeps. */
module Stats {

  /** One snapshot of the player's and the enemy's stats. Integers are unbounded,
      as the source's integers are; HP is not capped and may go below zero. */
  datatype State = State(
    hp: int,
    stamina: int,
    attack: int,
    xp: int,
    level: int,
    gold: int,
    inventory: seq<string>,
    enemyHp: int,
    enemyAttack: int)

  /** Item names mapped to their price in gold. */
  type Catalog = map<string, int>

  const Potion: string := "Potion"

  /** Starting values of the player and the enemy. */
  const Initial: State := State(100, 100, 20, 0, 1, 50, [], 80, 15)

  /** The shop's price list. */
  const Shop: Catalog := map["Potion" := 20, "Sword Upgrade" := 50, "Armor" := 40]

  /** Lower bound of the player's damage roll: the attack draws from [10, attack]. */
  const MinStrike: int := 10

  /** Lower bound of the enemy's damage roll: the counter-attack draws from [5, enemy attack]. */
  const MinCounter: int := 5

  /** What holds of the state between any two operations: the resources that are
      spent only when available stay non-negative, both damage ranges are
      non-empty, and everything in the inventory was bought from the shop. */
  predicate Inv(s: State, shop: Catalog) {
    && s.stamina >= 0
    && s.gold >= 0
    && s.xp >= 0
    && s.level >= 1
    && s.attack >= MinStrike
    && s.enemyAttack >= MinCounter
    && (forall item :: item in s.inventory ==> item in shop)
  }

  lemma InitialInv()
    ensures Inv(Initial, Shop)
  {
  }
}
