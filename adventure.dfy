/** The game's mutable state and the operations that change it in place:
    one battle round, the battle loop with its reward, the level-up check and
    the shop purchase. Each method is proved to leave the state the matching
    function of `Combat`, `Progression` or `Trading` describes. */
module Adventure {
  import opened Lists
  import opened Stats
  import Progression
  import Trading
  import opened Combat

  class Game {
    // the `player` record
    var hp: int
    var stamina: int
    var attack: int
    var xp: int
    var level: int
    var gold: int
    var inventory: seq<string>
    // the `enemy` record
    var enemyHp: int
    var enemyAttack: int
    // the `shop` price list, which no operation changes
    const shop: Catalog

    function Snapshot(): State
      reads this
    {
      State(hp, stamina, attack, xp, level, gold, inventory, enemyHp, enemyAttack)
    }

    ghost predicate Valid()
      reads this
    {
      Inv(Snapshot(), shop)
    }

    /** The starting stats and the shop's price list. */
    constructor ()
      ensures Valid()
      ensures Snapshot() == Initial && shop == Shop
    {
      hp, stamina, attack, xp, level, gold, inventory := 100, 100, 20, 0, 1, 50, [];
      enemyHp, enemyAttack := 80, 15;
      shop := Shop;
      InitialInv();
    }

    /** One pass through the battle loop's body. `skipped` reports an invalid
        action, which ends the round before the enemy's turn. */
    method PlayRound(turn: Turn) returns (skipped: bool)
      requires Valid() && RollFits(Snapshot(), turn.roll)
      modifies this
      ensures Valid()
      ensures Snapshot() == Round(old(Snapshot()), turn)
      ensures skipped <==> Invalid(old(Snapshot()), Classify(turn.command))
    {
      RoundKeepsInv(Snapshot(), shop, turn);
      var action := Classify(turn.command);
      if action == Attack {
        if stamina >= StaminaPerAttack {
          enemyHp := enemyHp - turn.roll.strike;
          stamina := stamina - StaminaPerAttack;
        }
      } else if action == Defend {
      } else if action == UsePotion && Potion in inventory {
        hp := hp + PotionHeal;
        inventory := RemoveFirst(inventory, Potion);
      } else {
        return true;
      }
      if enemyHp > 0 {
        var damage := turn.roll.counter;
        if action == Defend {
          damage := damage / 2;
        }
        hp := hp - damage;
      }
      skipped := false;
    }

    /** The battle: rounds while both sides have HP left and input remains, then
        the reward and one level-up check if the player won. A battle whose
        input runs out first is reported as unfinished and pays nothing. */
    method Battle(turns: seq<Turn>) returns (outcome: Outcome)
      requires Valid() && TurnsFit(Snapshot(), turns)
      modifies this
      ensures Valid()
      ensures Snapshot() == Conclude(Fight(old(Snapshot()), turns))
      ensures outcome == OutcomeOf(Fight(old(Snapshot()), turns))
    {
      ghost var start := Snapshot();
      var i := 0;
      while i < |turns| && hp > 0 && enemyHp > 0
        invariant 0 <= i <= |turns|
        invariant Valid()
        invariant attack == start.attack && enemyAttack == start.enemyAttack
        invariant Fight(Snapshot(), turns[i..]) == Fight(start, turns)
      {
        assert RollFits(start, turns[i].roll);
        assert turns[i..][1..] == turns[i + 1..];
        var _ := PlayRound(turns[i]);
        i := i + 1;
      }
      assert Snapshot() == Fight(start, turns);
      ConcludeKeepsInv(Snapshot(), shop);
      if hp > 0 && enemyHp > 0 {
        outcome := Unfinished;
      } else if hp <= 0 {
        outcome := Defeat;
      } else {
        xp := xp + VictoryXp;
        gold := gold + VictoryGold;
        LevelUp();
        outcome := Victory;
      }
    }

    /** A single level-up check. */
    method LevelUp()
      requires Valid()
      modifies this
      ensures Valid()
      ensures Snapshot() == Progression.LevelUp(old(Snapshot()))
    {
      Progression.LevelUpKeepsInv(Snapshot(), shop);
      if xp >= level * Progression.XpPerLevel {
        level := level + 1;
        attack := attack + Progression.AttackPerLevel;
        hp := hp + Progression.HpPerLevel;
      }
    }

    /** The purchase of `choice` at the shop; `bought` reports whether it went
        ahead. */
    method VisitShop(choice: string) returns (bought: bool)
      requires Valid()
      modifies this
      ensures Valid()
      ensures bought <==> Trading.CanBuy(old(Snapshot()), shop, choice)
      ensures Snapshot() == Trading.Purchase(old(Snapshot()), shop, choice)
    {
      Trading.PurchaseKeepsInv(Snapshot(), shop, choice);
      if choice in shop && gold >= shop[choice] {
        gold := gold - shop[choice];
        inventory := inventory + [choice];
        bought := true;
      } else {
        bought := false;
      }
    }
  }
}
