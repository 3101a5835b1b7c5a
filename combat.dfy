/** The battle: one round is a player phase followed, unless the action was
    invalid, by the enemy's counter-attack; the battle repeats rounds while
    both sides have HP left and then pays the victory reward. */
module Combat {
  import opened Text
  import opened Lists
  import opened Stats
  import opened Progression

  /** The player's command, after lower-casing. */
  datatype Action = Attack | Defend | UsePotion | Unrecognised

  /** The two random draws of one round: the player's damage and the enemy's. */
  datatype Roll = Roll(strike: int, counter: int)

  /** One round's input: the typed command and the draws made in that round. */
  datatype Turn = Turn(command: string, roll: Roll)

  /** The player phase either ends the round early or hands on a new state. */
  datatype PhaseResult = Skipped | Resolved(after: State)

  /** How a battle stands once its input is used up or one side is down. */
  datatype Outcome = Victory | Defeat | Unfinished

  const StaminaPerAttack: int := 10
  const PotionHeal: int := 30
  const VictoryXp: int := 20
  const VictoryGold: int := 30

  function Classify(command: string): Action {
    var c := Lower(command);
    if c == "attack" then Attack
    else if c == "defend" then Defend
    else if c == "use potion" then UsePotion
    else Unrecognised
  }

  /** The draws lie in the ranges the random generator is asked for. */
  predicate RollFits(s: State, r: Roll) {
    MinStrike <= r.strike <= s.attack && MinCounter <= r.counter <= s.enemyAttack
  }

  predicate TurnsFit(s: State, turns: seq<Turn>) {
    forall i :: 0 <= i < |turns| ==> RollFits(s, turns[i].roll)
  }

  /** The action is rejected and the rest of the round is skipped. */
  predicate Invalid(s: State, a: Action) {
    a == Unrecognised || (a == UsePotion && Potion !in s.inventory)
  }

  function PlayerPhase(s: State, a: Action, strike: int): PhaseResult {
    match a
    case Attack =>
      if s.stamina >= StaminaPerAttack then
        Resolved(s.(enemyHp := s.enemyHp - strike, stamina := s.stamina - StaminaPerAttack))
      else
        Resolved(s)
    case Defend => Resolved(s)
    case UsePotion =>
      if Potion in s.inventory then
        Resolved(s.(hp := s.hp + PotionHeal, inventory := RemoveFirst(s.inventory, Potion)))
      else
        Skipped
    case Unrecognised => Skipped
  }

  function EnemyPhase(s: State, defended: bool, counter: int): State {
    if s.enemyHp > 0 then
      s.(hp := s.hp - (if defended then counter / 2 else counter))
    else
      s
  }

  function Round(s: State, t: Turn): State {
    var a := Classify(t.command);
    match PlayerPhase(s, a, t.roll.strike)
    case Skipped => s
    case Resolved(after) => EnemyPhase(after, a == Defend, t.roll.counter)
  }

  predicate InProgress(s: State) {
    s.hp > 0 && s.enemyHp > 0
  }

  /** The battle loop over the given input: a round per turn while both sides
      have HP left. */
  function Fight(s: State, turns: seq<Turn>): State
    decreases |turns|
  {
    if !InProgress(s) || turns == [] then s
    else Fight(Round(s, turns[0]), turns[1..])
  }

  function OutcomeOf(s: State): Outcome {
    if InProgress(s) then Unfinished
    else if s.hp <= 0 then Defeat
    else Victory
  }

  /** What follows the loop: the reward and a level-up check after a win,
      nothing after a defeat; a battle still waiting for input ends nothing. */
  function Conclude(s: State): State {
    if InProgress(s) || s.hp <= 0 then s
    else LevelUp(s.(xp := s.xp + VictoryXp, gold := s.gold + VictoryGold))
  }

  // ---------------------------------------------------------------------
  // Commands

  /** Commands are matched ignoring letter case. */
  lemma ClassifyIgnoresCase(command: string)
    ensures Classify(Lower(command)) == Classify(command)
  {
    LowerIdempotent(command);
  }

  /** A command is only one of the three words when its lower-cased form is
      exactly that word: upper case is accepted, surrounding spaces are not. */
  lemma ClassifyExamples()
    ensures Classify("ATTACK") == Attack
    ensures Classify("Use Potion") == UsePotion
    ensures Classify(" defend") == Unrecognised
  {
    var a := Lower("ATTACK");
    assert a[0] == 'a' && a[1] == 't' && a[2] == 't' && a[3] == 'a' && a[4] == 'c' && a[5] == 'k';
    assert a == "attack";
    var p := Lower("Use Potion");
    assert p[0] == 'u' && p[1] == 's' && p[2] == 'e' && p[3] == ' ' && p[4] == 'p';
    assert p[5] == 'o' && p[6] == 't' && p[7] == 'i' && p[8] == 'o' && p[9] == 'n';
    assert p == "use potion";
    var d := Lower(" defend");
    assert d[0] == ' ';
    assert d != "defend" && d != "attack" && d != "use potion";
  }

  // ---------------------------------------------------------------------
  // The player phase

  /** With stamina to spare an attack costs exactly 10 stamina and takes
      between 10 and the player's attack off the enemy; nothing else changes. */
  lemma AttackWithStamina(s: State, r: Roll)
    requires s.stamina >= 10 && RollFits(s, r)
    ensures PlayerPhase(s, Attack, r.strike).Resolved?
    ensures PlayerPhase(s, Attack, r.strike).after.stamina == s.stamina - 10
    ensures PlayerPhase(s, Attack, r.strike).after.enemyHp == s.enemyHp - r.strike
    ensures 10 <= s.enemyHp - PlayerPhase(s, Attack, r.strike).after.enemyHp <= s.attack
    ensures PlayerPhase(s, Attack, r.strike).after.(stamina := s.stamina, enemyHp := s.enemyHp) == s
  {
  }

  /** An attack without enough stamina does nothing itself, yet the round goes
      on: the enemy still counter-attacks at full strength. */
  lemma AttackWithoutStaminaFallsThrough(s: State, t: Turn)
    requires Classify(t.command) == Attack && s.stamina < 10 && s.enemyHp > 0
    ensures Round(s, t) == s.(hp := s.hp - t.roll.counter)
  {
  }

  /** An unknown command, or a potion request without a potion, changes
      nothing at all: not the player, not the enemy, and no counter-attack. */
  lemma InvalidActionSkipsRound(s: State, t: Turn)
    requires Invalid(s, Classify(t.command))
    ensures PlayerPhase(s, Classify(t.command), t.roll.strike) == Skipped
    ensures Round(s, t) == s
  {
  }

  /** A potion heals exactly 30 HP, without any cap, and removes the first
      "Potion" of the inventory, keeping all other items in their order. */
  lemma PotionRestores(s: State, strike: int)
    requires Potion in s.inventory
    ensures PlayerPhase(s, UsePotion, strike).Resolved?
    ensures PlayerPhase(s, UsePotion, strike).after.hp == s.hp + 30
    ensures
      var i := FirstIndex(s.inventory, Potion);
      && Potion !in s.inventory[..i]
      && PlayerPhase(s, UsePotion, strike).after.inventory == s.inventory[..i] + s.inventory[i + 1..]
    ensures multiset(PlayerPhase(s, UsePotion, strike).after.inventory) == multiset(s.inventory) - multiset{Potion}
    ensures PlayerPhase(s, UsePotion, strike).after.(hp := s.hp, inventory := s.inventory) == s
  {
    RemoveFirstSplices(s.inventory, Potion);
  }

  // ---------------------------------------------------------------------
  // The enemy phase

  /** The counter-attack happens only while the enemy has HP left; it takes
      between 5 and the enemy's attack off the player's HP, floor-halved when
      the player defended, and touches nothing else. */
  lemma CounterAttack(s: State, defended: bool, counter: int)
    requires MinCounter <= counter <= s.enemyAttack
    ensures s.enemyHp <= 0 ==> EnemyPhase(s, defended, counter) == s
    ensures s.enemyHp > 0 ==>
      var dealt := s.hp - EnemyPhase(s, defended, counter).hp;
      && (defended ==> 2 <= dealt <= s.enemyAttack / 2)
      && (!defended ==> 5 <= dealt <= s.enemyAttack)
    ensures EnemyPhase(s, defended, counter).(hp := s.hp) == s
  {
    if s.enemyHp > 0 && defended {
      assert 5 / 2 <= counter / 2 <= s.enemyAttack / 2;
    }
  }

  /** A `defend` round against a living enemy costs the player exactly half
      the enemy's draw, rounded down, and changes nothing else. */
  lemma DefendHalves(s: State, t: Turn)
    requires Classify(t.command) == Defend && s.enemyHp > 0
    ensures Round(s, t) == s.(hp := s.hp - t.roll.counter / 2)
  {
  }

  /** After any other accepted action the counter-attack is not reduced: if the
      enemy survives the player phase, the player loses the whole draw. */
  lemma OtherActionsTakeFullCounter(s: State, t: Turn)
    requires Classify(t.command) != Defend && !Invalid(s, Classify(t.command))
    ensures PlayerPhase(s, Classify(t.command), t.roll.strike).Resolved?
    ensures
      var after := PlayerPhase(s, Classify(t.command), t.roll.strike).after;
      after.enemyHp > 0 ==> Round(s, t) == after.(hp := after.hp - t.roll.counter)
    ensures
      var after := PlayerPhase(s, Classify(t.command), t.roll.strike).after;
      after.enemyHp <= 0 ==> Round(s, t) == after
  {
  }

  // ---------------------------------------------------------------------
  // Whole rounds

  /** A round leaves the attack stats, XP, level and gold alone and keeps the
      invariant: stamina is spent only when there is enough, and items only
      leave the inventory. */
  lemma RoundKeepsInv(s: State, shop: Catalog, t: Turn)
    requires Inv(s, shop)
    ensures Inv(Round(s, t), shop)
    ensures Round(s, t).attack == s.attack && Round(s, t).enemyAttack == s.enemyAttack
    ensures Round(s, t).xp == s.xp && Round(s, t).level == s.level && Round(s, t).gold == s.gold
  {
    if Classify(t.command) == UsePotion && Potion in s.inventory {
      forall item | item in RemoveFirst(s.inventory, Potion)
        ensures item in shop
      {
        RemoveFirstSubset(s.inventory, Potion, item);
      }
    }
  }

  /** During a battle with valid draws, a round leaves the state exactly as it
      was if and only if the action was invalid. */
  lemma RoundUnchangedIffInvalid(s: State, t: Turn)
    requires InProgress(s) && RollFits(s, t.roll)
    ensures Round(s, t) == s <==> Invalid(s, Classify(t.command))
  {
    var a := Classify(t.command);
    if a == UsePotion && Potion in s.inventory {
      assert |Round(s, t).inventory| == |s.inventory| - 1;
    } else if a == Defend {
      assert Round(s, t).hp <= s.hp - 2;
    }
  }

  /** Only potions leave the inventory during a round, and at most one. */
  lemma RoundSpendsOnlyPotions(s: State, t: Turn)
    ensures multiset(s.inventory) - multiset{Potion} <= multiset(Round(s, t).inventory)
    ensures multiset(Round(s, t).inventory) <= multiset(s.inventory)
  {
  }

  // ---------------------------------------------------------------------
  // The battle loop

  /** A battle entered with one side already down, or with no input left,
      plays no round. */
  lemma FightOverPlaysNothing(s: State, turns: seq<Turn>)
    requires !InProgress(s) || turns == []
    ensures Fight(s, turns) == s
  {
  }

  /** A decided battle stays decided: if the battle is undecided after the
      whole input, it was undecided after every prefix of it. */
  lemma FightEndsOnlyWhenOver(s: State, turns: seq<Turn>)
    ensures InProgress(Fight(s, turns)) ==> forall k :: 0 <= k <= |turns| ==> InProgress(Fight(s, turns[..k]))
  {
    forall k | 0 <= k <= |turns| && !InProgress(Fight(s, turns[..k]))
      ensures !InProgress(Fight(s, turns))
    {
      FightStopsWhenDecided(s, turns, k);
    }
  }

  /** While the battle is undecided after the first k turns, the loop plays
      the next turn: the state after k + 1 turns is one more round. */
  lemma {:induction false} FightPlaysNextTurn(s: State, turns: seq<Turn>, k: nat)
    requires k < |turns| && InProgress(Fight(s, turns[..k]))
    ensures Fight(s, turns[..k + 1]) == Round(Fight(s, turns[..k]), turns[k])
    decreases k
  {
    assert turns[..k + 1][0] == turns[0];
    assert turns[..k + 1][1..] == turns[1..][..k];
    if k == 0 {
      assert turns[..0] == [];
      assert turns[1..][..0] == [];
    } else {
      assert turns[..k][0] == turns[0];
      assert turns[..k][1..] == turns[1..][..k - 1];
      FightPlaysNextTurn(Round(s, turns[0]), turns[1..], k - 1);
    }
  }

  /** Once the battle is decided after the first k turns, the loop plays no
      further turn: the rest of the input changes nothing. */
  lemma {:induction false} FightStopsWhenDecided(s: State, turns: seq<Turn>, k: nat)
    requires k <= |turns| && !InProgress(Fight(s, turns[..k]))
    ensures Fight(s, turns) == Fight(s, turns[..k])
    decreases k
  {
    if k > 0 && InProgress(s) {
      assert turns[..k][0] == turns[0];
      assert turns[..k][1..] == turns[1..][..k - 1];
      FightStopsWhenDecided(Round(s, turns[0]), turns[1..], k - 1);
    }
  }

  /** The battle keeps the invariant and the stats it never touches. */
  lemma {:induction false} FightKeepsInv(s: State, shop: Catalog, turns: seq<Turn>)
    requires Inv(s, shop)
    ensures Inv(Fight(s, turns), shop)
    ensures var f := Fight(s, turns);
      f.attack == s.attack && f.enemyAttack == s.enemyAttack
      && f.xp == s.xp && f.level == s.level && f.gold == s.gold
    decreases |turns|
  {
    if InProgress(s) && turns != [] {
      RoundKeepsInv(s, shop, turns[0]);
      FightKeepsInv(Round(s, turns[0]), shop, turns[1..]);
    }
  }

  /** Over a whole battle the only items that leave the inventory are potions:
      every other item keeps its count. */
  lemma {:induction false} FightSpendsOnlyPotions(s: State, turns: seq<Turn>, item: string)
    requires item != Potion
    ensures multiset(Fight(s, turns).inventory)[item] == multiset(s.inventory)[item]
    ensures multiset(Fight(s, turns).inventory)[Potion] <= multiset(s.inventory)[Potion]
    decreases |turns|
  {
    if InProgress(s) && turns != [] {
      RoundSpendsOnlyPotions(s, turns[0]);
      FightSpendsOnlyPotions(Round(s, turns[0]), turns[1..], item);
    }
  }

  /** The enemy's HP never rises during a battle. */
  lemma {:induction false} FightNeverHealsEnemy(s: State, turns: seq<Turn>)
    requires TurnsFit(s, turns)
    ensures Fight(s, turns).enemyHp <= s.enemyHp
    decreases |turns|
  {
    if InProgress(s) && turns != [] {
      RoundKeepsStats(s, turns[0]);
      var s' := Round(s, turns[0]);
      assert TurnsFit(s', turns[1..]) by {
        forall i | 0 <= i < |turns[1..]| ensures RollFits(s', turns[1..][i].roll) {
          assert turns[1..][i] == turns[i + 1];
        }
      }
      FightNeverHealsEnemy(s', turns[1..]);
    }
  }

  /** A round leaves the two attack stats alone, and takes enemy HP only. */
  lemma RoundKeepsStats(s: State, t: Turn)
    requires RollFits(s, t.roll)
    ensures Round(s, t).attack == s.attack && Round(s, t).enemyAttack == s.enemyAttack
    ensures Round(s, t).enemyHp <= s.enemyHp
  {
  }

  /** Attacking every round with enough stamina for all of them ends the battle
      within as many rounds as the enemy's HP allows at 10 damage per hit. */
  lemma {:induction false} AttacksEndBattle(s: State, turns: seq<Turn>)
    requires forall i :: 0 <= i < |turns| ==> Classify(turns[i].command) == Attack
    requires TurnsFit(s, turns)
    requires s.stamina >= 10 * |turns| && s.enemyHp <= 10 * |turns|
    ensures !InProgress(Fight(s, turns))
    decreases |turns|
  {
    if InProgress(s) {
      var s' := Round(s, turns[0]);
      assert s'.stamina == s.stamina - 10;
      assert s'.enemyHp <= s.enemyHp - 10;
      assert s'.attack == s.attack && s'.enemyAttack == s.enemyAttack;
      assert TurnsFit(s', turns[1..]) by {
        forall i | 0 <= i < |turns[1..]| ensures RollFits(s', turns[1..][i].roll) {
          assert turns[1..][i] == turns[i + 1];
        }
      }
      AttacksEndBattle(s', turns[1..]);
    }
  }

  /** From the starting stats, eight attacks always decide the first battle. */
  lemma FirstBattleDecidedByEightAttacks(turns: seq<Turn>)
    requires |turns| == 8 && TurnsFit(Initial, turns)
    requires forall i :: 0 <= i < |turns| ==> Classify(turns[i].command) == Attack
    ensures OutcomeOf(Fight(Initial, turns)) != Unfinished
  {
    AttacksEndBattle(Initial, turns);
  }

  // ---------------------------------------------------------------------
  // After the loop

  /** A win pays exactly 20 XP and 30 gold, then runs one level-up check; a
      defeat pays and restores nothing; the enemy's HP is never reset. */
  lemma ConcludeRewards(s: State)
    ensures OutcomeOf(s) == Victory && s.xp + 20 >= s.level * 50 ==>
      Conclude(s) == s.(xp := s.xp + 20, gold := s.gold + 30, level := s.level + 1, attack := s.attack + 5, hp := s.hp + 20)
    ensures OutcomeOf(s) == Victory && s.xp + 20 < s.level * 50 ==>
      Conclude(s) == s.(xp := s.xp + 20, gold := s.gold + 30)
    ensures OutcomeOf(s) == Victory ==>
      && Conclude(s).xp == s.xp + 20
      && Conclude(s).gold == s.gold + 30
      && (Conclude(s).level == s.level + 1 <==> s.xp + 20 >= s.level * 50)
    ensures OutcomeOf(s) != Victory ==> Conclude(s) == s
    ensures Conclude(s).enemyHp == s.enemyHp && Conclude(s).inventory == s.inventory
  {
  }

  lemma ConcludeKeepsInv(s: State, shop: Catalog)
    requires Inv(s, shop)
    ensures Inv(Conclude(s), shop)
  {
    if OutcomeOf(s) == Victory {
      LevelUpKeepsInv(s.(xp := s.xp + VictoryXp, gold := s.gold + VictoryGold), shop);
    }
  }

  /** Since the enemy is never restored, going back into battle after a win
      plays no round and pays the reward once more. */
  lemma BattleAfterVictoryPaysAgain(s: State, turns: seq<Turn>)
    requires s.hp > 0 && s.enemyHp <= 0
    ensures OutcomeOf(Fight(s, turns)) == Victory
    ensures Conclude(Fight(s, turns)).gold == s.gold + 30
    ensures Conclude(Fight(s, turns)).xp == s.xp + 20
  {
    FightOverPlaysNothing(s, turns);
  }
}
