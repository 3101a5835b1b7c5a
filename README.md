# AI Adventure RPG — game mechanics in Dafny

A model of the deterministic mechanics of the text adventure in
`AI-Adventure-RPG/AI-Adventure-RPG.py`. That file keeps three module-level
records: `player` (HP, stamina, attack, XP, level, gold, inventory), `enemy`
(HP, attack) and `shop` (a price list). Three functions change them in place:

- `battle` runs rounds until one side's HP is at most 0. In each round the
  player types `attack`, `defend`, `use potion` or anything else, matched case-insensitively.
  An attack costs 10 stamina and is only made with at least 10 stamina; a
  failed attack still lets the enemy strike back. A potion heals 30 HP and uses
  up the first "Potion" in the inventory. Any other command, or a potion request
  without a potion, ends the round at once, with no counter-attack. The enemy
  then counter-attacks, if it still has HP, for a random 5..attack damage,
  halved when the player defended. A win pays 20 XP and 30 gold and runs one
  level-up check.
- `level_up` raises the level by one, attack by 5 and HP by 20 when XP reaches
  `level * 50`. It is a single check, so it gives at most one level per call.
- `shop_system` sells an item whose exact name is a key of the price list when
  the player has enough gold: the gold is paid and the name appended to the
  inventory, or nothing happens.

Layout:

- `text.dfy` (module `Text`): lower-casing of commands (Python's `str.lower`).
- `lists.dfy` (module `Lists`): removal of the first occurrence from a list
  (Python's `list.remove`).
- `stats.dfy` (`Stats`): the state as a datatype, the starting values, the shop's
  price list and the invariant `Inv`.
- `progression.dfy`, `trading.dfy`, `combat.dfy`: the level-up, purchase and
  battle rules as functions on that state, with the lemmas about them.
- `adventure.dfy` (`Adventure`): class `Game`, with one field per record
  entry, whose methods do the updates step by step as the source does. Each
  method is proved to produce exactly the state the matching function
  describes, and to keep `Inv`.

Inputs are parameters. Each round receives a `Turn`: the typed command together
with that round's two random draws, the player's damage and the enemy's. The
draws are required to lie in the ranges `random.randint` is called with:
`[10, attack]` and `[5, enemy attack]`. `Inv` guarantees both ranges are
non-empty. The enemy's draw is positive, so Dafny's `/` agrees with
Python's floor division `//` for the halving. A battle is played over a finite list of turns. If the list runs out
while both sides still have HP, the source's loop would still be waiting for
input, so the model reports `Unfinished` and pays nothing.

The shop sells "Sword Upgrade" and "Armor", but no battle action uses them. The
source has no maximum HP, no HP cap on potions, no recovery after a battle, no
enemy progression and no saving, and the model has none of these either. One consequence is proved in `BattleAfterVictoryPaysAgain`: the enemy's
HP is never reset, so every later battle plays no round and pays the reward again.

## Model

| member | source | states |
|---|---|---|
| `Text.Lower` | AI-Adventure-RPG/AI-Adventure-RPG.py:44 | lower-casing keeps the length, maps each character independently, and leaves no upper-case letter |
| `Text.LowerIdempotent` | AI-Adventure-RPG/AI-Adventure-RPG.py:44 | lower-casing an already lower-cased command changes nothing |
| `Lists.FirstIndex` | AI-Adventure-RPG/AI-Adventure-RPG.py:56 | the index found holds the item and no earlier position does |
| `Lists.RemoveFirst` | AI-Adventure-RPG/AI-Adventure-RPG.py:56 | removal shortens the list by one and takes away exactly one copy of the item |
| `Lists.RemoveFirstSplices` | AI-Adventure-RPG/AI-Adventure-RPG.py:56 | removal cuts out the first occurrence and keeps every other element in its original order |
| `Lists.RemoveFirstSubset` | AI-Adventure-RPG/AI-Adventure-RPG.py:56 | removal adds no new item |
| `Stats.InitialInv` | AI-Adventure-RPG/AI-Adventure-RPG.py:30-34 | the starting stats satisfy the invariant: non-negative stamina, gold and XP, level at least 1, non-empty damage ranges, every item sold by the shop |
| `Combat.Classify` | AI-Adventure-RPG/AI-Adventure-RPG.py:44-54 | the action selected by the lower-cased command; its properties are stated by `ClassifyIgnoresCase` and `ClassifyExamples` |
| `Combat.PlayerPhase` | AI-Adventure-RPG/AI-Adventure-RPG.py:44-60 | the player's half of a round; stated by `AttackWithStamina`, `AttackWithoutStaminaFallsThrough`, `InvalidActionSkipsRound` and `PotionRestores` |
| `Combat.EnemyPhase` | AI-Adventure-RPG/AI-Adventure-RPG.py:62-66 | the counter-attack; stated by `CounterAttack` |
| `Combat.Round` | AI-Adventure-RPG/AI-Adventure-RPG.py:44-66 | one pass of the loop body; stated by `DefendHalves`, `OtherActionsTakeFullCounter`, `RoundUnchangedIffInvalid`, `RoundKeepsInv` and `RoundSpendsOnlyPotions` |
| `Combat.Fight` | AI-Adventure-RPG/AI-Adventure-RPG.py:42-69 | the loop over the input; stated by `FightPlaysNextTurn`, `FightStopsWhenDecided`, `FightOverPlaysNothing`, `FightKeepsInv`, `FightSpendsOnlyPotions`, `FightNeverHealsEnemy` and `AttacksEndBattle` |
| `Combat.Conclude` | AI-Adventure-RPG/AI-Adventure-RPG.py:71-77 | the code after the loop; stated by `ConcludeRewards` and `ConcludeKeepsInv` |
| `Progression.LevelUp` | AI-Adventure-RPG/AI-Adventure-RPG.py:80-84 | the level-up check; stated by `LevelUpRule`, `OneLevelPerCall` and `LevelUpKeepsInv` |
| `Trading.CanBuy` | AI-Adventure-RPG/AI-Adventure-RPG.py:92 | the purchase condition: an exact catalog key and enough gold; stated by `PurchaseAllOrNothing` and `PurchaseIsCaseSensitive` |
| `Trading.Purchase` | AI-Adventure-RPG/AI-Adventure-RPG.py:92-97 | the state after a purchase request; stated by `PurchaseAllOrNothing` and `PurchaseKeepsInv` |
| `Combat.ClassifyIgnoresCase` | AI-Adventure-RPG/AI-Adventure-RPG.py:44-54 | a command and its lower-cased form select the same action |
| `Combat.ClassifyExamples` | AI-Adventure-RPG/AI-Adventure-RPG.py:44-54 | "ATTACK" is an attack and "Use Potion" a potion use, but " defend" is not recognised: spaces are not stripped |
| `Combat.AttackWithStamina` | AI-Adventure-RPG/AI-Adventure-RPG.py:44-48 | with at least 10 stamina an attack spends exactly 10 stamina and removes exactly the drawn damage, between 10 and the player's attack, from enemy HP, changing nothing else |
| `Combat.AttackWithoutStaminaFallsThrough` | AI-Adventure-RPG/AI-Adventure-RPG.py:45-66 | an attack with under 10 stamina changes neither stamina nor enemy HP, and the enemy still counter-attacks with undiminished damage |
| `Combat.InvalidActionSkipsRound` | AI-Adventure-RPG/AI-Adventure-RPG.py:54-60 | an unrecognised command, or a potion request with no potion, skips the rest of the round and leaves the whole state unchanged |
| `Combat.PotionRestores` | AI-Adventure-RPG/AI-Adventure-RPG.py:54-56 | a potion adds exactly 30 HP with no cap and removes the first "Potion", keeping the rest of the inventory in order; nothing else changes |
| `Combat.CounterAttack` | AI-Adventure-RPG/AI-Adventure-RPG.py:62-66 | the counter-attack happens only while enemy HP is positive; it takes 5..enemy attack from player HP, or 2..enemy attack/2 when the player defended, and changes nothing else |
| `Combat.DefendHalves` | AI-Adventure-RPG/AI-Adventure-RPG.py:52-66 | a `defend` round against a living enemy costs exactly half the enemy's draw, rounded down, and changes nothing else |
| `Combat.OtherActionsTakeFullCounter` | AI-Adventure-RPG/AI-Adventure-RPG.py:44-66 | after any other accepted action, the player loses the whole draw if the enemy survived the player phase, and nothing if it did not |
| `Combat.RoundKeepsInv` | AI-Adventure-RPG/AI-Adventure-RPG.py:44-66 | a round keeps the invariant, so stamina never goes negative, and leaves attack, XP, level and gold unchanged |
| `Combat.RoundUnchangedIffInvalid` | AI-Adventure-RPG/AI-Adventure-RPG.py:44-66 | during a battle with in-range draws, a round leaves the state exactly as it was if and only if the action was invalid |
| `Combat.RoundSpendsOnlyPotions` | AI-Adventure-RPG/AI-Adventure-RPG.py:54-56 | a round removes at most one item from the inventory, and that item is a potion |
| `Combat.RoundKeepsStats` | AI-Adventure-RPG/AI-Adventure-RPG.py:44-66 | a round keeps both attack stats and never raises enemy HP |
| `Combat.FightOverPlaysNothing` | AI-Adventure-RPG/AI-Adventure-RPG.py:42 | a battle entered with either side at HP at most 0, or with no input left, plays no round and leaves the state unchanged |
| `Combat.FightPlaysNextTurn` | AI-Adventure-RPG/AI-Adventure-RPG.py:42-69 | while the battle is undecided after k turns, the state after k + 1 turns is exactly one more round: no turn is skipped and the loop does not stop early |
| `Combat.FightStopsWhenDecided` | AI-Adventure-RPG/AI-Adventure-RPG.py:42-69 | once the battle is decided after k turns, the rest of the input plays no turn and changes nothing |
| `Combat.FightEndsOnlyWhenOver` | AI-Adventure-RPG/AI-Adventure-RPG.py:42-69 | a decided battle stays decided: if the battle is undecided after the whole input, it was undecided after every prefix of it |
| `Combat.FightKeepsInv` | AI-Adventure-RPG/AI-Adventure-RPG.py:42-69 | the whole loop keeps the invariant and pays no XP or gold and changes no level or attack stat while it runs |
| `Combat.FightSpendsOnlyPotions` | AI-Adventure-RPG/AI-Adventure-RPG.py:42-69 | over a battle every non-potion item keeps its count and the potion count never rises |
| `Combat.FightNeverHealsEnemy` | AI-Adventure-RPG/AI-Adventure-RPG.py:42-69 | with in-range draws, enemy HP never rises during a battle |
| `Combat.AttacksEndBattle` | AI-Adventure-RPG/AI-Adventure-RPG.py:42-69 | n attacks with stamina for all of them decide a battle against an enemy with at most 10n HP |
| `Combat.FirstBattleDecidedByEightAttacks` | AI-Adventure-RPG/AI-Adventure-RPG.py:30-48 | from the starting stats, eight attack commands always decide the first battle |
| `Combat.ConcludeRewards` | AI-Adventure-RPG/AI-Adventure-RPG.py:71-77 | a win adds exactly 20 XP and 30 gold and then applies one level-up check: with the new XP at or above level * 50 the state also gains one level, 5 attack and 20 HP, otherwise nothing else changes; any other outcome changes nothing; enemy HP and inventory are never touched |
| `Combat.ConcludeKeepsInv` | AI-Adventure-RPG/AI-Adventure-RPG.py:71-77 | the reward and level-up after a battle keep the invariant |
| `Combat.BattleAfterVictoryPaysAgain` | AI-Adventure-RPG/AI-Adventure-RPG.py:42-77 | after a win the enemy stays at HP at most 0, so the next battle is a victory with no rounds that pays 20 XP and 30 gold again |
| `Progression.LevelUpRule` | AI-Adventure-RPG/AI-Adventure-RPG.py:80-84 | the level rises by one exactly when XP reaches level * 50, adding 5 attack and 20 HP and keeping XP, gold and the rest; otherwise nothing changes |
| `Progression.OneLevelPerCall` | AI-Adventure-RPG/AI-Adventure-RPG.py:81-84 | with XP past two thresholds one call still raises a single level and leaves the player eligible again |
| `Progression.LevelUpKeepsInv` | AI-Adventure-RPG/AI-Adventure-RPG.py:80-84 | a level-up keeps the invariant and never lowers level or attack |
| `Trading.PurchaseAllOrNothing` | AI-Adventure-RPG/AI-Adventure-RPG.py:92-97 | a sale of a listed item the player can afford takes exactly its price and appends exactly that name; any other request changes nothing |
| `Trading.PurchaseIsCaseSensitive` | AI-Adventure-RPG/AI-Adventure-RPG.py:92 | "potion" is not sold while "Potion" is: item names must match exactly |
| `Trading.PurchaseKeepsInv` | AI-Adventure-RPG/AI-Adventure-RPG.py:92-94 | a purchase never makes gold negative and adds only catalog items |
| `Adventure.Game.constructor` | AI-Adventure-RPG/AI-Adventure-RPG.py:30-34 | a new game starts from the starting stats and price list, satisfying the invariant |
| `Adventure.Game.PlayRound` | AI-Adventure-RPG/AI-Adventure-RPG.py:43-67 | the fields updated step by step end in the state of `Combat.Round`; the round is reported skipped iff the action was invalid |
| `Adventure.Game.Battle` | AI-Adventure-RPG/AI-Adventure-RPG.py:40-77 | the loop and reward leave the state `Conclude(Fight(...))` of the old state, keep the invariant, and report the outcome |
| `Adventure.Game.LevelUp` | AI-Adventure-RPG/AI-Adventure-RPG.py:80-85 | the state afterwards is that of `Progression.LevelUp` of the state before |
| `Adventure.Game.VisitShop` | AI-Adventure-RPG/AI-Adventure-RPG.py:87-97 | the sale succeeds iff the name is listed and affordable, and the state afterwards is that of `Trading.Purchase` |

## Left out

- `ai_response`, the generative-text client configuration and the environment loading (lines 16-27): network and configuration, outside the game rules.
- `main`'s command loop and narrative text (lines 100-136): console dispatch. Its `go south` branch is where `Game.Battle` would be called, and its `shop` branch is where `Game.VisitShop` would be called.
- `check_status`, the shop listing and every `print`: output only.
- `input()`: each call is replaced by the command of a `Turn` or by the `choice` parameter.
- `random.randint`: replaced by the draws of a `Roll`, which must lie in the cited ranges. Python draws only the numbers a round actually uses; the model gives every round both draws and ignores the unused one.
- Text.Lower: only ASCII letters are lower-cased. Python's `str.lower` applies full Unicode case mapping, so a command such as "attac" followed by the Kelvin sign also counts as `attack` in the source but not in the model.
- Adventure.Game.Battle: the source waits forever for input, and the model plays a finite list of turns. When the list runs out with both sides alive the result is `Unfinished`, and the code after the loop is not run.
