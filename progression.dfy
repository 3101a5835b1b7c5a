/** The level-up rule applied after a won battle. */
module Progression {
  import opened Stats

  const XpPerLevel: int := 50
  const AttackPerLevel: int := 5
  const HpPerLevel: int := 20

  /** The XP the player needs to leave the current level. */
  function Threshold(s: State): int {
    s.level * XpPerLevel
  }

  /** One level-up check: a single test, so at most one level per call. */
  function LevelUp(s: State): State {
    if s.xp >= Threshold(s) then
      s.(level := s.level + 1, attack := s.attack + AttackPerLevel, hp := s.hp + HpPerLevel)
    else
      s
  }

  /** The level rises, by exactly one, precisely when the XP reaches the
      threshold; a level-up adds 5 attack and 20 HP and leaves XP, gold, the
      inventory and the enemy as they were; otherwise nothing changes. */
  lemma LevelUpRule(s: State)
    ensures LevelUp(s).level == s.level + 1 <==> s.xp >= s.level * 50
    ensures LevelUp(s).level == s.level + 1 ==>
      && LevelUp(s).attack == s.attack + 5
      && LevelUp(s).hp == s.hp + 20
      && LevelUp(s).(level := s.level, attack := s.attack, hp := s.hp) == s
    ensures s.xp < s.level * 50 ==> LevelUp(s) == s
  {
  }

  /** A single call raises one level even when the XP covers the next threshold
      too: the player is still eligible afterwards. */
  lemma OneLevelPerCall(s: State)
    requires s.level >= 1 && s.xp >= (s.level + 1) * 50
    ensures LevelUp(s).level == s.level + 1
    ensures LevelUp(s).xp >= Threshold(LevelUp(s))
  {
  }

  lemma LevelUpKeepsInv(s: State, shop: Catalog)
    requires Inv(s, shop)
    ensures Inv(LevelUp(s), shop)
    ensures LevelUp(s).level >= s.level && LevelUp(s).attack >= s.attack
  {
  }
}
