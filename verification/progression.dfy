/**
 * The level-up rule the two games share. The fish game uses 100 xp per
 * level, the crab game 10.
 */
module Progression {

  /** A level of at least 1 and an xp bar that is not yet full. */
  ghost predicate InRange(level: int, xp: int, perLevel: nat) {
    level >= 1 && 0 <= xp < level * perLevel
  }

  /**
   * The check that runs once after xp was added: reaching level * perLevel
   * gives exactly one level and empties the bar, discarding the surplus.
   */
  function LevelUp(level: int, xp: int, perLevel: nat): (int, int) {
    if xp >= level * perLevel then (level + 1, 0) else (level, xp)
  }

  /**
   * Adding any non-negative gain and then checking once keeps the bar
   * below its threshold; the level rises by one exactly when the
   * threshold was reached, and the xp is then 0 whatever the surplus.
   */
  lemma GainKeepsInRange(level: int, xp: int, gain: nat, perLevel: nat)
    requires perLevel > 0 && InRange(level, xp, perLevel)
    ensures var after := LevelUp(level, xp + gain, perLevel);
      && InRange(after.0, after.1, perLevel)
      && (after.0 == level + 1 && after.1 == 0) == (xp + gain >= level * perLevel)
      && (after.0 == level || after.0 == level + 1)
  {
    if xp + gain >= level * perLevel {
      assert (level + 1) * perLevel == level * perLevel + perLevel;
    }
  }
}
