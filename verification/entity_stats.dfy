/** The tunable stats of one entity (Stats/EntityStatsObject.cs). */
module EntityStats {

  datatype Stats = Stats(
    maxHealth: real,
    damage: real,
    moveSpeed: real,
    originalDamage: real,
    originalMoveSpeed: real)

  /** `ResetStats`: damage and move speed go back to their originals. */
  function Reset(s: Stats): (t: Stats)
    ensures t.damage == s.originalDamage
    ensures t.moveSpeed == s.originalMoveSpeed
    ensures t.maxHealth == s.maxHealth
    ensures t.originalDamage == s.originalDamage
    ensures t.originalMoveSpeed == s.originalMoveSpeed
  {
    s.(damage := s.originalDamage, moveSpeed := s.originalMoveSpeed)
  }

  /** `OnEnable` performs the reset. */
  function Enable(s: Stats): (t: Stats)
    ensures IsReset(t)
    ensures t.maxHealth == s.maxHealth
  {
    Reset(s)
  }

  /** A stats object whose current values equal its originals. */
  predicate IsReset(s: Stats) {
    s.damage == s.originalDamage && s.moveSpeed == s.originalMoveSpeed
  }

  /** Resetting is idempotent, and a reset object is its own reset. */
  lemma ResetIdempotent(s: Stats)
    ensures Reset(Reset(s)) == Reset(s)
    ensures IsReset(s) <==> Reset(s) == s
  {
  }
}
