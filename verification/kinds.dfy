/** Enumerations and small values shared by every component of the game. */
module Kinds {

  /** The match phase kept by the game manager. */
  datatype GameState = Pregame | Running | Paused | Postgame | Default

  /** Which combatant an entity block stands for; `NoEntity` and
      `DefaultEntity` are the source's `None` and `Default`. */
  datatype EntityType = Sorcerer | Swordsman | NoEntity | DefaultEntity

  /** The effect an effect block carries; `NoEffect` and `DefaultEffect` are
      the source's `None` and `Default`. */
  datatype Effect =
    | AttackPowerUp | AttackPowerDown | SpeedUp | SpeedDown | Fire
    | NoEffect | DefaultEffect

  /** Whether the effect manager has a combatant for this entity type: it
      acts on Swordsman and Sorcerer blocks and ignores the others. */
  predicate HasCombatant(t: EntityType) {
    t == Swordsman || t == Sorcerer
  }

  /** The three colours the core ever assigns to a line or a text. */
  datatype Colour = White | Cyan | Yellow

  /** A 2D vector (velocities). */
  datatype Vec = Vec(x: real, y: real)

  /** The sign of a real as the movement components compute it: 0 exactly
      for 0, otherwise -1 or 1. */
  function Sign(x: real): (s: int)
    ensures s == 0 <==> x == 0.0
    ensures s == 1 <==> x > 0.0
    ensures s == -1 <==> x < 0.0
  {
    if x == 0.0 then 0 else if x > 0.0 then 1 else -1
  }

  /** The time that passes over a run of frames with the given frame times. */
  function Sum(dts: seq<real>): real
    decreases |dts|
  {
    if dts == [] then 0.0 else dts[0] + Sum(dts[1..])
  }
}
