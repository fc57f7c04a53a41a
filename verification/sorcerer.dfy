/** The sorcerer entity (Entity/Enemy/Sorcerer.cs): the fire flag and its
    burn tick, the flyer speed derived from the stats, and the death
    handler that ends the match as a win. */
module Sorcerer {
  import opened Kinds
  import opened Events
  import ES = EntityStats
  import Burning
  import HR = HealthReserve
  import SCT = SorcererCombatTarget
  import GM = GameManager

  datatype SorcererState = SorcererState(
    stats: ES.Stats,
    onFire: bool,
    damageTimer: real,
    flyerSpeed: real)                 // `Flyer2D.moveSpeed`

  /** The flyer's speed per unit of the stats' move speed. */
  const FlyerSpeedFactor: real := 40.0

  /** `Awake`: the flyer speed is derived from the stats. */
  function Awake(stats: ES.Stats): (s: SorcererState)
    ensures s.flyerSpeed == stats.moveSpeed * FlyerSpeedFactor
    ensures s.stats == stats && !s.onFire && s.damageTimer == 0.0
  {
    SorcererState(stats, false, 0.0, stats.moveSpeed * FlyerSpeedFactor)
  }

  function Ignite(s: SorcererState): (t: SorcererState)
    ensures t.onFire
    ensures t.(onFire := s.onFire) == s
  {
    if !s.onFire then s.(onFire := true) else s
  }

  function Snuff(s: SorcererState): (t: SorcererState)
    ensures !t.onFire
    ensures t.(onFire := s.onFire) == s
  {
    if s.onFire then s.(onFire := false) else s
  }

  lemma FireFlagIdempotent(s: SorcererState)
    ensures Ignite(Ignite(s)) == Ignite(s) && Snuff(Snuff(s)) == Snuff(s)
    ensures Snuff(Ignite(s)) == Snuff(s) && Ignite(Snuff(s)) == Ignite(s)
  {
  }

  /** `UpdateMoveSpeed`: the flyer speed follows the stats. */
  function UpdateMoveSpeed(s: SorcererState): (t: SorcererState)
    ensures t.flyerSpeed == t.stats.moveSpeed * FlyerSpeedFactor
    ensures t.(flyerSpeed := s.flyerSpeed) == s
  {
    s.(flyerSpeed := s.stats.moveSpeed * FlyerSpeedFactor)
  }

  datatype Frame = Frame(sorcerer: SorcererState, health: HR.Reserve, game: GM.Game, events: seq<Event>)

  /** `Update`: the burn tick, through the combat target whose `Died`
      reaches this entity's `EndGame`. */
  function Update(s: SorcererState, h: HR.Reserve, g: GM.Game, dt: real): (f: Frame)
    ensures !s.onFire ==> f == Frame(s, h, g, [])
    ensures f.sorcerer == s.(damageTimer := Burning.Tick(s.onFire, s.damageTimer, dt).timer)
    ensures Burning.Tick(s.onFire, s.damageTimer, dt).hit ==>
      f.health == HR.Modify(h, -Burning.BurnDamage).state
      && DamagePopup(Burning.BurnDamage.Floor, false) in f.events
    ensures !Burning.Tick(s.onFire, s.damageTimer, dt).hit ==> f.health == h && f.game == g && f.events == []
  {
    var b := Burning.Tick(s.onFire, s.damageTimer, dt);
    var s' := s.(damageTimer := b.timer);
    if b.hit then
      var o := SCT.TakeDamage(h, g, Burning.BurnDamage, true);
      Frame(s', o.health, o.game, o.events)
    else Frame(s', h, g, [])
  }

  /** A burn hit that empties the reserve while the match runs ends it. */
  lemma BurnCanEndTheMatch(s: SorcererState, h: HR.Reserve, g: GM.Game, dt: real)
    requires s.onFire && s.damageTimer + dt >= Burning.BurnInterval
    requires g.state == Running && h.current <= Burning.BurnDamage && h.max >= 0.0
    ensures Died in Update(s, h, g, dt).events
    ensures Update(s, h, g, dt).game.state == Postgame
  {
    SCT.TakeDamageEvents(h, g, Burning.BurnDamage, true);
  }

  /** The `Died` handler: `EndGame(true)`, a win for the swordsman. */
  function OnDied(g: GM.Game): (e: GM.SceneLoad)
    ensures e.step.state.state == Postgame
    ensures e.transition.scene == "WinScene"
  {
    GM.SceneLoad(GM.EndGame(g), GM.ResultTransition(true))
  }
}
