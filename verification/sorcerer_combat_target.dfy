/** The sorcerer's combat target (Combat/SorcererCombatTarget.cs). It has
    no movement or sensor side effects. `Empty` is wired to `Die`; when
    `endGameOnDeath` holds, `Died` also reaches the sorcerer's `EndGame`
    handler (Entity/Enemy/Sorcerer.cs), which ends the match at once. */
module SorcererCombatTarget {
  import opened Kinds
  import opened Events
  import HR = HealthReserve
  import GM = GameManager

  datatype Outcome = Outcome(health: HR.Reserve, game: GM.Game, events: seq<Event>)

  /** `Die`: `Died` only while the match runs. */
  function Die(h: HR.Reserve, g: GM.Game, endGameOnDeath: bool): (o: Outcome)
    ensures o.health == h
    ensures g.state != Running ==> o == Outcome(h, g, [])
    ensures g.state == Running ==> |o.events| >= 1 && o.events[0] == Died && Died !in o.events[1..]
    ensures g.state == Running && endGameOnDeath ==> o.game.state == Postgame
    ensures !(g.state == Running && endGameOnDeath) ==> o.game == g
    ensures DamageTaken !in o.events
  {
    if g.state == Running then
      if endGameOnDeath then
        var ended := GM.EndGame(g);
        Outcome(h, ended.state, [Died] + ended.events)
      else Outcome(h, g, [Died])
    else Outcome(h, g, [])
  }

  /** A reserve write followed by `Die` when it raised `Empty`. */
  function AfterWrite(g: GM.Game, w: Step<HR.Reserve>, endGameOnDeath: bool): (o: Outcome)
    ensures o.health == w.state
    ensures Empty in w.events ==>
              var d := Die(w.state, g, endGameOnDeath);
              o == Outcome(w.state, d.game, w.events + d.events)
    ensures Empty !in w.events ==> o == Outcome(w.state, g, w.events)
  {
    if Empty in w.events then
      var d := Die(w.state, g, endGameOnDeath);
      Outcome(w.state, d.game, w.events + d.events)
    else Outcome(w.state, g, w.events)
  }

  /** `Start`: full health at the stats' maximum. */
  function Start(h: HR.Reserve, g: GM.Game, maxHealth: real, endGameOnDeath: bool): (o: Outcome)
    ensures o.health == HR.Reserve(maxHealth, maxHealth)
    ensures |o.events| >= 1 && o.events[|o.events| - 1] == MaxChanged(maxHealth)
    ensures maxHealth != 0.0 ==> o.game == g && Died !in o.events
  {
    var filled := HR.SetCurrent(h.(max := maxHealth), maxHealth);
    var o := AfterWrite(g, filled, endGameOnDeath);
    Outcome(o.health, o.game, o.events + [MaxChanged(maxHealth)])
  }

  /** `TakeDamage(damage)`: the write (and `Die` on `Empty`), `DamageTaken`
      if the match is (still) running, then the popup request. */
  function TakeDamage(h: HR.Reserve, g: GM.Game, damage: real, endGameOnDeath: bool): (o: Outcome)
    ensures o.health == HR.Modify(h, -damage).state
    ensures |o.events| >= 1 && o.events[|o.events| - 1] == DamagePopup(damage.Floor, false)
  {
    var a := AfterWrite(g, HR.Modify(h, -damage), endGameOnDeath);
    var hurt := if a.game.state == Running then [DamageTaken] else [];
    Outcome(a.health, a.game, a.events + hurt + [DamagePopup(damage.Floor, false)])
  }

  /** Which notifications a hit raises: `Died` only while running on a write
      that leaves 0; `DamageTaken` while the match is still running after the
      death handler; never a movement disable or a sensor change. */
  lemma TakeDamageEvents(h: HR.Reserve, g: GM.Game, damage: real, endGameOnDeath: bool)
    ensures var o := TakeDamage(h, g, damage, endGameOnDeath);
            && (Died in o.events <==> g.state == Running && o.health.current == 0.0)
            && (!endGameOnDeath ==> (DamageTaken in o.events <==> g.state == Running))
            && (endGameOnDeath ==>
                  (DamageTaken in o.events <==> g.state == Running && o.health.current != 0.0))
            && (endGameOnDeath && Died in o.events ==> o.game.state == Postgame)
            && (Died !in o.events ==> o.game == g)
            && (forall e | e in o.events :: !e.DisableMove? && !e.SensorStateChanged?)
  {
    var w := HR.Modify(h, -damage);
    HR.EmptyIffZero(h, -damage);
    assert Died !in w.events && DamageTaken !in w.events;
  }
}
