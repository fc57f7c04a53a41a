/** A stationary enemy (Entity/Enemy/Enemy.cs). Its `Empty` subscription
    exists only while the component is enabled; `TakeDamage` has no
    dependence on the phase of the match. */
module Enemy {
  import opened Events
  import HR = HealthReserve

  datatype EnemyTarget = EnemyTarget(
    health: HR.Reserve,
    enabled: bool,      // `Die` is subscribed to `Empty`
    destroyed: bool)    // `Destroy(gameObject)` was requested

  /** `OnEnable` / `OnDisable`: subscribe or unsubscribe `Die`. */
  function SetEnabled(e: EnemyTarget, on: bool): EnemyTarget {
    e.(enabled := on)
  }

  /** `Die`: request destruction and raise `Died`, unconditionally. */
  function Die(e: EnemyTarget): (o: Step<EnemyTarget>)
    ensures o.state == e.(destroyed := true)
    ensures o.events == [Died]
  {
    Step(e.(destroyed := true), [Died])
  }

  /** A reserve write followed by `Die` if it raised `Empty` while subscribed. */
  function AfterWrite(e: EnemyTarget, w: Step<HR.Reserve>): (o: Step<EnemyTarget>)
    ensures o.state.health == w.state && o.state.enabled == e.enabled
    ensures Died in o.events <==> Died in w.events || (Empty in w.events && e.enabled)
    ensures o.state.destroyed <==> e.destroyed || (Empty in w.events && e.enabled)
  {
    var written := e.(health := w.state);
    if Empty in w.events && e.enabled then
      var d := Die(written);
      Step(d.state, w.events + d.events)
    else Step(written, w.events)
  }

  /** `Start`: full health at the stats' maximum. */
  function Start(e: EnemyTarget, maxHealth: real): (o: Step<EnemyTarget>)
    ensures o.state.health == HR.Reserve(maxHealth, maxHealth)
    ensures |o.events| >= 1 && o.events[|o.events| - 1] == MaxChanged(maxHealth)
  {
    var a := AfterWrite(e, HR.SetCurrent(e.health.(max := maxHealth), maxHealth));
    Step(a.state, a.events + [MaxChanged(maxHealth)])
  }

  /** `TakeDamage(damage)`: the write, then `DamageTaken` always, then a
      damage indicator showing the damage rounded down. */
  function TakeDamage(e: EnemyTarget, damage: real): (o: Step<EnemyTarget>)
    ensures o.state.health == HR.Modify(e.health, -damage).state
    ensures DamageTaken in o.events
    ensures |o.events| >= 1 && o.events[|o.events| - 1] == IndicatorSpawned(damage.Floor)
    ensures Died in o.events <==> e.enabled && o.state.health.current == 0.0
    ensures o.state.enabled == e.enabled
  {
    var w := HR.Modify(e.health, -damage);
    HR.EmptyIffZero(e.health, -damage);
    assert Died !in w.events;
    var a := AfterWrite(e, w);
    Step(a.state, a.events + [DamageTaken, IndicatorSpawned(damage.Floor)])
  }

  /** A disabled enemy never dies, however hard it is hit. */
  lemma DisabledNeverDies(e: EnemyTarget, damage: real)
    requires !e.enabled
    ensures Died !in TakeDamage(e, damage).events
    ensures !TakeDamage(e, damage).state.destroyed <==> !e.destroyed
  {
    var w := HR.Modify(e.health, -damage);
    assert Died !in w.events;
  }

  /** Whether a hit can kill is decided by the latest enable or disable:
      after `OnEnable` an emptying hit destroys the enemy, after `OnDisable`
      none does; health and the reports are the same either way. */
  lemma EnabledDecidesDeath(e: EnemyTarget, on: bool, damage: real)
    ensures var o := TakeDamage(SetEnabled(e, on), damage);
            (Died in o.events <==> on && HR.Modify(e.health, -damage).state.current == 0.0)
            && (o.state.destroyed <==> e.destroyed || Died in o.events)
            && o.state.health == TakeDamage(e, damage).state.health
            && DamageTaken in o.events
  {
    var w := HR.Modify(e.health, -damage);
    HR.EmptyIffZero(e.health, -damage);
    assert Died !in w.events;
  }
}
