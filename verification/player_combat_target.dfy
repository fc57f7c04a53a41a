/** The swordsman's combat target (Combat/PlayerCombatTarget.cs): health
    intake, death, and the wall sensors masked on every hit.
    `Empty` of the health reserve is wired to `Die`. When `endGameOnDeath`
    holds, `Died` also reaches the player's `EndGame` handler
    (Entity/Player/Player.cs), which ends the match within the same call. */
module PlayerCombatTarget {
  import opened Kinds
  import opened Events
  import opened Wrappers
  import HR = HealthReserve
  import WS = WallSensor2D
  import GM = GameManager

  datatype Target = Target(
    health: HR.Reserve,
    left: Option<WS.WallSensor>,     // null sensors are allowed by the source
    right: Option<WS.WallSensor>)

  /** A step of the target together with the game manager it reads and may end. */
  datatype Outcome = Outcome(target: Target, game: GM.Game, events: seq<Event>)

  const HurtDisableMovementTime: real := 0.1
  const WallSensorDisableTime: real := 0.8

  /** A present sensor masked for the wall-sensor disable time by a fresh routine. */
  predicate MaskedNow(before: Option<WS.WallSensor>, after: Option<WS.WallSensor>) {
    && before.Some? == after.Some?
    && (after.Some? ==>
          after.value.disabled && after.value.disableFor == WallSensorDisableTime
          && after.value.live && after.value.epoch == before.value.epoch + 1
          && after.value.stored == before.value.stored)
  }

  function DisableSensor(s: Option<WS.WallSensor>): (t: Option<WS.WallSensor>)
    ensures MaskedNow(s, t)
  {
    match s
    case None => None
    case Some(w) => Some(WS.Disable(w, WallSensorDisableTime))
  }

  /** `DisableWallSensors`: each sensor that is present is masked for 0.8. */
  function DisableWallSensors(t: Target): (u: Target)
    ensures u.health == t.health
    ensures MaskedNow(t.left, u.left) && MaskedNow(t.right, u.right)
  {
    t.(left := DisableSensor(t.left), right := DisableSensor(t.right))
  }

  /** `Die`: only while the match runs, mask the sensors and raise `Died`. */
  function Die(t: Target, g: GM.Game, endGameOnDeath: bool): (o: Outcome)
    ensures g.state != Running ==> o == Outcome(t, g, [])
    ensures g.state == Running ==> |o.events| >= 1 && o.events[0] == Died && Died !in o.events[1..]
    ensures Count(o.events, Died) == (if g.state == Running then 1 else 0)
    ensures g.state == Running && !endGameOnDeath ==> o.events == [Died]
    ensures g.state == Running ==> o.target == DisableWallSensors(t)
    ensures g.state == Running && endGameOnDeath ==> o.game.state == Postgame
    ensures !(g.state == Running && endGameOnDeath) ==> o.game == g
    ensures DamageTaken !in o.events
  {
    if g.state == Running then
      var masked := DisableWallSensors(t);
      if endGameOnDeath then
        var ended := GM.EndGame(g);
        Outcome(masked, ended.state, [Died] + ended.events)
      else Outcome(masked, g, [Died])
    else Outcome(t, g, [])
  }

  /** A write to the reserve followed by the handler `Empty` is wired to. */
  function AfterWrite(t: Target, g: GM.Game, w: Step<HR.Reserve>, endGameOnDeath: bool): (o: Outcome)
    ensures Empty in w.events ==>
              var d := Die(t.(health := w.state), g, endGameOnDeath);
              o == Outcome(d.target, d.game, w.events + d.events)
    ensures Empty !in w.events ==> o == Outcome(t.(health := w.state), g, w.events)
  {
    var written := t.(health := w.state);
    if Empty in w.events then
      var d := Die(written, g, endGameOnDeath);
      Outcome(d.target, d.game, w.events + d.events)
    else Outcome(written, g, w.events)
  }

  /** `Start`: the reserve is filled to the stats' maximum health. */
  function Start(t: Target, g: GM.Game, maxHealth: real, endGameOnDeath: bool): (o: Outcome)
    ensures o.target.health == HR.Reserve(maxHealth, maxHealth)
    ensures |o.events| >= 1 && o.events[|o.events| - 1] == MaxChanged(maxHealth)
    ensures maxHealth != 0.0 ==> o.game == g && Died !in o.events
  {
    var filled := HR.SetCurrent(t.health.(max := maxHealth), maxHealth);
    var o := AfterWrite(t, g, filled, endGameOnDeath);
    Outcome(o.target, o.game, o.events + [MaxChanged(maxHealth)])
  }

  /** What `TakeDamage` raises after the reserve write and its handler. */
  function Aftermath(phase: GameState, damage: real): (evs: seq<Event>)
    ensures |evs| >= 2 && evs[0] == DisableMove(HurtDisableMovementTime)
    ensures evs[|evs| - 1] == DamagePopup(damage.Floor, true)
    ensures DamageTaken in evs <==> phase == Running
    ensures Died !in evs
  {
    [DisableMove(HurtDisableMovementTime)]
    + (if phase == Running then [DamageTaken] else [])
    + [DamagePopup(damage.Floor, true)]
  }

  /** `TakeDamage(damage)`: the reserve write (with `Die` on `Empty`), the
      movement disable, the sensor mask, `DamageTaken` if the match is (still)
      running, and the popup request. */
  function TakeDamage(t: Target, g: GM.Game, damage: real, endGameOnDeath: bool): (o: Outcome)
    // health always changes, whatever the phase of the match
    ensures o.target.health == HR.Modify(t.health, -damage).state
    // movement and wall sensors are always disabled
    ensures DisableMove(HurtDisableMovementTime) in o.events
    ensures o.target.left.Some? == t.left.Some? && o.target.right.Some? == t.right.Some?
    ensures o.target.left.Some? ==> o.target.left.value.disabled && o.target.left.value.disableFor == WallSensorDisableTime
    ensures o.target.right.Some? ==> o.target.right.value.disabled && o.target.right.value.disableFor == WallSensorDisableTime
    // the popup request always closes the call
    ensures |o.events| >= 1 && o.events[|o.events| - 1] == DamagePopup(damage.Floor, true)
  {
    var w := HR.Modify(t.health, -damage);
    var a := AfterWrite(t, g, w, endGameOnDeath);
    Outcome(DisableWallSensors(a.target), a.game, a.events + Aftermath(a.game.state, damage))
  }

  /** Death during a hit: only while the match runs, only on a write that
      leaves 0, at most once per call; with the player's handler wired the
      match is over afterwards, otherwise the phase is untouched. */
  lemma {:induction false} TakeDamageDeath(t: Target, g: GM.Game, damage: real, endGameOnDeath: bool)
    ensures var o := TakeDamage(t, g, damage, endGameOnDeath);
            && (Died in o.events <==> g.state == Running && o.target.health.current == 0.0)
            && Count(o.events, Died) <= 1
            && (endGameOnDeath && Died in o.events ==> o.game.state == Postgame)
            && (Died !in o.events ==> o.game == g)
  {
    var w := HR.Modify(t.health, -damage);
    HR.EmptyIffZero(t.health, -damage);
    var a := AfterWrite(t, g, w, endGameOnDeath);
    AfterWriteDeath(t, g, w, endGameOnDeath);
    var tail := Aftermath(a.game.state, damage);
    CountAppend(a.events, tail, Died);
  }

  /** The reserve write and its handler raise `Died` at most once, exactly
      when the write empties the reserve during a match. */
  lemma AfterWriteDeath(t: Target, g: GM.Game, w: Step<HR.Reserve>, endGameOnDeath: bool)
    requires Died !in w.events
    ensures var a := AfterWrite(t, g, w, endGameOnDeath);
            && (Died in a.events <==> Empty in w.events && g.state == Running)
            && Count(a.events, Died) <= 1
            && (endGameOnDeath && Died in a.events ==> a.game.state == Postgame)
            && (Died !in a.events ==> a.game == g)
  {
    if Empty in w.events {
      var d := Die(t.(health := w.state), g, endGameOnDeath);
      CountAppend(w.events, d.events, Died);
    }
  }

  /** `DamageTaken` reads the phase after the death handler ran: without the
      end-of-match handler it fires exactly while running; with it, a lethal
      hit ends the match first and `DamageTaken` is not raised. */
  lemma TakeDamageHurt(t: Target, g: GM.Game, damage: real, endGameOnDeath: bool)
    ensures var o := TakeDamage(t, g, damage, endGameOnDeath);
            && (!endGameOnDeath ==> (DamageTaken in o.events <==> g.state == Running))
            && (endGameOnDeath ==>
                  (DamageTaken in o.events <==> g.state == Running && o.target.health.current != 0.0))
  {
    var w := HR.Modify(t.health, -damage);
    HR.EmptyIffZero(t.health, -damage);
    assert DamageTaken !in w.events;
  }

  /** Without the end-of-match handler, a lethal hit during a match raises
      `Died` before `DamageTaken` in the same call. */
  lemma DiedBeforeDamageTaken(t: Target, g: GM.Game, damage: real)
    requires g.state == Running
    requires HR.Modify(t.health, -damage).state.current == 0.0
    ensures var evs := TakeDamage(t, g, damage, false).events;
            exists i, j :: 0 <= i < j < |evs| && evs[i] == Died && evs[j] == DamageTaken
  {
    var w := HR.Modify(t.health, -damage);
    HR.EmptyIffZero(t.health, -damage);
    var d := Die(t.(health := w.state), g, false);
    assert d.events == [Died] && d.game == g;
    HitAfterWrite(t, g, w, damage);
  }

  /** A hit whose write raised `Empty` during a match, without the
      end-of-match handler: the write's events, `Died`, then the aftermath. */
  lemma HitAfterWrite(t: Target, g: GM.Game, w: Step<HR.Reserve>, damage: real)
    requires g.state == Running && Empty in w.events
    ensures var evs := AfterWrite(t, g, w, false).events + Aftermath(AfterWrite(t, g, w, false).game.state, damage);
            exists i, j :: 0 <= i < j < |evs| && evs[i] == Died && evs[j] == DamageTaken
  {
    var a := AfterWrite(t, g, w, false);
    assert a.events == w.events + [Died] && a.game == g;
    var tail := Aftermath(Running, damage);
    assert tail[1] == DamageTaken;
    var evs := a.events + tail;
    assert evs[|w.events|] == Died;
    assert evs[|a.events| + 1] == DamageTaken;
  }

  /** `Die` has no guard of its own: without the end-of-match handler every
      further hit at zero health during a match raises `Died` again. */
  lemma DiedRepeatsWithoutHandler(t: Target, g: GM.Game, damage: real)
    requires g.state == Running && t.health.current == 0.0 && t.health.max >= 0.0
    requires damage >= 0.0
    ensures var first := TakeDamage(t, g, damage, false);
            Died in first.events
            && Died in TakeDamage(first.target, first.game, damage, false).events
  {
    TakeDamageDeath(t, g, damage, false);
    var first := TakeDamage(t, g, damage, false);
    TakeDamageDeath(first.target, first.game, damage, false);
  }

  /** With the player's handler wired, the first lethal hit ends the match,
      so a later hit can no longer raise `Died`. */
  lemma DiedOnceWithHandler(t: Target, g: GM.Game, d1: real, d2: real)
    requires g.state == Running
    requires HR.Modify(t.health, -d1).state.current == 0.0
    ensures var first := TakeDamage(t, g, d1, true);
            Died in first.events && DamageTaken !in first.events
            && first.game.state == Postgame
            && Died !in TakeDamage(first.target, first.game, d2, true).events
  {
    TakeDamageDeath(t, g, d1, true);
    TakeDamageHurt(t, g, d1, true);
    var first := TakeDamage(t, g, d1, true);
    TakeDamageDeath(first.target, first.game, d2, true);
  }

  /** Before the countdown ends a hit is not reported; once it has, every
      hit that leaves the player alive raises `DamageTaken`. */
  lemma HitReportedOnceRunning(t: Target, g: GM.Game, damage: real, endGameOnDeath: bool)
    requires g.state == Pregame
    requires HR.Modify(t.health, -damage).state.current != 0.0
    ensures DamageTaken !in TakeDamage(t, g, damage, endGameOnDeath).events
    ensures DamageTaken in TakeDamage(t, GM.CountdownFinished(g).state, damage, endGameOnDeath).events
  {
    TakeDamageHurt(t, g, damage, endGameOnDeath);
    TakeDamageHurt(t, GM.CountdownFinished(g).state, damage, endGameOnDeath);
  }
}
