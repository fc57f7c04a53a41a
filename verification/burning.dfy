/** The burn tick the player and the sorcerer share (the `Update` of
    Entity/Player/Player.cs and Entity/Enemy/Sorcerer.cs): while on fire the
    damage timer accumulates frame time, and each time it reaches the burn
    interval it starts over and the entity takes the burn damage. */
module Burning {
  import opened Kinds

  const BurnInterval: real := 2.0
  const BurnDamage: real := 2.0

  datatype Burn = Burn(timer: real, hit: bool)

  /** One frame of `dt` seconds. */
  function Tick(onFire: bool, timer: real, dt: real): (b: Burn)
    ensures b.hit <==> onFire && timer + dt >= BurnInterval
    ensures b.hit ==> b.timer == 0.0
    ensures onFire && !b.hit ==> b.timer == timer + dt
    ensures !onFire ==> b.timer == timer
  {
    if !onFire then Burn(timer, false)
    else if timer + dt >= BurnInterval then Burn(0.0, true)
    else Burn(timer + dt, false)
  }

  /** With frame times that are never negative, a timer that starts inside
      the interval stays inside it. */
  lemma TimerStaysBelowInterval(onFire: bool, timer: real, dt: real)
    requires 0.0 <= timer < BurnInterval && dt >= 0.0
    ensures 0.0 <= Tick(onFire, timer, dt).timer < BurnInterval
  {
  }

  /** The timer and the number of hits after a run of frames spent on fire. */
  function Run(timer: real, dts: seq<real>): (r: (real, nat))
    decreases |dts|
  {
    if dts == [] then (timer, 0)
    else
      var b := Tick(true, timer, dts[0]);
      var rest := Run(b.timer, dts[1..]);
      (rest.0, rest.1 + (if b.hit then 1 else 0))
  }

  /** Every burn hit consumes a full interval of accumulated time, so over a
      run the damage dealt never outpaces the time spent on fire. */
  lemma {:induction false} BurnNeverOutpacesTime(timer: real, dts: seq<real>)
    requires timer >= 0.0
    requires forall i | 0 <= i < |dts| :: dts[i] >= 0.0
    ensures var r := Run(timer, dts);
      BurnInterval * (r.1 as real) + r.0 <= timer + Sum(dts) && r.0 >= 0.0
    decreases |dts|
  {
    if dts != [] {
      var b := Tick(true, timer, dts[0]);
      BurnNeverOutpacesTime(b.timer, dts[1..]);
    }
  }
}
