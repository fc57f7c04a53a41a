/** Horizontal movement (Movement/Mover2D.cs): the move direction follows
    the sign of the input's x, and each physics step either stops a grounded
    idle entity, leaves an airborne idle or locked-out one alone, or eases
    its x velocity toward `MaxSpeed` in the move direction. */
module Mover2D {
  import opened Kinds
  import opened Events
  import MoveTimer

  const DefaultMaxSpeed: real := 3.0
  const DefaultAccelRate: real := 5.0

  datatype Mover = Mover(moveDir: int, disableTimer: real, maxSpeed: real, xAccelRate: real)

  /** A new mover: no direction, not locked out, default tuning. */
  function Init(): (m: Mover)
    ensures m.moveDir == 0 && MoveTimer.Enabled(m.disableTimer)
    ensures m.maxSpeed == DefaultMaxSpeed && m.xAccelRate == DefaultAccelRate
  {
    Mover(0, 0.0, DefaultMaxSpeed, DefaultAccelRate)
  }

  /** The move direction is the sign of the input's x (0 exactly for 0), and
      the direction is announced on every call, even when it did not change
      and even when it is 0. */
  function UpdateMoveDir(m: Mover, input: Vec): (r: Step<Mover>)
    ensures -1 <= r.state.moveDir <= 1
    ensures r.state.moveDir == 0 <==> input.x == 0.0
    ensures r.state.moveDir == 1 <==> input.x > 0.0
    ensures r.state == m.(moveDir := r.state.moveDir)
    ensures r.events == [DirectionChanged(r.state.moveDir)]
  {
    var dir := if input.x != 0.0 then Sign(input.x) else 0;
    Step(m.(moveDir := dir), [DirectionChanged(dir)])
  }

  /** A new lock-out replaces the current one, whether longer or shorter. */
  function SetDisableMovementTimer(m: Mover, duration: real): (r: Mover)
    ensures MoveTimer.Enabled(r.disableTimer) <==> duration <= 0.0
    ensures MoveTimer.Run(r.disableTimer, [duration]) == 0.0
    ensures r.(disableTimer := m.disableTimer) == m
  {
    m.(disableTimer := duration)
  }

  /** `Update`: only the lock-out timer changes, dropping by the frame
      time; a finished lock-out stays finished. */
  function Update(m: Mover, dt: real): (r: Mover)
    ensures m.disableTimer - r.disableTimer == dt
    ensures dt >= 0.0 && MoveTimer.Enabled(m.disableTimer) ==> MoveTimer.Enabled(r.disableTimer)
    ensures r.(disableTimer := m.disableTimer) == m
  {
    m.(disableTimer := MoveTimer.Tick(m.disableTimer, dt))
  }

  function Run(m: Mover, dts: seq<real>): Mover
    decreases |dts|
  {
    if dts == [] then m else Run(Update(m, dts[0]), dts[1..])
  }

  /** Unity's `Mathf.Lerp`: the interpolation factor is clamped to [0, 1]. */
  function Lerp(a: real, b: real, t: real): (r: real)
    ensures a <= r <= b || b <= r <= a
    ensures t >= 1.0 ==> r == b
    ensures t <= 0.0 ==> r == a
  {
    var c := if t < 0.0 then 0.0 else if t > 1.0 then 1.0 else t;
    var d := b - a;
    ScaledStep(d, c);
    a + d * c
  }

  /** A fraction of a difference lies between zero and the difference. */
  lemma ScaledStep(d: real, c: real)
    requires 0.0 <= c <= 1.0
    ensures 0.0 <= d * c <= d || d <= d * c <= 0.0
  {
    if d >= 0.0 {
      assert d * c <= d * 1.0;
    } else {
      assert d * c >= d * 1.0;
    }
  }

  /** One physics step with the ground sensor reading `grounded`, current
      velocity `vel` and fixed frame time `fixedDt`: the velocity the body
      has afterwards. */
  function FixedUpdate(m: Mover, grounded: bool, vel: Vec, fixedDt: real): (v: Vec)
    ensures v.y == vel.y
    ensures m.moveDir == 0 && grounded ==> v.x == 0.0
    ensures m.moveDir == 0 && !grounded ==> v == vel
    ensures m.moveDir != 0 && !MoveTimer.Enabled(m.disableTimer) ==> v == vel
    ensures m.moveDir != 0 && MoveTimer.Enabled(m.disableTimer) ==>
      var target := m.maxSpeed * (m.moveDir as real);
      (vel.x <= v.x <= target || target <= v.x <= vel.x) &&
      (m.xAccelRate * fixedDt >= 1.0 ==> v.x == target)
  {
    if m.moveDir == 0 then
      if grounded then Vec(0.0, vel.y) else vel
    else if MoveTimer.Enabled(m.disableTimer) then
      var target := m.maxSpeed * (m.moveDir as real);
      Vec(Lerp(vel.x, target, m.xAccelRate * fixedDt), vel.y)
    else vel
  }

  /** The timer after a run of frames is the timer before, less the time. */
  lemma {:induction false} RunCountsDown(m: Mover, dts: seq<real>)
    ensures Run(m, dts) == m.(disableTimer := MoveTimer.Run(m.disableTimer, dts))
    decreases |dts|
  {
    if dts != [] {
      RunCountsDown(Update(m, dts[0]), dts[1..]);
    }
  }

  /** After a lock-out of `d` seconds, a moving entity coasts (its velocity
      is left to physics) until `d` seconds have passed and is steered
      again from then on; an earlier lock-out makes no difference, since
      the last one overwrites it. */
  lemma LockoutHoldsSteering(m: Mover, earlier: real, d: real, dts: seq<real>,
                             grounded: bool, vel: Vec, fixedDt: real)
    requires m.moveDir != 0
    ensures var locked := Run(SetDisableMovementTimer(SetDisableMovementTimer(m, earlier), d), dts);
      (Sum(dts) < d ==> FixedUpdate(locked, grounded, vel, fixedDt) == vel) &&
      (Sum(dts) >= d ==> MoveTimer.Enabled(locked.disableTimer))
  {
    var locked := Run(SetDisableMovementTimer(SetDisableMovementTimer(m, earlier), d), dts);
    RunCountsDown(SetDisableMovementTimer(m, d), dts);
    assert SetDisableMovementTimer(SetDisableMovementTimer(m, earlier), d) == SetDisableMovementTimer(m, d);
    MoveTimer.LockoutLastsItsDuration(d, dts);
  }
}
