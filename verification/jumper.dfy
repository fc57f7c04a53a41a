/** Ground jumps (Movement/Jumper2D.cs): a press starts a jump only from the
    ground and outside a movement lock-out; the jump rises without gravity
    until the button is released or the rise passes the height cap, and
    then gravity comes back. */
module Jumper2D {
  import opened Kinds
  import opened Events
  import MoveTimer

  /** The component's inspector parameters. */
  datatype JumpConfig = JumpConfig(jumpForce: real, gravityScale: real, maxJumpHeight: real)

  const DefaultConfig := JumpConfig(5.0, 1.0, 5.5)

  /** The component's state; `gravity` is the rigid body's gravity scale as
      this component last left it, and `startY` the height the current jump
      started from. */
  datatype Jumper = Jumper(pressedJump: bool, releasedJump: bool, disableTimer: real,
                           startY: real, gravity: real)

  /** Whether a press in this step launches: the ground sensor is active
      and the lock-out is over. */
  predicate CanLaunch(j: Jumper, grounded: bool) {
    grounded && MoveTimer.Enabled(j.disableTimer)
  }

  /** A press is consumed whether or not it launches; a launch records the
      take-off height, switches gravity off and announces the jump (the
      upward impulse of `jumpForce` goes with it). */
  function StartJump(j: Jumper, grounded: bool, y: real): (r: Step<Jumper>)
    ensures !r.state.pressedJump
    ensures CanLaunch(j, grounded) ==>
      r.state == j.(pressedJump := false, startY := y, gravity := 0.0) && r.events == [JumpStarted]
    ensures !CanLaunch(j, grounded) ==> r.state == j.(pressedJump := false) && r.events == []
  {
    if CanLaunch(j, grounded) then
      Step(j.(startY := y, gravity := 0.0, pressedJump := false), [JumpStarted])
    else
      Step(j.(pressedJump := false), [])
  }

  /** Gravity returns and the release is consumed. */
  function StopJump(j: Jumper, cfg: JumpConfig): (r: Jumper)
    ensures r.gravity == cfg.gravityScale && !r.releasedJump
    ensures r.pressedJump == j.pressedJump && r.startY == j.startY && r.disableTimer == j.disableTimer
  {
    j.(gravity := cfg.gravityScale, releasedJump := false)
  }

  /** One physics step at height `y`: first the press, then the stop test
      against the height the jump started from (which a launch in this same
      step has just set to `y`). */
  function FixedUpdate(j: Jumper, cfg: JumpConfig, grounded: bool, y: real): (r: Step<Jumper>)
    ensures !r.state.pressedJump && !r.state.releasedJump
    ensures r.state.disableTimer == j.disableTimer
    ensures JumpStarted in r.events <==> j.pressedJump && CanLaunch(j, grounded)
    ensures r.events == [] || r.events == [JumpStarted]
    ensures r.state.startY == (if JumpStarted in r.events then y else j.startY)
    ensures j.releasedJump || y - r.state.startY > cfg.maxJumpHeight ==>
      r.state.gravity == cfg.gravityScale
    ensures JumpStarted in r.events && !j.releasedJump && cfg.maxJumpHeight >= 0.0 ==>
      r.state.gravity == 0.0
    ensures JumpStarted !in r.events && !j.releasedJump && y - j.startY <= cfg.maxJumpHeight ==>
      r.state.gravity == j.gravity
  {
    var pressed := if j.pressedJump then StartJump(j, grounded, y) else Step(j, []);
    var s := pressed.state;
    if s.releasedJump || y - s.startY > cfg.maxJumpHeight then
      Step(StopJump(s, cfg), pressed.events)
    else
      pressed
  }

  /** A new lock-out replaces the current one. */
  function SetDisableMovementTimer(j: Jumper, duration: real): (r: Jumper)
    ensures MoveTimer.Enabled(r.disableTimer) <==> duration <= 0.0
    ensures MoveTimer.Run(r.disableTimer, [duration]) == 0.0
    ensures r.(disableTimer := j.disableTimer) == j
  {
    j.(disableTimer := duration)
  }

  /** `Update`: only the lock-out timer changes, dropping by the frame
      time; a finished lock-out stays finished. */
  function Update(j: Jumper, dt: real): (r: Jumper)
    ensures j.disableTimer - r.disableTimer == dt
    ensures dt >= 0.0 && MoveTimer.Enabled(j.disableTimer) ==> MoveTimer.Enabled(r.disableTimer)
    ensures r.(disableTimer := j.disableTimer) == j
  {
    j.(disableTimer := MoveTimer.Tick(j.disableTimer, dt))
  }

  function Run(j: Jumper, dts: seq<real>): Jumper
    decreases |dts|
  {
    if dts == [] then j else Run(Update(j, dts[0]), dts[1..])
  }

  lemma {:induction false} RunCountsDown(j: Jumper, dts: seq<real>)
    ensures Run(j, dts) == j.(disableTimer := MoveTimer.Run(j.disableTimer, dts))
    decreases |dts|
  {
    if dts != [] {
      RunCountsDown(Update(j, dts[0]), dts[1..]);
    }
  }

  /** Within `d` seconds of a lock-out of `d` seconds, a jump press, even
      from the ground, is swallowed without a jump; once the time is up, a
      press from the ground jumps. */
  lemma LockoutSwallowsJumps(j: Jumper, cfg: JumpConfig, d: real, dts: seq<real>, grounded: bool, y: real)
    ensures var pressed := Run(SetDisableMovementTimer(j, d), dts).(pressedJump := true);
      var r := FixedUpdate(pressed, cfg, grounded, y);
      !r.state.pressedJump &&
      (JumpStarted in r.events <==> grounded && Sum(dts) >= d)
  {
    RunCountsDown(SetDisableMovementTimer(j, d), dts);
    MoveTimer.LockoutLastsItsDuration(d, dts);
  }

  /** A full jump: launched from the ground, gravity stays off while the
      button is held below the cap, and comes back on release. */
  lemma HeldJumpFloatsUntilRelease(j: Jumper, cfg: JumpConfig, y0: real, y1: real)
    requires MoveTimer.Enabled(j.disableTimer) && !j.releasedJump
    requires 0.0 <= y1 - y0 <= cfg.maxJumpHeight
    ensures var up := FixedUpdate(j.(pressedJump := true), cfg, true, y0);
      JumpStarted in up.events && up.state.gravity == 0.0 &&
      FixedUpdate(up.state, cfg, false, y1).state.gravity == 0.0 &&
      FixedUpdate(up.state.(releasedJump := true), cfg, false, y1).state.gravity == cfg.gravityScale
  {
  }
}
