/** Wall jumps and wall slides (Movement/WallJumper2D.cs). While touching a
    wall, a jump press kicks the entity off the wall, as a climb when it is
    pushing into the wall and as a leap away otherwise, and a fall is capped
    at the slide speed. Without a wall the press is dropped. */
module WallJumper2D {
  import opened Kinds
  import opened Events
  import Mover2D

  datatype WallConfig = WallConfig(slideSpeed: real, offVelocity: Vec, climbVelocity: Vec)

  datatype WallJumper = WallJumper(pressedJump: bool, moveDir: int)

  /** The state after a physics step, the body's velocity, and the
      notifications raised. */
  datatype WallStep = WallStep(state: WallJumper, velocity: Vec, events: seq<Event>)

  /** Unlike the mover, the wall jumper updates its direction silently. */
  function UpdateMoveDir(w: WallJumper, input: Vec): (r: WallJumper)
    ensures r.pressedJump == w.pressedJump
    ensures r.moveDir == 0 <==> input.x == 0.0
  {
    w.(moveDir := if input.x != 0.0 then Sign(input.x) else 0)
  }

  /** The controller feeds the same input to the mover and the wall jumper,
      and they settle on the same direction. */
  lemma AgreesWithMover(w: WallJumper, m: Mover2D.Mover, input: Vec)
    ensures UpdateMoveDir(w, input).moveDir == Mover2D.UpdateMoveDir(m, input).state.moveDir
  {
  }

  /** Which side the wall is on: 1 for a wall on the right, which wins when
      both sensors fire, -1 for one on the left only, 0 for none. */
  function WallDir(left: bool, right: bool): (d: int)
    ensures d == 1 <==> right
    ensures d == -1 <==> left && !right
    ensures d == 0 <==> !left && !right
  {
    if right then 1 else if left then -1 else 0
  }

  /** The kick off a wall on side `wallDir`: nothing when grounded; a climb
      when pushing into the wall; otherwise a leap that also turns the entity
      away from the wall. */
  function StartWallJump(w: WallJumper, cfg: WallConfig, wallDir: int, grounded: bool, vel: Vec): (r: Step<Vec>)
    ensures grounded ==> r == Step(vel, [])
    ensures !grounded && w.moveDir == wallDir ==>
      r.state == Vec(-(wallDir as real) * cfg.climbVelocity.x, cfg.climbVelocity.y) &&
      r.events == [JumpStarted]
    ensures !grounded && w.moveDir != wallDir ==>
      r.state == Vec(-(wallDir as real) * cfg.offVelocity.x, cfg.offVelocity.y) &&
      r.events == [DirectionChanged(-wallDir), JumpStarted]
  {
    if grounded then Step(vel, [])
    else if w.moveDir == wallDir then
      Step(Vec(-(wallDir as real) * cfg.climbVelocity.x, cfg.climbVelocity.y), [JumpStarted])
    else
      Step(Vec(-(wallDir as real) * cfg.offVelocity.x, cfg.offVelocity.y),
           [DirectionChanged(-wallDir), JumpStarted])
  }

  /** The wall slide: a fall faster than the slide speed is cut to it. */
  function Slide(vel: Vec, slideSpeed: real): (v: Vec)
    ensures v.x == vel.x
    ensures v.y < 0.0 ==> -v.y <= slideSpeed
    ensures vel.y >= 0.0 || -vel.y <= slideSpeed ==> v == vel
  {
    if vel.y < 0.0 && -vel.y > slideSpeed then Vec(vel.x, -slideSpeed) else vel
  }

  /** One physics step with the three sensor readings and the current
      velocity. */
  function FixedUpdate(w: WallJumper, cfg: WallConfig, left: bool, right: bool,
                       grounded: bool, vel: Vec): (r: WallStep)
    ensures !r.state.pressedJump && r.state.moveDir == w.moveDir
    ensures !left && !right ==> r.velocity == vel && r.events == []
    ensures JumpStarted in r.events <==> w.pressedJump && (left || right) && !grounded
    ensures (left || right) && r.velocity.y < 0.0 ==> -r.velocity.y <= cfg.slideSpeed
    ensures (left || right) && w.pressedJump && !grounded ==>
      r.velocity == Slide(StartWallJump(w, cfg, WallDir(left, right), false, vel).state, cfg.slideSpeed)
    ensures (left || right) && (!w.pressedJump || grounded) ==>
      r.velocity == Slide(vel, cfg.slideSpeed) && r.events == []
  {
    if left || right then
      var kick := if w.pressedJump then StartWallJump(w, cfg, WallDir(left, right), grounded, vel)
                  else Step(vel, []);
      WallStep(w.(pressedJump := false), Slide(kick.state, cfg.slideSpeed), kick.events)
    else
      WallStep(w.(pressedJump := false), vel, [])
  }

  /** A leap off a wall sends the entity away from the wall: the direction
      it announces is the opposite side, and with a positive jump-off speed
      its x velocity points that way. A climb announces no direction. */
  lemma WallJumpFacesAway(w: WallJumper, cfg: WallConfig, left: bool, right: bool, vel: Vec)
    requires (left || right) && w.pressedJump
    requires cfg.offVelocity.x > 0.0
    ensures var r := FixedUpdate(w, cfg, left, right, false, vel);
      var away := -WallDir(left, right);
      (w.moveDir != -away ==>
        DirectionChanged(away) in r.events && Sign(r.velocity.x) == away) &&
      (w.moveDir == -away ==> forall e | e in r.events :: !e.DirectionChanged?)
  {
    var away := -WallDir(left, right);
    var kick := StartWallJump(w, cfg, WallDir(left, right), false, vel);
    if w.moveDir != -away {
      assert kick.state.x == (away as real) * cfg.offVelocity.x;
      assert Sign(kick.state.x) == away;
    }
  }
}
