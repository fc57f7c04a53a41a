/** Air dashes (Movement/Dasher2D.cs): one dash per touch of the ground or
    a wall. The charge comes back on contact, and is checked after the
    recharge in the same step, so a press on the ground or a wall always
    dashes when there is an input direction. */
module Dasher2D {
  import opened Kinds
  import opened Events

  datatype Dasher = Dasher(pressedDash: bool, canDash: bool, moveInput: Vec)

  datatype DashStep = DashStep(state: Dasher, velocity: Vec, events: seq<Event>)

  /** `UpdateMoveInput`: the next dash goes along this input; nothing else changes. */
  function UpdateMoveInput(d: Dasher, input: Vec): (r: Dasher)
    ensures r.moveInput == input
    ensures r.(moveInput := d.moveInput) == d
  {
    d.(moveInput := input)
  }

  /** Whether the entity touches something that recharges the dash. */
  predicate Contact(grounded: bool, left: bool, right: bool) {
    grounded || left || right
  }

  /** One physics step with the three sensor readings and the current
      velocity; `power` is the dash power. */
  function FixedUpdate(d: Dasher, power: real, grounded: bool, left: bool, right: bool,
                       vel: Vec): (r: DashStep)
    ensures !r.state.pressedDash && r.state.moveInput == d.moveInput
    ensures r.events == [DashStarted] <==>
      (d.canDash || Contact(grounded, left, right)) && d.pressedDash && d.moveInput != Vec(0.0, 0.0)
    ensures r.events == [] || r.events == [DashStarted]
    ensures r.events == [DashStarted] ==>
      !r.state.canDash &&
      r.velocity == Vec(d.moveInput.x * 2.0 * power, d.moveInput.y * power)
    ensures r.events == [] ==>
      r.velocity == vel && (r.state.canDash <==> d.canDash || Contact(grounded, left, right))
  {
    var charged := d.canDash || Contact(grounded, left, right);
    if charged && d.pressedDash && d.moveInput != Vec(0.0, 0.0) then
      DashStep(d.(canDash := false, pressedDash := false),
               Vec(d.moveInput.x * 2.0 * power, d.moveInput.y * power), [DashStarted])
    else
      DashStep(d.(canDash := charged, pressedDash := false), vel, [])
  }

  /** A run of physics steps spent in the air away from walls, with the
      player pressing dash (or not) before each one. */
  function Airborne(d: Dasher, power: real, presses: seq<bool>, vel: Vec): (r: DashStep)
    decreases |presses|
  {
    if presses == [] then DashStep(d, vel, [])
    else
      var s := FixedUpdate(d.(pressedDash := presses[0]), power, false, false, false, vel);
      var rest := Airborne(s.state, power, presses[1..], s.velocity);
      DashStep(rest.state, rest.velocity, s.events + rest.events)
  }

  /** However often dash is pressed, an entity gets at most one dash
      between two contacts, and none if it left without a charge. */
  lemma {:induction false} OneDashPerFlight(d: Dasher, power: real, presses: seq<bool>, vel: Vec)
    ensures var r := Airborne(d, power, presses, vel);
      Count(r.events, DashStarted) <= (if d.canDash then 1 else 0) &&
      (Count(r.events, DashStarted) == 1 ==> !r.state.canDash) &&
      (Count(r.events, DashStarted) == 0 ==> r.state.canDash == d.canDash)
    decreases |presses|
  {
    if presses != [] {
      var s := FixedUpdate(d.(pressedDash := presses[0]), power, false, false, false, vel);
      var rest := Airborne(s.state, power, presses[1..], s.velocity);
      OneDashPerFlight(s.state, power, presses[1..], s.velocity);
      CountAppend(s.events, rest.events, DashStarted);
    }
  }
}
