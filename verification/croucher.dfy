/** Crouching (Movement/Croucher2D.cs): a press on the ground shrinks the
    collider for a fixed time, during which further presses are dropped;
    when the time is up the standing collider comes back and crouching is
    allowed again. The timed end is an explicit `Expired` input here. */
module Croucher2D {
  import opened Events

  /** Which of the two collider shapes the entity has. */
  datatype Collider = Standing | Crouching

  datatype Croucher = Croucher(canCrouch: bool, pressedCrouch: bool, collider: Collider)

  /** The state after `Start`: standing, allowed to crouch, no press pending. */
  function Init(): (c: Croucher)
    ensures Coherent(c) && c.canCrouch && !c.pressedCrouch
  {
    Croucher(true, false, Standing)
  }

  /** The entity crouches exactly when it is not crouching: only the
      crouch routine takes `canCrouch` away, and it restores it with the
      standing collider. */
  predicate Coherent(c: Croucher) {
    c.canCrouch <==> c.collider == Standing
  }

  /** One physics step with the ground sensor reading `grounded`. Starting
      a crouch leaves the press flag set; the next step, finding crouching
      locked, drops it. */
  function FixedUpdate(c: Croucher, grounded: bool): (r: Step<Croucher>)
    ensures r.events == [CrouchStarted] <==> c.canCrouch && c.pressedCrouch && grounded
    ensures r.events == [CrouchStarted] ==>
      r.state == c.(canCrouch := false, collider := Crouching)
    ensures r.events != [CrouchStarted] ==> r.events == [] && r.state == c.(pressedCrouch := false)
  {
    if c.canCrouch && c.pressedCrouch && grounded then
      Step(c.(canCrouch := false, collider := Crouching), [CrouchStarted])
    else
      Step(c.(pressedCrouch := false), [])
  }

  /** The end of the crouch routine. */
  function EndCrouch(c: Croucher): (r: Step<Croucher>)
    ensures r.state.canCrouch && r.state.collider == Standing && Coherent(r.state)
    ensures r.state.pressedCrouch == c.pressedCrouch
    ensures r.events == [CrouchEnded]
  {
    Step(c.(collider := Standing, canCrouch := true), [CrouchEnded])
  }

  /** What happens between two physics steps: the player may press crouch
      before a step, or the pending crouch routine may finish. */
  datatype Input = Physics(pressed: bool, grounded: bool) | Expired

  /** One input. The crouch routine is pending exactly while `canCrouch`
      is false, so an `Expired` with nothing pending does nothing. */
  function Apply(c: Croucher, input: Input): (r: Step<Croucher>)
    ensures Coherent(c) ==> Coherent(r.state)
    ensures r.events == [] || r.events == [if c.canCrouch then CrouchStarted else CrouchEnded]
    ensures r.events != [] ==> r.state.canCrouch == !c.canCrouch
    ensures r.events == [] ==> r.state.canCrouch == c.canCrouch
  {
    match input
    case Physics(pressed, grounded) =>
      FixedUpdate(c.(pressedCrouch := c.pressedCrouch || pressed), grounded)
    case Expired =>
      if c.canCrouch then Step(c, []) else EndCrouch(c)
  }

  /** A timeline of inputs. */
  function Run(c: Croucher, inputs: seq<Input>): Step<Croucher>
    decreases |inputs|
  {
    if inputs == [] then Step(c, [])
    else
      var s := Apply(c, inputs[0]);
      var rest := Run(s.state, inputs[1..]);
      Step(rest.state, s.events + rest.events)
  }

  /** The notifications alternate between a start and an end, beginning
      with a start when the entity is standing. */
  predicate Alternates(evs: seq<Event>, standing: bool)
    decreases |evs|
  {
    evs == [] ||
    (evs[0] == (if standing then CrouchStarted else CrouchEnded) && Alternates(evs[1..], !standing))
  }

  /** Over any timeline, crouches and their ends strictly alternate, and the
      crouch flag and the collider stay in step. */
  lemma {:induction false} CrouchesAlternate(c: Croucher, inputs: seq<Input>)
    requires Coherent(c)
    ensures Coherent(Run(c, inputs).state)
    ensures Alternates(Run(c, inputs).events, c.canCrouch)
    decreases |inputs|
  {
    if inputs != [] {
      var s := Apply(c, inputs[0]);
      var rest := Run(s.state, inputs[1..]);
      CrouchesAlternate(s.state, inputs[1..]);
      assert Run(c, inputs).events == s.events + rest.events;
      if s.events == [] {
        assert s.events + rest.events == rest.events;
      } else {
        assert (s.events + rest.events)[1..] == rest.events;
        assert Alternates(rest.events, !c.canCrouch);
      }
    }
  }

  /** A press made while crouched is dropped at the next physics step: once
      that step has passed, it does not carry over to start a new crouch
      after the routine ends. */
  lemma PressWhileCrouchedIsDropped(c: Croucher, grounded: bool, later: bool)
    requires !c.canCrouch
    ensures var s := FixedUpdate(c.(pressedCrouch := true), grounded);
      s.events == [] && !s.state.pressedCrouch &&
      FixedUpdate(EndCrouch(s.state).state, later).events == []
  {
  }
}
