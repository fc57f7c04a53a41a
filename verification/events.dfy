/** The notifications (C# events and delegates) the core raises, as one
    datatype so that a composed step can return them in the order raised. */
module Events {
  import opened Kinds

  datatype Event =
    // HealthReserve
    | CurrentChanged(current: real, decreased: bool)
    | MaxChanged(max: real)
    | Empty
    // combat targets
    | DamageTaken
    | Died
    | DisableMove(duration: real)
    | DamagePopup(shown: int, player: bool)
    | IndicatorSpawned(shown: int)
    // game manager
    | GameStateChanged(from: GameState, to: GameState)
    // melee
    | AttackStarted(attack: string)
    | AttackSuccessful(grounded: bool)
    // sensors
    | SensorStateChanged(state: bool)
    // movement
    | DirectionChanged(dir: int)
    | JumpStarted
    | DashStarted
    | CrouchStarted
    | CrouchEnded
    // shooter
    | ShotFired
    | MegaShot

  /** A component's state after one step and the notifications the step
      raised, in the order raised. */
  datatype Step<+S> = Step(state: S, events: seq<Event>)

  /** How many times `e` occurs in `evs`. */
  function Count(evs: seq<Event>, e: Event): (n: nat)
    ensures n <= |evs|
    ensures n == 0 <==> e !in evs
  {
    if evs == [] then 0
    else (if evs[0] == e then 1 else 0) + Count(evs[1..], e)
  }

  lemma {:induction false} CountAppend(a: seq<Event>, b: seq<Event>, e: Event)
    ensures Count(a + b, e) == Count(a, e) + Count(b, e)
  {
    if a == [] {
      assert a + b == b;
    } else {
      assert (a + b)[1..] == a[1..] + b;
      CountAppend(a[1..], b, e);
    }
  }
}
