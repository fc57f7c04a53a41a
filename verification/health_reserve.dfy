/** The clamped health value of one entity (Combat/Reserves/HealthReserve.cs).
    Every write to the current value goes through one setter that reports the
    new value and whether it fell, and reports `Empty` whenever the value
    written is exactly zero. */
module HealthReserve {
  import opened Events

  datatype Reserve = Reserve(current: real, max: real)

  /** The range the reserve is meant to stay in. */
  predicate InRange(r: Reserve) {
    0.0 <= r.current <= r.max
  }

  /** Reference clamp, independent of the branch structure of `Modify`. */
  function Clamp(x: real, lo: real, hi: real): (c: real)
    requires lo <= hi
    ensures lo <= c <= hi
    ensures lo <= x <= hi ==> c == x
  {
    if x < lo then lo else if x > hi then hi else x
  }

  /** The `Current` setter. */
  function SetCurrent(r: Reserve, value: real): (w: Step<Reserve>)
    ensures w.state == Reserve(value, r.max)
    ensures |w.events| >= 1 && w.events[0] == CurrentChanged(value, value < r.current)
    ensures Empty in w.events <==> value == 0.0
    ensures Count(w.events, Empty) <= 1
    ensures forall e | e in w.events :: e.CurrentChanged? || e == Empty
  {
    var tail := if value == 0.0 then [Empty] else [];
    Step(r.(current := value), [CurrentChanged(value, r.current > value)] + tail)
  }

  /** The `Max` setter: stores the bound, refills the reserve through the
      `Current` setter, then reports the new bound. */
  function SetMax(r: Reserve, m: real): (w: Step<Reserve>)
    ensures w.state == Reserve(m, m)
    ensures InRange(w.state) <==> m >= 0.0
    ensures w.events == SetCurrent(Reserve(r.current, m), m).events + [MaxChanged(m)]
    ensures w.events[|w.events| - 1] == MaxChanged(m)
    ensures Empty in w.events <==> m == 0.0
  {
    var filled := SetCurrent(r.(max := m), m);
    Step(filled.state, filled.events + [MaxChanged(m)])
  }

  /** `Modify(amount)`: add a signed amount, saturating at `max` and at 0. */
  function Modify(r: Reserve, amount: real): (w: Step<Reserve>)
    ensures w.state.max == r.max
    ensures r.current + amount > r.max ==> w.state.current == r.max
    ensures r.current + amount <= r.max && r.current + amount <= 0.0 ==>
              w.state.current == 0.0
    ensures 0.0 < r.current + amount <= r.max ==>
              w.state.current == r.current + amount
    ensures r.max >= 0.0 ==> w.state.current == Clamp(r.current + amount, 0.0, r.max)
    ensures r.max >= 0.0 ==> InRange(w.state)
    ensures w.events == SetCurrent(r, w.state.current).events
  {
    if r.current + amount > r.max then SetCurrent(r, r.max)
    else if r.current + amount <= 0.0 then SetCurrent(r, 0.0)
    else SetCurrent(r, r.current + amount)
  }

  /** A run of `Modify` calls, one per amount, in order. */
  function ModifyAll(r: Reserve, amounts: seq<real>): Reserve
    decreases |amounts|
  {
    if amounts == [] then r else ModifyAll(Modify(r, amounts[0]).state, amounts[1..])
  }

  /** The bound `0 <= current <= max` survives every sequence of writes. */
  lemma {:induction false} ModifyAllStaysInRange(r: Reserve, amounts: seq<real>)
    requires InRange(r)
    ensures InRange(ModifyAll(r, amounts))
    ensures ModifyAll(r, amounts).max == r.max
    decreases |amounts|
  {
    if amounts != [] {
      ModifyAllStaysInRange(Modify(r, amounts[0]).state, amounts[1..]);
    }
  }

  /** `Empty` is raised on every write that leaves the reserve at 0, so a
      reserve already at 0 reports it again on every further hit. */
  lemma EmptyOnEveryHitAtZero(r: Reserve, damage: real)
    requires r.current == 0.0 && r.max >= 0.0 && damage >= 0.0
    ensures Modify(r, -damage).state.current == 0.0
    ensures Empty in Modify(r, -damage).events
  {
  }

  /** A write raises `Empty` exactly when it leaves the reserve at 0. */
  lemma EmptyIffZero(r: Reserve, amount: real)
    ensures Empty in Modify(r, amount).events <==> Modify(r, amount).state.current == 0.0
    ensures Count(Modify(r, amount).events, Empty) <= 1
  {
  }

  /** Worked case: max 100, one hit of 150 empties the reserve with one `Empty`. */
  lemma OverkillScenario()
    ensures Modify(Reserve(100.0, 100.0), -150.0).state.current == 0.0
    ensures Modify(Reserve(100.0, 100.0), -150.0).events
            == [CurrentChanged(0.0, true), Empty]
  {
  }
}
