/** The movement lock-out timer that Movement/Mover2D.cs and
    Movement/Jumper2D.cs each keep: a hit or an attack overwrites it with a
    duration, every frame counts it down by the frame time (with no floor),
    and the component acts only once it has reached zero or gone below. */
module MoveTimer {
  import opened Kinds

  /** One frame of `Update`. */
  function Tick(timer: real, dt: real): real {
    timer - dt
  }

  /** The timer after a run of frames. */
  function Run(timer: real, dts: seq<real>): real
    decreases |dts|
  {
    if dts == [] then timer else Run(Tick(timer, dts[0]), dts[1..])
  }

  /** Whether the lock-out is over. */
  predicate Enabled(timer: real) {
    timer <= 0.0
  }

  /** Counting down frame by frame loses exactly the elapsed time. */
  lemma {:induction false} RunElapses(timer: real, dts: seq<real>)
    ensures Run(timer, dts) == timer - Sum(dts)
    decreases |dts|
  {
    if dts != [] {
      RunElapses(Tick(timer, dts[0]), dts[1..]);
    }
  }

  /** A lock-out of `d` seconds ends exactly when `d` seconds have passed. */
  lemma LockoutLastsItsDuration(d: real, dts: seq<real>)
    ensures Enabled(Run(d, dts)) <==> Sum(dts) >= d
  {
    RunElapses(d, dts);
  }
}
