/** Attack cadence of the swordsman (Combat/MeleeFighter.cs): a cooldown
    gate, the choice among five attacks from groundedness and vertical input,
    and a two-step combo counter for the basic ground attack that resets
    after a pause. The weapon keeps a copy of the counter. */
module MeleeFighter {
  import opened Kinds
  import opened Events

  datatype AttackKind = Air | AirUp | Slam | Up | Basic

  datatype Fighter = Fighter(
    counter: int,         // `currentAttack`
    weaponCounter: int,   // `MeleeWeapon.currentAttack`
    sinceLast: real,      // `timeSinceLastAttack`
    yDir: real)

  /** Inspector-set tuning. */
  datatype Config = Config(slamVelocity: real, slamDisableTime: real, attackDisableTime: real)

  const MinTimeBetweenAttacks: real := 0.2
  const MaxComboTime: real := 1.0

  /** A fresh fighter: counters at 0, clock at 0. */
  const Initial: Fighter := Fighter(0, 0, 0.0, 0.0)

  datatype Swing = Swing(fighter: Fighter, velocity: Vec, events: seq<Event>)

  predicate IsDigit(c: char) {
    '0' <= c <= '9'
  }

  /** The number a string of decimal digits denotes, most significant first. */
  function Value(s: string): nat
    requires forall k | 0 <= k < |s| :: IsDigit(s[k])
    decreases |s|
  {
    if s == [] then 0
    else
      assert IsDigit(s[|s| - 1]);
      10 * Value(s[..|s| - 1]) + (s[|s| - 1] as int - '0' as int)
  }

  /** Decimal digits of a natural number, with no leading zero. */
  function Digits(n: nat): (s: string)
    ensures |s| >= 1 && forall k | 0 <= k < |s| :: IsDigit(s[k])
    ensures |s| > 1 ==> s[0] != '0'
    decreases n
  {
    var d := ('0' as int + n % 10) as char;
    if n < 10 then [d] else Digits(n / 10) + [d]
  }

  /** Reading the digits back gives the number. */
  lemma {:induction false} DigitsRoundTrip(n: nat)
    ensures Value(Digits(n)) == n
    decreases n
  {
    var s := Digits(n);
    if n >= 10 {
      DigitsRoundTrip(n / 10);
      assert s[..|s| - 1] == Digits(n / 10);
    }
  }

  /** `int.ToString()`: a minus sign for negatives, then the magnitude's
      digits, which read back as the magnitude. */
  function DecimalString(i: int): (s: string)
    ensures i < 0 <==> |s| > 0 && s[0] == '-'
    ensures var m := if i < 0 then s[1..] else s;
            |m| >= 1 && (forall k | 0 <= k < |m| :: IsDigit(m[k]))
            && Value(m) == (if i < 0 then -i else i)
  {
    var m: nat := if i < 0 then -i else i;
    DigitsRoundTrip(m);
    if i < 0 then
      var s := "-" + Digits(m);
      assert s[1..] == Digits(m);
      s
    else Digits(m)
  }

  /** `Update`: only the clock since the last attack changes, and it
      advances by exactly the frame time. */
  function Update(f: Fighter, dt: real): (g: Fighter)
    ensures g.sinceLast - f.sinceLast == dt
    ensures g.(sinceLast := f.sinceLast) == f
  {
    f.(sinceLast := f.sinceLast + dt)
  }

  /** `UpdateYDir`: the stored input is what the next `Attack` selects by;
      nothing else changes. */
  function UpdateYDir(f: Fighter, y: real): (g: Fighter)
    ensures g.yDir == y
    ensures g.(yDir := f.yDir) == f
  {
    f.(yDir := y)
  }

  /** Which attack `Attack` chooses. */
  function Select(grounded: bool, yDir: real): (k: AttackKind)
    ensures !grounded ==> (k == AirUp <==> yDir > 0.5)
    ensures !grounded ==> (k == Slam <==> yDir < -0.5)
    ensures !grounded ==> (k == Air <==> -0.5 <= yDir <= 0.5)
    ensures grounded ==> (k == Up <==> yDir > 0.5)
    ensures grounded ==> (k == Basic <==> yDir <= 0.5)
  {
    if !grounded then
      if yDir > 0.5 then AirUp else if yDir < -0.5 then Slam else Air
    else
      if yDir > 0.5 then Up else Basic
  }

  /** The combo step a basic attack moves to: increment, wrap past 2, and
      restart at 1 after a pause longer than the combo window. */
  function NextCombo(counter: int, sinceLast: real): (c: int)
    ensures sinceLast > MaxComboTime ==> c == 1
    ensures 0 <= counter <= 2 ==> 1 <= c <= 2
    ensures sinceLast <= MaxComboTime && 0 <= counter < 2 ==> c == counter + 1
    ensures sinceLast <= MaxComboTime && counter >= 2 ==> c == 1
  {
    var bumped := if counter + 1 > 2 then 1 else counter + 1;
    if sinceLast > MaxComboTime then 1 else bumped
  }

  /** `Attack()`. */
  function Attack(f: Fighter, cfg: Config, grounded: bool, vel: Vec): (s: Swing)
    // the cooldown gate: nothing at all happens before it has elapsed
    ensures f.sinceLast < MinTimeBetweenAttacks ==> s == Swing(f, vel, [])
    ensures f.sinceLast >= MinTimeBetweenAttacks ==> s.fighter.sinceLast == 0.0 && |s.events| >= 1
    ensures s.fighter.yDir == f.yDir
    // grounded attacks stop horizontal motion
    ensures f.sinceLast >= MinTimeBetweenAttacks && grounded ==> s.velocity == Vec(0.0, vel.y)
    ensures f.sinceLast >= MinTimeBetweenAttacks && !grounded ==>
              match Select(grounded, f.yDir)
              case Slam =>
                s.velocity == Vec(0.0, -cfg.slamVelocity)
                && s.events == [AttackStarted("Slam"), DisableMove(cfg.slamDisableTime)]
              case AirUp => s.velocity == vel && s.events == [AttackStarted("AirUp")]
              case _ => s.velocity == vel && s.events == [AttackStarted("Air")]
    ensures f.sinceLast >= MinTimeBetweenAttacks && grounded && f.yDir > 0.5 ==>
              s.events == [AttackStarted("Up"), DisableMove(cfg.attackDisableTime)]
    // only the basic attack moves the combo counters
    ensures f.sinceLast >= MinTimeBetweenAttacks && Select(grounded, f.yDir) == Basic ==>
              && s.fighter.counter == NextCombo(f.counter, f.sinceLast)
              && s.events == [AttackStarted(DecimalString(s.fighter.counter)),
                              DisableMove(cfg.attackDisableTime)]
    ensures Select(grounded, f.yDir) != Basic || f.sinceLast < MinTimeBetweenAttacks ==>
              s.fighter.counter == f.counter && s.fighter.weaponCounter == f.weaponCounter
    // both counters are reset to 1 when the fighter's passes 2 or the
    // combo window has lapsed; otherwise both advance by one
    ensures f.sinceLast >= MinTimeBetweenAttacks && Select(grounded, f.yDir) == Basic ==>
              if f.counter >= 2 || f.sinceLast > MaxComboTime
              then s.fighter.counter == 1 && s.fighter.weaponCounter == 1
              else s.fighter.counter == f.counter + 1 && s.fighter.weaponCounter == f.weaponCounter + 1
    ensures f.weaponCounter == f.counter ==> s.fighter.weaponCounter == s.fighter.counter
  {
    if f.sinceLast < MinTimeBetweenAttacks then Swing(f, vel, [])
    else
      var fired := f.(sinceLast := 0.0);
      match Select(grounded, f.yDir)
      case AirUp => Swing(fired, vel, [AttackStarted("AirUp")])
      case Slam =>
        Swing(fired, Vec(0.0, -cfg.slamVelocity), [AttackStarted("Slam"), DisableMove(cfg.slamDisableTime)])
      case Air => Swing(fired, vel, [AttackStarted("Air")])
      case Up => Swing(fired, Vec(0.0, vel.y), [AttackStarted("Up"), DisableMove(cfg.attackDisableTime)])
      case Basic =>
        var c := NextCombo(f.counter, f.sinceLast);
        var w := if f.counter + 1 > 2 || f.sinceLast > MaxComboTime then 1 else f.weaponCounter + 1;
        Swing(fired.(counter := c, weaponCounter := w), Vec(0.0, vel.y),
              [AttackStarted(DecimalString(c)), DisableMove(cfg.attackDisableTime)])
  }

  /** The counters seen by a run of basic ground attacks, `gaps[i]` being
      the time elapsed before the i-th attempt. */
  function ComboRun(f: Fighter, cfg: Config, gaps: seq<real>): seq<int>
    decreases |gaps|
  {
    if gaps == [] then []
    else
      var s := Attack(Update(f, gaps[0]), cfg, true, Vec(0.0, 0.0));
      [s.fighter.counter] + ComboRun(s.fighter, cfg, gaps[1..])
  }

  /** Basic attacks spaced within the cooldown and the combo window count
      1, 2, 1, 2, ... continuing from the step the fighter was at. */
  lemma {:induction false} ComboAlternates(f: Fighter, cfg: Config, gaps: seq<real>)
    requires f.sinceLast == 0.0 && f.yDir <= 0.5 && 0 <= f.counter <= 2
    requires forall i | 0 <= i < |gaps| :: MinTimeBetweenAttacks <= gaps[i] <= MaxComboTime
    ensures |ComboRun(f, cfg, gaps)| == |gaps|
    ensures forall k | 0 <= k < |gaps| :: ComboRun(f, cfg, gaps)[k] == (f.counter + k) % 2 + 1
    decreases |gaps|
  {
    if gaps != [] {
      var s := Attack(Update(f, gaps[0]), cfg, true, Vec(0.0, 0.0));
      assert s.fighter.counter == f.counter % 2 + 1;
      ComboAlternates(s.fighter, cfg, gaps[1..]);
      var run := ComboRun(f, cfg, gaps);
      forall k | 0 <= k < |gaps|
        ensures run[k] == (f.counter + k) % 2 + 1
      {
        if k > 0 {
          assert run[k] == ComboRun(s.fighter, cfg, gaps[1..])[k - 1];
          assert (f.counter % 2 + 1 + (k - 1)) % 2 == (f.counter + k) % 2;
        }
      }
    }
  }

  /** A basic attack after a pause longer than the combo window restarts at 1. */
  lemma ComboResets(f: Fighter, cfg: Config, vel: Vec)
    requires f.sinceLast > MaxComboTime && f.yDir <= 0.5
    ensures Attack(f, cfg, true, vel).fighter.counter == 1
    ensures Attack(f, cfg, true, vel).events[0] == AttackStarted("1")
  {
  }

  /** From a fresh fighter, an attempt at once is refused by the cooldown;
      attempts 0.3 s and then 0.6 s later start basic attacks "1" and "2". */
  lemma OpeningScenario(cfg: Config)
    ensures Attack(Initial, cfg, true, Vec(0.0, 0.0)).events == []
    ensures var first := Attack(Update(Initial, 0.3), cfg, true, Vec(0.0, 0.0));
            var second := Attack(Update(first.fighter, 0.6), cfg, true, Vec(0.0, 0.0));
            first.events[0] == AttackStarted("1") && second.events[0] == AttackStarted("2")
  {
    assert DecimalString(1) == "1";
    assert DecimalString(2) == "2";
  }
}
