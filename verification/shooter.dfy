/** The sorcerer's shooter (Combat/Shooter.cs): two fixed-size projectile
    pools, and the three firing routines one of which is drawn at random.
    Each routine's waits are steps of their own: the announcement is raised
    first, and the pool is looked up when the wait is over. */
module Shooter {
  import opened Kinds
  import opened Events
  import opened Wrappers
  import Search

  /** A pooled projectile: whether it is in flight, the damage it carries
      and its heading in degrees. */
  datatype Projectile = Projectile(active: bool, damage: real, heading: real)

  datatype ShooterState = ShooterState(pool: seq<Projectile>, large: seq<Projectile>)

  /** The mega attack's eight headings, one per large projectile. */
  const Directions: seq<real> := [90.0, 45.0, 0.0, -45.0, -90.0, -135.0, -180.0, -225.0]

  /** Shots in one burst. */
  const BurstLength: nat := 3

  /** `InitializeProjectilePools`: both pools hold `size` inactive projectiles. */
  function Init(size: nat): (s: ShooterState)
    ensures |s.pool| == |s.large| == size
    ensures forall i | 0 <= i < size :: !s.pool[i].active && !s.large[i].active
  {
    ShooterState(seq(size, _ => Projectile(false, 0.0, 0.0)), seq(size, _ => Projectile(false, 0.0, 0.0)))
  }

  function Idle(p: Projectile): bool {
    !p.active
  }

  /** `GetProjectile`: the lowest-index inactive projectile; None (null) when
      every projectile is in flight. The pool never grows. */
  function GetProjectile(pool: seq<Projectile>): (r: Option<nat>)
    ensures r.Some? ==> r.value < |pool| && !pool[r.value].active
    ensures r.Some? ==> forall j | 0 <= j < r.value :: pool[j].active
    ensures r.None? <==> forall j | 0 <= j < |pool| :: pool[j].active
  {
    Search.First(pool, Idle)
  }

  /** How many projectiles of a pool are free. */
  function IdleCount(pool: seq<Projectile>): (n: nat)
    ensures n <= |pool|
    ensures n == 0 <==> forall j | 0 <= j < |pool| :: pool[j].active
    decreases |pool|
  {
    if pool == [] then 0 else (if pool[0].active then 0 else 1) + IdleCount(pool[1..])
  }

  /** Launching one free projectile frees one fewer. */
  lemma {:induction false} LaunchUsesOne(pool: seq<Projectile>, i: nat, p: Projectile)
    requires i < |pool| && !pool[i].active && p.active
    ensures IdleCount(pool[i := p]) == IdleCount(pool) - 1
    decreases |pool|
  {
    if i > 0 {
      assert pool[i := p][1..] == pool[1..][i - 1 := p];
      LaunchUsesOne(pool[1..], i - 1, p);
    }
  }

  lemma {:induction false} IdleCountAppend(a: seq<Projectile>, b: seq<Projectile>)
    ensures IdleCount(a + b) == IdleCount(a) + IdleCount(b)
    decreases |a|
  {
    if a == [] {
      assert a + b == b;
    } else {
      assert (a + b)[1..] == a[1..] + b;
      IdleCountAppend(a[1..], b);
    }
  }

  /** Free projectiles before position `j`: the rank of a free one among
      all free ones, counting from 0. */
  function IdleBefore(pool: seq<Projectile>, j: nat): nat
    requires j <= |pool|
  {
    IdleCount(pool[..j])
  }

  lemma IdleBeforeStep(pool: seq<Projectile>, j: nat)
    requires j < |pool|
    ensures IdleBefore(pool, j + 1) == IdleBefore(pool, j) + (if pool[j].active then 0 else 1)
  {
    assert pool[..j + 1] == pool[..j] + [pool[j]];
    IdleCountAppend(pool[..j], [pool[j]]);
  }

  /** A free projectile ranks strictly below every later position. */
  lemma IdleBeforeGrows(pool: seq<Projectile>, j: nat, k: nat)
    requires j < k <= |pool| && !pool[j].active
    ensures IdleBefore(pool, k) > IdleBefore(pool, j)
  {
    IdleBeforeStep(pool, j);
    assert pool[..k] == pool[..j + 1] + pool[j + 1..k];
    IdleCountAppend(pool[..j + 1], pool[j + 1..k]);
  }

  /** Position `j` of `orig` after the first `n` rounds of a burst: the
      free projectile of rank k < n carries round k's damage and heading. */
  function AfterRounds(orig: seq<Projectile>, j: nat, damages: seq<real>, aims: seq<real>, n: nat): Projectile
    requires j < |orig| && n <= |aims| && n <= |damages|
  {
    if !orig[j].active && IdleBefore(orig, j) < n
    then Projectile(true, damages[IdleBefore(orig, j)], aims[IdleBefore(orig, j)])
    else orig[j]
  }

  /** While every projectile before `k` is in flight after `n` rounds, at
      most `n` of them were free before the burst. */
  lemma {:induction false} RankBelow(orig: seq<Projectile>, pool: seq<Projectile>, damages: seq<real>, aims: seq<real>, n: nat, k: nat)
    requires n <= |aims| && n <= |damages| && |pool| == |orig| && k <= |orig|
    requires forall j | 0 <= j < |orig| :: pool[j] == AfterRounds(orig, j, damages, aims, n)
    requires forall j | 0 <= j < k :: pool[j].active
    ensures IdleBefore(orig, k) <= n
    decreases k
  {
    if k > 0 {
      RankBelow(orig, pool, damages, aims, n, k - 1);
      IdleBeforeStep(orig, k - 1);
      assert pool[k - 1] == AfterRounds(orig, k - 1, damages, aims, n);
    }
  }

  /** One more round of a burst launches the free projectile of rank `n`
      with round `n`'s damage and heading. */
  lemma LaunchNextRank(orig: seq<Projectile>, pool: seq<Projectile>, damages: seq<real>, aims: seq<real>, n: nat)
    requires n < |aims| && n < |damages| && |pool| == |orig|
    requires forall j | 0 <= j < |orig| :: pool[j] == AfterRounds(orig, j, damages, aims, n)
    requires GetProjectile(pool).Some?
    ensures var next := Launch(pool, damages[n], aims[n]).value;
            forall j | 0 <= j < |orig| :: next[j] == AfterRounds(orig, j, damages, aims, n + 1)
  {
    var i := GetProjectile(pool).value;
    RankBelow(orig, pool, damages, aims, n, i);
    assert !orig[i].active && IdleBefore(orig, i) == n;
    var next := Launch(pool, damages[n], aims[n]).value;
    forall j | 0 <= j < |orig|
      ensures next[j] == AfterRounds(orig, j, damages, aims, n + 1)
    {
      if j < i && !orig[j].active {
        IdleBeforeGrows(orig, j, i);
      } else if j > i && !orig[j].active {
        IdleBeforeGrows(orig, i, j);
      }
    }
  }

  /** The tail of one shot, after the wait: take a free projectile, if any,
      and launch it with the stats' damage toward `aim`. */
  function Launch(pool: seq<Projectile>, damage: real, aim: real): (r: Option<seq<Projectile>>)
    ensures r.None? <==> GetProjectile(pool).None?
    ensures r.Some? ==>
      var i := GetProjectile(pool).value;
      && |r.value| == |pool|
      && r.value[i] == Projectile(true, damage, aim)
      && (forall j | 0 <= j < |pool| && j != i :: r.value[j] == pool[j])
      && IdleCount(r.value) == IdleCount(pool) - 1
  {
    match GetProjectile(pool)
    case None => None
    case Some(i) =>
      LaunchUsesOne(pool, i, Projectile(true, damage, aim));
      Some(pool[i := Projectile(true, damage, aim)])
  }

  datatype Volley = Volley(state: ShooterState, events: seq<Event>, shots: nat)

  /** `FireProjectileRoutine`: announce, then launch one shot if a
      projectile is free. */
  function Single(s: ShooterState, damage: real, aim: real): (v: Volley)
    ensures v.events == [ShotFired]
    ensures v.shots == (if IdleCount(s.pool) > 0 then 1 else 0)
    ensures v.state.large == s.large && |v.state.pool| == |s.pool|
    // the launched projectile, if any, is the first free one
    ensures forall j | 0 <= j < |s.pool| ::
      v.state.pool[j] == (if !s.pool[j].active && IdleBefore(s.pool, j) < v.shots
                          then Projectile(true, damage, aim)
                          else s.pool[j])
  {
    match Launch(s.pool, damage, aim)
    case None => Volley(s, [ShotFired], 0)
    case Some(pool) =>
      LaunchNextRank(s.pool, s.pool, [damage], [aim], 0);
      Volley(s.(pool := pool), [ShotFired], 1)
  }

  /** `BurstFireProjectileRoutine`: up to three announce-and-launch rounds,
      stopping at the first round that finds no free projectile. Round k
      launches with `damages[k]`, the stats' damage read after its wait,
      toward `aims[k]`. */
  method Burst(s: ShooterState, damages: seq<real>, aims: seq<real>) returns (v: Volley)
    requires |damages| == BurstLength && |aims| == BurstLength
    ensures v.shots == (if IdleCount(s.pool) < BurstLength then IdleCount(s.pool) else BurstLength)
    ensures Count(v.events, ShotFired) == (if IdleCount(s.pool) < BurstLength then IdleCount(s.pool) + 1 else BurstLength)
    ensures forall e | e in v.events :: e == ShotFired
    ensures IdleCount(v.state.pool) == IdleCount(s.pool) - v.shots
    ensures v.state.large == s.large && |v.state.pool| == |s.pool|
    // round k launches the k-th free projectile, in pool order, with damages[k] toward aims[k]
    ensures forall j | 0 <= j < |s.pool| ::
      v.state.pool[j] == (if !s.pool[j].active && IdleBefore(s.pool, j) < v.shots
                          then Projectile(true, damages[IdleBefore(s.pool, j)], aims[IdleBefore(s.pool, j)])
                          else s.pool[j])
  {
    var pool := s.pool;
    var events: seq<Event> := [];
    var shots: nat := 0;
    var stopped := false;
    while shots < BurstLength && !stopped
      invariant shots <= BurstLength
      invariant |pool| == |s.pool|
      invariant IdleCount(pool) == IdleCount(s.pool) - shots
      invariant stopped ==> IdleCount(s.pool) == shots && shots < BurstLength
      invariant Count(events, ShotFired) == shots + (if stopped then 1 else 0)
      invariant forall e | e in events :: e == ShotFired
      invariant forall j | 0 <= j < |s.pool| :: pool[j] == AfterRounds(s.pool, j, damages, aims, shots)
      decreases BurstLength - shots, if stopped then 0 else 1
    {
      CountAppend(events, [ShotFired], ShotFired);
      events := events + [ShotFired];
      match Launch(pool, damages[shots], aims[shots])
      case None =>
        stopped := true;
      case Some(next) =>
        LaunchNextRank(s.pool, pool, damages, aims, shots);
        pool := next;
        shots := shots + 1;
    }
    v := Volley(s.(pool := pool), events, shots);
  }

  /** `MegaAttackRoutine`: announce, then launch every large projectile,
      in flight or not, at twice the stats' damage along its own heading.
      The stats are read again for each launch, one frame apart: launch `i`
      uses `damages[i]`. More than eight large projectiles run past the
      headings and throw. */
  function Mega(s: ShooterState, damages: seq<real>): (r: Result<Volley>)
    requires |damages| == |s.large|
    ensures r.Failure? <==> |s.large| > |Directions|
    ensures r.Failure? ==> r.fault == IndexOutOfRange
    ensures r.Success? ==>
      && r.value.events == [MegaShot]
      && r.value.shots == |s.large|
      && r.value.state.pool == s.pool
      && |r.value.state.large| == |s.large|
      && (forall i | 0 <= i < |s.large| :: r.value.state.large[i] == Projectile(true, 2.0 * damages[i], Directions[i]))
  {
    if |s.large| > |Directions| then Failure(IndexOutOfRange)
    else
      var large := seq(|s.large|, i requires 0 <= i < |s.large| => Projectile(true, damages[i] * 2.0, Directions[i]));
      Success(Volley(s.(large := large), [MegaShot], |s.large|))
  }

  /** A mega attack that does not throw leaves no large projectile free, and
      no two of them share a heading. */
  lemma MegaFillsLarge(s: ShooterState, damages: seq<real>)
    requires |damages| == |s.large| <= |Directions|
    ensures Mega(s, damages).Success?
    ensures var large := Mega(s, damages).value.state.large;
            IdleCount(large) == 0
            && forall i, j | 0 <= i < j < |large| :: large[i].heading != large[j].heading
  {
    var large := Mega(s, damages).value.state.large;
    forall i, j | 0 <= i < j < |large|
      ensures large[i].heading != large[j].heading
    {
      assert large[i].heading == Directions[i] && large[j].heading == Directions[j];
    }
  }

  datatype Routine = FireOnce | MegaAttack | BurstFire

  /** `FireProjectile`: the routine drawn by `Random.Range(0, 3)`. */
  function Choose(r: int): (k: Routine)
    requires 0 <= r < 3
    ensures r == 0 <==> k == FireOnce
    ensures r == 1 <==> k == MegaAttack
    ensures r == 2 <==> k == BurstFire
  {
    if r == 0 then FireOnce else if r == 1 then MegaAttack else BurstFire
  }
}
