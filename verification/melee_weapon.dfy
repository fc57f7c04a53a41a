/** The sword (Combat/MeleeWeapon.cs): what one strike or one frame of the
    slam does with the colliders the overlap query returned. The query
    itself is an input: a list of hit colliders, each of which may carry a
    combat target, a connection line, both or neither. */
module MeleeWeapon {
  import opened Kinds
  import opened Events
  import opened Wrappers
  import B = Blocks

  /** A connection line, named by its owner block and its slot there. */
  datatype LineRef = LineRef(owner: B.BlockId, slot: nat)

  /** A hit collider: the combat target on it, if any (an index into the
      caller's targets), and the connection line it belongs to, if any. */
  datatype Collider = Collider(target: Option<nat>, connection: Option<LineRef>)

  /** What the weapon asks of the world for one collider. */
  datatype HitAction =
    | Damage(target: nat, amount: real)   // `TakeDamage(entityStats.Damage)`
    | Push(target: nat)                   // the slam's push on the target's rigidbody
    | Sever(line: LineRef)                // `SeverConnection` on the line's block

  /** The y velocity an airborne hit kicks the attacker up to. */
  const AirHitVelocity: real := 20.0

  /** `Strike`, per collider: a combat target is damaged and nothing else is
      looked at; otherwise a connection line is severed. */
  function StrikeOn(c: Collider, damage: real): (a: seq<HitAction>)
    ensures c.target.Some? ==> a == [Damage(c.target.value, damage)]
    ensures c.target.None? && c.connection.Some? ==> a == [Sever(c.connection.value)]
    ensures c.target.None? && c.connection.None? ==> a == []
  {
    if c.target.Some? then [Damage(c.target.value, damage)]
    else if c.connection.Some? then [Sever(c.connection.value)]
    else []
  }

  /** `SlamStrikeRoutine`, per collider: a target is damaged and pushed, and
      the collider is checked for a connection line in any case. */
  function SlamOn(c: Collider, damage: real): (a: seq<HitAction>)
    ensures c.target.Some? ==> |a| >= 2 && a[0] == Damage(c.target.value, damage) && a[1] == Push(c.target.value)
    ensures c.connection.Some? ==> |a| >= 1 && a[|a| - 1] == Sever(c.connection.value)
    ensures |a| == (if c.target.Some? then 2 else 0) + (if c.connection.Some? then 1 else 0)
  {
    (if c.target.Some? then [Damage(c.target.value, damage), Push(c.target.value)] else [])
    + (if c.connection.Some? then [Sever(c.connection.value)] else [])
  }

  /** The strike and the slam treat a collider alike except in two ways:
      the slam also pushes a target, and the strike's `continue` means a
      collider with a target is never checked for a connection line. */
  lemma StrikeIsSlamWithoutPush(c: Collider, damage: real)
    ensures c.target.Some? ==> StrikeOn(c, damage) == SlamOn(c, damage)[..1]
    ensures c.target.None? ==> StrikeOn(c, damage) == SlamOn(c, damage)
    ensures c.target.Some? && c.connection.Some? ==>
              Sever(c.connection.value) in SlamOn(c, damage) && Sever(c.connection.value) !in StrikeOn(c, damage)
  {
  }

  /** The loop over the hit colliders, in query order. */
  method Dispatch(hits: seq<Collider>, rule: Collider -> seq<HitAction>) returns (perHit: seq<seq<HitAction>>)
    ensures |perHit| == |hits|
    ensures forall i | 0 <= i < |hits| :: perHit[i] == rule(hits[i])
  {
    perHit := [];
    var i := 0;
    while i < |hits|
      invariant 0 <= i <= |hits|
      invariant |perHit| == i
      invariant forall j | 0 <= j < i :: perHit[j] == rule(hits[j])
    {
      perHit := perHit + [rule(hits[i])];
      i := i + 1;
    }
  }

  datatype Hit = Hit(perHit: seq<seq<HitAction>>, events: seq<Event>)

  /** One strike (primary, secondary or upward). `grounded` is the ground
      sensor's reading and `vel` the attacker's velocity before. */
  method Strike(hits: seq<Collider>, damage: real, grounded: bool, vel: Vec) returns (h: Hit, velocity: Vec)
    ensures |h.perHit| == |hits|
    ensures forall i | 0 <= i < |hits| :: h.perHit[i] == StrikeOn(hits[i], damage)
    ensures Count(h.events, AttackSuccessful(false)) == (if |hits| > 0 then 1 else 0)
    ensures h.events == (if |hits| > 0 then [AttackSuccessful(false)] else [])
    ensures |hits| > 0 && !grounded ==> velocity == Vec(vel.x, AirHitVelocity)
    ensures |hits| == 0 || grounded ==> velocity == vel
  {
    var perHit := Dispatch(hits, c => StrikeOn(c, damage));
    if |hits| > 0 {
      velocity := if !grounded then Vec(vel.x, AirHitVelocity) else vel;
      h := Hit(perHit, [AttackSuccessful(false)]);
    } else {
      velocity := vel;
      h := Hit(perHit, []);
    }
  }

  /** One frame of the slam loop; the attacker's velocity is not touched. */
  method SlamStep(hits: seq<Collider>, damage: real) returns (h: Hit)
    ensures |h.perHit| == |hits|
    ensures forall i | 0 <= i < |hits| :: h.perHit[i] == SlamOn(hits[i], damage)
    ensures Count(h.events, AttackSuccessful(false)) == (if |hits| > 0 then 1 else 0)
    ensures h.events == [] || h.events == [AttackSuccessful(false)]
  {
    var perHit := Dispatch(hits, c => SlamOn(c, damage));
    h := Hit(perHit, if |hits| > 0 then [AttackSuccessful(false)] else []);
  }

  /** The x offset of the attack point: mirrored when the sprite is flipped. */
  function AttackPointX(localX: real, flipX: bool): (x: real)
    ensures flipX ==> x == -localX
    ensures !flipX ==> x == localX
  {
    localX * (if flipX then -1.0 else 1.0)
  }
}
