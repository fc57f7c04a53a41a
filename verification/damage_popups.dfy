/** The damage popup pool (Game/DamagePopupManager.cs): a list of popups
    that grows by one whenever every popup is on screen. */
module DamagePopupManager {
  import opened Kinds
  import opened Wrappers
  import Search

  /** A popup: whether it is showing, and the colour and number it was last
      given (None until first spawned: the prefab's own settings). */
  datatype Popup = Popup(active: bool, colour: Option<Colour>, shown: Option<int>)

  /** `damagePopupObjectPool` and `currentPoolSize`. */
  datatype Pool = Pool(items: seq<Popup>, size: int)

  const InitialPoolSize: int := 10

  /** A freshly instantiated popup, deactivated at once. */
  const Fresh: Popup := Popup(false, None, None)

  /** The pool's own bookkeeping: the size field counts the list. */
  predicate Sized(p: Pool) {
    p.size == |p.items|
  }

  /** `InitializeObjectPool`: `n` inactive popups (none for `n <= 0`). */
  function Init(n: int): (p: Pool)
    ensures Sized(p)
    ensures |p.items| == (if n > 0 then n else 0)
    ensures forall i | 0 <= i < |p.items| :: !p.items[i].active
  {
    var k := if n > 0 then n else 0;
    Pool(seq(k, _ => Fresh), k)
  }

  datatype Got = Got(pool: Pool, index: nat)

  function Inactive(x: Popup): bool {
    !x.active
  }

  /** `GetObjectFromPool`: the lowest-index inactive popup, or a new one
      appended at the end when all are active. */
  function Get(p: Pool): (g: Got)
    requires Sized(p)
    ensures Sized(g.pool)
    ensures g.index < |g.pool.items| && !g.pool.items[g.index].active
    ensures forall j | 0 <= j < g.index :: g.pool.items[j].active
    ensures (exists j | 0 <= j < |p.items| :: !p.items[j].active) ==> g.pool == p
    ensures (forall j | 0 <= j < |p.items| :: p.items[j].active) ==>
      g.pool.items == p.items + [Fresh] && g.index == |p.items|
  {
    match Search.First(p.items, Inactive)
    case Some(i) => Got(p, i)
    case None =>
      var items := p.items + [Fresh];
      Got(Pool(items, |items|), |p.items|)
  }

  /** `SpawnDamageCounter(origin, damage, player)`: the popup taken from the
      pool shows the damage, in cyan for the player and yellow otherwise,
      and is activated. */
  function Spawn(p: Pool, damage: int, player: bool): (g: Got)
    requires Sized(p)
    ensures Sized(g.pool)
    ensures g.index < |g.pool.items|
    ensures g.pool.items[g.index] == Popup(true, Some(if player then Cyan else Yellow), Some(damage))
    ensures g.index < |p.items| ==> !p.items[g.index].active
    ensures forall j | 0 <= j < g.index :: j < |p.items| && p.items[j].active
    ensures |g.pool.items| == |p.items| + (if forall j | 0 <= j < |p.items| :: p.items[j].active then 1 else 0)
    ensures forall j | 0 <= j < |p.items| && j != g.index :: g.pool.items[j] == p.items[j]
  {
    var got := Get(p);
    var items := got.pool.items[got.index := Popup(true, Some(if player then Cyan else Yellow), Some(damage))];
    Got(Pool(items, |items|), got.index)
  }

  /** The pool never shrinks, grows by at most one per spawn, and grows only
      when every popup was on screen. */
  lemma SpawnGrowsOnlyWhenFull(p: Pool, damage: int, player: bool)
    requires Sized(p)
    ensures var q := Spawn(p, damage, player).pool;
      && |p.items| <= |q.items| <= |p.items| + 1
      && (|q.items| == |p.items| + 1 <==> forall j | 0 <= j < |p.items| :: p.items[j].active)
  {
  }

  function SpawnAll(p: Pool, requests: seq<(int, bool)>): Pool
    requires Sized(p)
    decreases |requests|
  {
    if requests == [] then p
    else SpawnAll(Spawn(p, requests[0].0, requests[0].1).pool, requests[1..])
  }

  /** After any run of spawns the pool holds at least as many popups as
      before and never more than one per spawn on top, and the size field
      still counts the list. */
  lemma {:induction false} SpawnAllBounds(p: Pool, requests: seq<(int, bool)>)
    requires Sized(p)
    ensures Sized(SpawnAll(p, requests))
    ensures |p.items| <= |SpawnAll(p, requests).items| <= |p.items| + |requests|
    decreases |requests|
  {
    if requests != [] {
      var q := Spawn(p, requests[0].0, requests[0].1).pool;
      SpawnGrowsOnlyWhenFull(p, requests[0].0, requests[0].1);
      SpawnAllBounds(q, requests[1..]);
    }
  }

  /** An initial pool of ten absorbs ten spawns without growing. */
  lemma TenSpawnsFitTheInitialPool()
    ensures |SpawnAll(Init(InitialPoolSize), seq(10, i => (i, true))).items| == 10
  {
    var reqs := seq(10, i => (i, true));
    var p := Init(InitialPoolSize);
    var k := 0;
    while k < 10
      invariant 0 <= k <= 10
      invariant Sized(p) && |p.items| == 10
      invariant forall j | 0 <= j < 10 :: p.items[j].active <==> j < k
      invariant SpawnAll(Init(InitialPoolSize), reqs) == SpawnAll(p, reqs[k..])
    {
      assert reqs[k..][1..] == reqs[k+1..];
      assert !p.items[k].active;
      p := Spawn(p, reqs[k].0, reqs[k].1).pool;
      k := k + 1;
    }
    assert reqs[10..] == [];
  }
}
