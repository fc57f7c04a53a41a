/** The swordsman entity (Entity/Player/Player.cs): the click-to-connect
    protocol with blocks, the fire flag and its burn tick, the move-speed
    sync, and the death handler that ends the match as a loss. */
module Player {
  import opened Kinds
  import opened Events
  import opened Wrappers
  import ES = EntityStats
  import B = Blocks
  import Burning
  import HR = HealthReserve
  import PCT = PlayerCombatTarget
  import GM = GameManager

  datatype PlayerState = PlayerState(
    stats: ES.Stats,
    onFire: bool,
    damageTimer: real,
    maxSpeed: real,                   // `Mover2D.MaxSpeed`
    openConnection: bool,
    currentBlock: Option<B.BlockId>)

  /** A block is within reach when its squared distance is below this. */
  const InteractRange: real := 3.0

  function Ignite(p: PlayerState): (q: PlayerState)
    ensures q.onFire
    ensures q.(onFire := p.onFire) == p
  {
    if !p.onFire then p.(onFire := true) else p
  }

  function Snuff(p: PlayerState): (q: PlayerState)
    ensures !q.onFire
    ensures q.(onFire := p.onFire) == p
  {
    if p.onFire then p.(onFire := false) else p
  }

  /** Igniting or snuffing twice is the same as once, and the one undoes the
      other on the flag alone. */
  lemma FireFlagIdempotent(p: PlayerState)
    ensures Ignite(Ignite(p)) == Ignite(p) && Snuff(Snuff(p)) == Snuff(p)
    ensures Snuff(Ignite(p)) == Snuff(p) && Ignite(Snuff(p)) == Ignite(p)
  {
  }

  /** `UpdateMoveSpeed`: the mover's top speed follows the stats. */
  function UpdateMoveSpeed(p: PlayerState): (q: PlayerState)
    ensures q.maxSpeed == q.stats.moveSpeed
    ensures q.(maxSpeed := p.maxSpeed) == p
  {
    p.(maxSpeed := p.stats.moveSpeed)
  }

  datatype Frame = Frame(player: PlayerState, target: PCT.Target, game: GM.Game, events: seq<Event>)

  /** `Update`: the burn tick. A burn hit goes through the combat target,
      whose `Died` reaches this entity's `EndGame`. */
  function Update(p: PlayerState, t: PCT.Target, g: GM.Game, dt: real): (f: Frame)
    ensures !p.onFire ==> f == Frame(p, t, g, [])
    ensures f.player == p.(damageTimer := Burning.Tick(p.onFire, p.damageTimer, dt).timer)
    ensures Burning.Tick(p.onFire, p.damageTimer, dt).hit ==>
      f.target.health == HR.Modify(t.health, -Burning.BurnDamage).state
      && DamagePopup(Burning.BurnDamage.Floor, true) in f.events
    ensures !Burning.Tick(p.onFire, p.damageTimer, dt).hit ==> f.target == t && f.game == g && f.events == []
  {
    var b := Burning.Tick(p.onFire, p.damageTimer, dt);
    var p' := p.(damageTimer := b.timer);
    if b.hit then
      var o := PCT.TakeDamage(t, g, Burning.BurnDamage, true);
      Frame(p', o.target, o.game, o.events)
    else Frame(p', t, g, [])
  }

  /** A burn hit that empties the reserve while the match runs ends it. */
  lemma BurnCanEndTheMatch(p: PlayerState, t: PCT.Target, g: GM.Game, dt: real)
    requires p.onFire && p.damageTimer + dt >= Burning.BurnInterval
    requires g.state == Running && t.health.current <= Burning.BurnDamage && t.health.max >= 0.0
    ensures Died in Update(p, t, g, dt).events
    ensures Update(p, t, g, dt).game.state == Postgame
  {
    PCT.TakeDamageDeath(t, g, Burning.BurnDamage, true);
  }

  datatype Interaction = Interaction(player: PlayerState, board: B.Board, calls: seq<B.EffectCall>)

  /** `InteractWithBlock` on block `id` at squared distance `sqrDist`: out of
      reach nothing happens; with no open connection the block is asked to
      start one, and with an open one the block is asked to close the
      connection started at `currentBlock`. */
  function InteractWithBlock(p: PlayerState, board: B.Board, id: B.BlockId, sqrDist: real): (r: Result<Interaction>)
    requires B.Valid(board) && id < |board|
    requires p.currentBlock.Some? ==> p.currentBlock.value < |board|
    ensures sqrDist >= InteractRange ==> r == Success(Interaction(p, board, []))
    ensures r.Success? ==> B.Valid(r.value.board) && |r.value.board| == |board|
    ensures r.Success? ==> r.value.player.(openConnection := p.openConnection, currentBlock := p.currentBlock) == p
    ensures sqrDist < InteractRange && !p.openConnection ==>
      r.Success? && r.value.calls == []
      && (B.StartConnection(board[id]).ok ==> r.value.player.openConnection && r.value.player.currentBlock == Some(id))
      && (!B.StartConnection(board[id]).ok ==> r.value == Interaction(p, board, []))
    // a started block holds the new pending line, and no other block changes
    ensures sqrDist < InteractRange && !p.openConnection && B.StartConnection(board[id]).ok ==>
      r.Success? && r.value.board == board[id := B.StartConnection(board[id]).block]
      && r.value.board[id].active.Some? && r.value.board[id].started
      && forall j | 0 <= j < |board| && j != id :: r.value.board[j] == board[j]
    ensures sqrDist < InteractRange && p.openConnection ==>
      (r.Failure? <==> p.currentBlock.None? || B.CloseConnection(board, id, p.currentBlock.value).Failure?)
    ensures sqrDist < InteractRange && p.openConnection && r.Success? ==>
      var c := B.CloseConnection(board, id, p.currentBlock.value).value;
      && r.value.board == c.board && r.value.calls == c.calls
      && (c.ok ==> !r.value.player.openConnection && r.value.player.currentBlock.None?)
      && (!c.ok ==> r.value.player == p)
  {
    if sqrDist >= InteractRange then Success(Interaction(p, board, []))
    else if !p.openConnection then
      var s := B.StartConnection(board[id]);
      if s.ok then
        assert B.Resolves(s.block, |board|);
        Success(Interaction(p.(openConnection := true, currentBlock := Some(id)), board[id := s.block], []))
      else Success(Interaction(p, board, []))
    else match p.currentBlock
      case None => Failure(NullReference)
      case Some(start) =>
        match B.CloseConnection(board, id, start)
        case Failure(e) => Failure(e)
        case Success(c) =>
          if c.ok then Success(Interaction(p.(openConnection := false, currentBlock := None), c.board, c.calls))
          else Success(Interaction(p, c.board, c.calls))
  }

  /** The protocol's own invariant: an open connection is pending on the
      block it was started at, and a closed one remembers no block. */
  predicate Protocol(p: PlayerState, board: B.Board) {
    && (p.currentBlock.Some? ==> p.currentBlock.value < |board|)
    && (p.openConnection ==> p.currentBlock.Some? && board[p.currentBlock.value].active.Some?)
    && (!p.openConnection ==> p.currentBlock.None?)
  }

  /** On a consistent board the click protocol never throws and keeps both
      the board's bookkeeping and its own invariant. */
  lemma InteractKeepsProtocol(p: PlayerState, board: B.Board, id: B.BlockId, sqrDist: real)
    requires B.ConsistentBoard(board) && id < |board| && Protocol(p, board)
    ensures InteractWithBlock(p, board, id, sqrDist).Success?
    ensures B.ConsistentBoard(InteractWithBlock(p, board, id, sqrDist).value.board)
    ensures Protocol(InteractWithBlock(p, board, id, sqrDist).value.player, InteractWithBlock(p, board, id, sqrDist).value.board)
  {
    if sqrDist < InteractRange {
      if !p.openConnection {
        B.StartPreserves(board, id);
      } else {
        var start := p.currentBlock.value;
        B.CloseFaultsOnlyWithoutPending(board, id, start);
        B.ClosePreserves(board, id, start);
      }
    }
  }

  /** The `Died` handler: `EndGame(false)`, a loss. */
  function OnDied(g: GM.Game): (e: GM.SceneLoad)
    ensures e.step.state.state == Postgame
    ensures e.transition.scene == "LoseScene"
  {
    GM.SceneLoad(GM.EndGame(g), GM.ResultTransition(false))
  }
}
