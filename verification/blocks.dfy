/** The influence graph: entity blocks own a fixed list of connection lines,
    paired by index with the effect blocks they are linked to. A board is the
    list of all blocks; a block is named by its index on the board. */
module Blocks {
  import opened Kinds
  import opened Wrappers
  import Search

  type BlockId = nat

  /** A connection line; only the fields the rules read or write. A line with
      `positionCount == 0` is free. */
  datatype Line = Line(positionCount: nat, colour: Colour)

  datatype Block = Block(
    isEntity: bool,
    entityType: EntityType,
    isDebuff: bool,
    effect: Effect,
    lines: seq<Line>,              // `connections`
    linked: seq<Option<BlockId>>,  // `connectedBlocks`, None for null
    started: bool,                 // `isConnectionStarted`
    active: Option<nat>,           // `activeConnection`, by its slot in `lines`
    activeIndex: int)              // `activeConnectionIndex`

  type Board = seq<Block>

  /** A call the graph makes on the effect manager. */
  datatype EffectCall =
    | StartEffect(entity: EntityType, effect: Effect)
    | EndEffect(entity: EntityType, effect: Effect)

  datatype Started = Started(block: Block, ok: bool)
  datatype Changed = Changed(board: Board, ok: bool, calls: seq<EffectCall>)

  /** Every reference in `b` resolves on a board of `n` blocks: the slot
      lists are paired, the pending line is one of the block's lines and
      every partner is a block. */
  predicate Resolves(b: Block, n: nat) {
    && |b.linked| == |b.lines|
    && (b.active.Some? ==> b.active.value < |b.lines|)
    && (forall i | 0 <= i < |b.linked| :: b.linked[i].Some? ==> b.linked[i].value < n)
  }

  predicate Valid(board: Board) {
    forall id | 0 <= id < |board| :: Resolves(board[id], |board|)
  }

  /** The bookkeeping the graph keeps on top of `Resolves`: a linked slot's
      line is in use, no partner is linked twice, and a pending connection
      is an in-use, unlinked slot named by both `active` and `activeIndex`. */
  predicate Consistent(b: Block, n: nat) {
    && Resolves(b, n)
    && (forall i | 0 <= i < |b.linked| :: b.linked[i].Some? ==> b.lines[i].positionCount != 0)
    && (forall i, j | 0 <= i < j < |b.linked| :: b.linked[i].Some? ==> b.linked[i] != b.linked[j])
    && (b.started <==> b.active.Some?)
    && (b.active.Some? ==>
          b.activeIndex == b.active.value
          && b.lines[b.active.value].positionCount != 0
          && b.linked[b.active.value].None?)
  }

  /** Two boards with the same blocks' slot counts. */
  predicate SameShape(board: Board, board': Board) {
    && |board'| == |board|
    && forall id | 0 <= id < |board| ::
         |board'[id].lines| == |board[id].lines| && |board'[id].linked| == |board[id].linked|
  }

  predicate ConsistentBoard(board: Board) {
    forall id | 0 <= id < |board| :: Consistent(board[id], |board|)
  }

  /** `Start`: one empty partner per line. */
  function Start(b: Block): (c: Block)
    ensures |c.linked| == |c.lines| == |b.lines|
    ensures forall i | 0 <= i < |c.linked| :: c.linked[i].None?
    ensures c.(linked := b.linked) == b
  {
    b.(linked := seq(|b.lines|, _ => None))
  }

  /** A board whose blocks were placed in the scene and not yet touched: no
      connection is pending. */
  predicate Fresh(board: Board) {
    forall id | 0 <= id < |board| :: !board[id].started && board[id].active.None?
  }

  /** Every block's `Start`: all blocks have one empty partner per line and
      nothing else about them changes. */
  function StartAll(board: Board): (c: Board)
    ensures |c| == |board|
    ensures forall id | 0 <= id < |c| ::
              |c[id].linked| == |c[id].lines| && forall i | 0 <= i < |c[id].linked| :: c[id].linked[i].None?
    ensures forall id | 0 <= id < |c| :: c[id].(linked := board[id].linked) == board[id]
  {
    seq(|board|, id requires 0 <= id < |board| => Start(board[id]))
  }

  lemma StartAllConsistent(board: Board)
    requires Fresh(board)
    ensures ConsistentBoard(StartAll(board))
  {
  }

  /** `GetConnection`: the lowest-index free line. */
  function FreeSlot(b: Block): (r: Option<nat>)
    ensures r.Some? ==> r.value < |b.lines| && b.lines[r.value].positionCount == 0
    ensures r.Some? ==> forall j | 0 <= j < r.value :: b.lines[j].positionCount != 0
    ensures r.None? <==> forall j | 0 <= j < |b.lines| :: b.lines[j].positionCount != 0
  {
    Search.First(b.lines, (l: Line) => l.positionCount == 0)
  }

  /** `StartConnection`: an entity block claims its lowest free line, draws it
      white and marks it pending. The `sorcerer` flag of the source only
      decides where the line's far end is drawn, so it is not a parameter. */
  function StartConnection(b: Block): (r: Started)
    ensures !r.ok ==> r.block == b
    ensures r.ok <==> b.isEntity && exists i | 0 <= i < |b.lines| :: b.lines[i].positionCount == 0
    ensures r.ok ==>
      var i := r.block.activeIndex;
      && 0 <= i < |b.lines|
      && b.lines[i].positionCount == 0
      && (forall j | 0 <= j < i :: b.lines[j].positionCount != 0)
      && r.block == b.(lines := b.lines[i := Line(2, White)], started := true, active := Some(i), activeIndex := i)
  {
    if !b.isEntity then Started(b, false)
    else match FreeSlot(b)
      case None => Started(b, false)
      case Some(i) =>
        Started(b.(lines := b.lines[i := Line(2, White)], started := true, active := Some(i), activeIndex := i), true)
  }

  /** The Swordsman profits from a buff on himself or a debuff on the Sorcerer. */
  predicate FavoursSwordsman(entity: EntityType, isDebuff: bool) {
    (entity == Swordsman && !isDebuff) || (entity == Sorcerer && isDebuff)
  }

  /** The colour a closing connection gets: cyan when it favours the
      Swordsman, yellow when it favours the Sorcerer, unchanged otherwise. */
  function EdgeColour(entity: EntityType, isDebuff: bool, current: Colour): (c: Colour)
    ensures HasCombatant(entity) ==> (c == Cyan <==> FavoursSwordsman(entity, isDebuff))
    ensures HasCombatant(entity) ==> (c == Yellow <==> !FavoursSwordsman(entity, isDebuff))
    ensures !HasCombatant(entity) ==> c == current
  {
    if (entity == Sorcerer && isDebuff) || (entity == Swordsman && !isDebuff) then Cyan
    else if (entity == Sorcerer && !isDebuff) || (entity == Swordsman && isDebuff) then Yellow
    else current
  }

  /** The starting block once `thisId` has been stored in its pending slot. */
  function Linked(start: Block, thisId: BlockId, isDebuff: bool): Block
    requires start.active.Some? && start.active.value < |start.lines|
    requires 0 <= start.activeIndex < |start.linked|
  {
    var k := start.active.value;
    start.(linked := start.linked[start.activeIndex := Some(thisId)],
           lines := start.lines[k := start.lines[k].(colour := EdgeColour(start.entityType, isDebuff, start.lines[k].colour))],
           active := None, activeIndex := -1, started := false)
  }

  /** `CloseConnection` called on block `thisId` with `startId` as the
      starting block. Refused (false, nothing changes) when the starting
      block already lists this one or this one is an entity block; throws
      when there is no pending line or its index is not a slot. */
  function CloseConnection(board: Board, thisId: BlockId, startId: BlockId): (r: Result<Changed>)
    requires Valid(board) && thisId < |board| && startId < |board|
    ensures r.Success? ==> SameShape(board, r.value.board) && Valid(r.value.board)
    ensures r.Success? && !r.value.ok ==> r.value.board == board && r.value.calls == []
    ensures r.Success? && r.value.ok <==>
      && Some(thisId) !in board[startId].linked
      && !board[thisId].isEntity
      && board[startId].active.Some?
      && 0 <= board[startId].activeIndex < |board[startId].linked|
    ensures r == Failure(NullReference) <==>
      Some(thisId) !in board[startId].linked && !board[thisId].isEntity && board[startId].active.None?
    ensures r.Success? && r.value.ok ==>
      var s := board[startId];
      var s' := r.value.board[startId];
      && (forall id | 0 <= id < |board| && id != startId :: r.value.board[id] == board[id])
      && s'.linked[s.activeIndex] == Some(thisId)
      && (forall i | 0 <= i < |s.linked| && i != s.activeIndex :: s'.linked[i] == s.linked[i])
      && s'.active.None? && s'.activeIndex == -1 && !s'.started
      && r.value.calls == [StartEffect(s.entityType, board[thisId].effect)]
  {
    var start := board[startId];
    if Some(thisId) in start.linked || board[thisId].isEntity then
      Success(Changed(board, false, []))
    else if start.active.None? then
      Failure(NullReference)
    else if !(0 <= start.activeIndex < |start.linked|) then
      Failure(IndexOutOfRange)
    else
      var start' := Linked(start, thisId, board[thisId].isDebuff);
      Success(Changed(board[startId := start'], true, [StartEffect(start.entityType, board[thisId].effect)]))
  }

  /** A successful close draws the line in the colour of the side it favours. */
  lemma CloseColour(board: Board, thisId: BlockId, startId: BlockId)
    requires Valid(board) && thisId < |board| && startId < |board|
    requires CloseConnection(board, thisId, startId).Success?
    requires CloseConnection(board, thisId, startId).value.ok
    requires HasCombatant(board[startId].entityType)
    ensures var k := board[startId].active.value;
      var line := CloseConnection(board, thisId, startId).value.board[startId].lines[k];
      && (line.colour == Cyan <==> FavoursSwordsman(board[startId].entityType, board[thisId].isDebuff))
      && (line.colour == Yellow <==> !FavoursSwordsman(board[startId].entityType, board[thisId].isDebuff))
  {
  }

  /** The block once slot `slot` is free and unlinked again. */
  function Freed(b: Block, slot: nat): Block
    requires slot < |b.lines| && slot < |b.linked|
  {
    b.(lines := b.lines[slot := b.lines[slot].(positionCount := 0)], linked := b.linked[slot := None])
  }

  /** `SeverConnection(LineRenderer)`: free the line in slot `slot` of block
      `owner`, after telling the effect manager to end its partner's effect.
      A slot with no partner throws for a Swordsman or Sorcerer block, where
      the effect manager reads the missing partner. */
  function SeverLine(board: Board, owner: BlockId, slot: nat): (r: Result<Changed>)
    requires Valid(board) && owner < |board| && slot < |board[owner].lines|
    ensures r.Success? ==> SameShape(board, r.value.board) && Valid(r.value.board)
    ensures r.Failure? <==> board[owner].linked[slot].None? && HasCombatant(board[owner].entityType)
    ensures r.Success? ==>
      var b := board[owner];
      var b' := r.value.board[owner];
      && r.value.ok
      && (forall id | 0 <= id < |board| && id != owner :: r.value.board[id] == board[id])
      && b'.lines[slot].positionCount == 0 && b'.linked[slot].None?
      && (forall i | 0 <= i < |b.lines| && i != slot :: b'.lines[i] == b.lines[i] && b'.linked[i] == b.linked[i])
      && b'.active == b.active && b'.activeIndex == b.activeIndex && b'.started == b.started
      && r.value.calls == (if b.linked[slot].Some? then [EndEffect(b.entityType, board[b.linked[slot].value].effect)] else [])
  {
    var b := board[owner];
    match b.linked[slot]
    case Some(p) => Success(Changed(board[owner := Freed(b, slot)], true, [EndEffect(b.entityType, board[p].effect)]))
    case None =>
      if HasCombatant(b.entityType) then Failure(NullReference)
      else Success(Changed(board[owner := Freed(b, slot)], true, []))
  }

  /** `SeverConnection(Block)`: find the slot linked to `target` and sever
      it; a block that is not linked gives index -1 and throws. */
  function SeverBlock(board: Board, owner: BlockId, target: BlockId): (r: Result<Changed>)
    requires Valid(board) && owner < |board|
    ensures r.Success? ==> SameShape(board, r.value.board) && Valid(r.value.board)
    ensures r.Failure? <==> Some(target) !in board[owner].linked
    ensures r.Failure? ==> r.fault == IndexOutOfRange
    ensures r.Success? ==> forall id | 0 <= id < |board| && id != owner :: r.value.board[id] == board[id]
    ensures r.Success? ==>
      var i := Search.IndexOf(board[owner].linked, Some(target)).value;
      && r.value.calls == [EndEffect(board[owner].entityType, board[target].effect)]
      && r.value.board[owner].linked[i].None?
      && Some(target) !in r.value.board[owner].linked[..i+1]
  {
    match Search.IndexOf(board[owner].linked, Some(target))
    case None => Failure(IndexOutOfRange)
    case Some(i) => SeverLine(board, owner, i)
  }

  /** `Connect`: start a connection on entity block `entityId` and close it
      on `effectId`. A refused close leaves the claimed line pending. */
  function Connect(board: Board, entityId: BlockId, effectId: BlockId): (r: Result<Changed>)
    requires Valid(board) && entityId < |board| && effectId < |board|
    ensures r.Success? ==> SameShape(board, r.value.board) && Valid(r.value.board)
    ensures r.Success? ==> forall id | 0 <= id < |board| && id != entityId :: r.value.board[id] == board[id]
    ensures r.Success? ==> r.value.calls == (if r.value.ok then [StartEffect(board[entityId].entityType, board[effectId].effect)] else [])
  {
    var s := StartConnection(board[entityId]);
    if !s.ok then Success(Changed(board, false, []))
    else
      var board' := board[entityId := s.block];
      assert Resolves(s.block, |board|);
      CloseConnection(board', effectId, entityId)
  }

  lemma StartPreserves(board: Board, id: BlockId)
    requires ConsistentBoard(board) && id < |board|
    ensures ConsistentBoard(board[id := StartConnection(board[id]).block])
  {
    var b := board[id];
    var r := StartConnection(b);
    if r.ok {
      var i := r.block.activeIndex;
      assert b.linked[i].None?;
    }
  }

  /** On a consistent board a close never meets a pending index outside the
      slots: it throws only when nothing is pending. */
  lemma CloseFaultsOnlyWithoutPending(board: Board, thisId: BlockId, startId: BlockId)
    requires ConsistentBoard(board) && thisId < |board| && startId < |board|
    ensures CloseConnection(board, thisId, startId).Failure? <==>
      Some(thisId) !in board[startId].linked && !board[thisId].isEntity && board[startId].active.None?
  {
  }

  lemma ClosePreserves(board: Board, thisId: BlockId, startId: BlockId)
    requires ConsistentBoard(board) && thisId < |board| && startId < |board|
    requires CloseConnection(board, thisId, startId).Success?
    ensures ConsistentBoard(CloseConnection(board, thisId, startId).value.board)
  {
    var r := CloseConnection(board, thisId, startId);
    if r.value.ok {
      var s := board[startId];
      var s' := r.value.board[startId];
      var k := s.activeIndex;
      forall i, j | 0 <= i < j < |s'.linked| && s'.linked[i].Some?
        ensures s'.linked[i] != s'.linked[j]
      {
        if i == k || j == k {
          assert s'.linked[k] == Some(thisId);
          assert Some(thisId) !in s.linked;
        }
      }
    }
  }

  /** Severing a linked slot always succeeds and keeps the board consistent;
      the partner is then no longer linked to the owner at all, since no
      partner is linked twice. */
  lemma SeverPreserves(board: Board, owner: BlockId, target: BlockId)
    requires ConsistentBoard(board) && owner < |board|
    requires Some(target) in board[owner].linked
    ensures SeverBlock(board, owner, target).Success?
    ensures ConsistentBoard(SeverBlock(board, owner, target).value.board)
    ensures Some(target) !in SeverBlock(board, owner, target).value.board[owner].linked
  {
    var b := board[owner];
    var i := Search.IndexOf(b.linked, Some(target)).value;
    var b' := SeverBlock(board, owner, target).value.board[owner];
    forall j | 0 <= j < |b'.linked|
      ensures b'.linked[j] != Some(target)
    {
      if j < i {
        assert b'.linked[j] == b.linked[j] && b.linked[..i][j] == b.linked[j];
      } else if j > i {
        assert b.linked[i] != b.linked[j];
      }
    }
  }

  /** Severing any line but the pending one keeps a consistent board
      consistent; a linked line is always severed without a throw. */
  lemma SeverLinePreserves(board: Board, owner: BlockId, slot: nat)
    requires ConsistentBoard(board) && owner < |board| && slot < |board[owner].lines|
    requires board[owner].active != Some(slot)
    ensures board[owner].linked[slot].Some? ==> SeverLine(board, owner, slot).Success?
    ensures SeverLine(board, owner, slot).Success? ==> ConsistentBoard(SeverLine(board, owner, slot).value.board)
  {
    var r := SeverLine(board, owner, slot);
    if r.Success? {
      var b := board[owner];
      var b' := r.value.board[owner];
      assert Resolves(b', |board|);
      forall i, j | 0 <= i < j < |b'.linked| && b'.linked[i].Some?
        ensures b'.linked[i] != b'.linked[j]
      {
        assert i != slot;
        if j != slot { assert b.linked[i] != b.linked[j]; }
      }
      assert Consistent(b', |board|);
    }
  }

  /** `Connect` on a consistent board: the entity block either links the
      effect block, or is refused and keeps its claimed line pending, or was
      full and nothing changes. */
  lemma ConnectOutcome(board: Board, entityId: BlockId, effectId: BlockId)
    requires ConsistentBoard(board) && entityId < |board| && effectId < |board|
    requires board[entityId].active.None?
    ensures Connect(board, entityId, effectId).Success?
    ensures var c := Connect(board, entityId, effectId).value;
      && ConsistentBoard(c.board)
      && (c.ok <==> StartConnection(board[entityId]).ok && Some(effectId) !in board[entityId].linked && !board[effectId].isEntity)
      && (c.ok ==> Some(effectId) in c.board[entityId].linked && c.calls == [StartEffect(board[entityId].entityType, board[effectId].effect)])
      && (!StartConnection(board[entityId]).ok ==> c.board == board && c.calls == [])
      && (StartConnection(board[entityId]).ok && !c.ok ==> c.board[entityId].started && c.board[entityId].active.Some? && c.calls == [])
  {
    var s := StartConnection(board[entityId]);
    if s.ok {
      StartPreserves(board, entityId);
      var board' := board[entityId := s.block];
      assert board'[effectId].isEntity == board[effectId].isEntity;
      ClosePreserves(board', effectId, entityId);
    }
  }

  /** Connecting only ever adds a link: every slot already linked keeps its
      partner, since the claimed slot was free. */
  lemma ConnectKeepsLinks(board: Board, entityId: BlockId, effectId: BlockId)
    requires ConsistentBoard(board) && entityId < |board| && effectId < |board|
    requires Connect(board, entityId, effectId).Success?
    ensures forall i | 0 <= i < |board[entityId].linked| && board[entityId].linked[i].Some? ::
      Connect(board, entityId, effectId).value.board[entityId].linked[i] == board[entityId].linked[i]
  {
    var s := StartConnection(board[entityId]);
    if s.ok {
      assert s.block.linked == board[entityId].linked;
      assert s.block.linked[s.block.activeIndex].None?;
    }
  }
}
