/** The influencer (Influencer.cs): on each influence it picks one of its
    routines at random, shuffles the relevant pool of effect blocks, and
    connects or severs the first qualifying block. The `all` flag of the
    routines is always false at the call sites, so each routine acts at
    most once. */
module Influencer {
  import opened Wrappers
  import B = Blocks
  import Search

  datatype Influencer = Influencer(
    sorcererBlock: B.BlockId,
    swordsmanBlock: B.BlockId,
    good: seq<B.BlockId>,     // `GoodEffectsBlocks`, reordered by each shuffle
    bad: seq<B.BlockId>)      // `BadEffectsBlocks`

  datatype Routine =
    | ConnectSorcererGood
    | ConnectSwordsmanBad
    | SeverSorcererBad
    | SeverSwordsmanGood

  /** The switch in `Influence`; values it has no case for do nothing. */
  function ActionOf(r: int): (a: Option<Routine>)
    ensures a.Some? <==> 0 <= r <= 3
  {
    if r == 0 then Some(ConnectSorcererGood)
    else if r == 1 then Some(ConnectSwordsmanBad)
    else if r == 2 then Some(SeverSorcererBad)
    else if r == 3 then Some(SeverSwordsmanGood)
    else None
  }

  /** The draw comes from `Random.Range(0, 3)`, which never yields 3: the
      swordsman's good connections are never severed by the influencer. */
  lemma SeverSwordsmanGoodUnreachable(r: int)
    requires 0 <= r < 3
    ensures ActionOf(r).Some? && ActionOf(r).value != SeverSwordsmanGood
  {
  }

  // ---- the shuffle ----

  /** The draws of one `Shuffle` of `n` elements: draw `i` lies in `[i, n)`,
      one per index below `n - 1`. */
  predicate ValidDraws(draws: seq<int>, n: nat) {
    && |draws| == (if n == 0 then 0 else n - 1)
    && forall i | 0 <= i < |draws| :: i <= draws[i] < n
  }

  function Swap<T>(a: seq<T>, i: nat, j: nat): (b: seq<T>)
    requires i < |a| && j < |a|
    ensures |b| == |a| && b[i] == a[j] && b[j] == a[i]
    ensures forall k | 0 <= k < |a| && k != i && k != j :: b[k] == a[k]
  {
    a[i := a[j]][j := a[i]]
  }

  lemma SwapPermutes<T>(a: seq<T>, i: nat, j: nat)
    requires i < |a| && j < |a|
    ensures multiset(Swap(a, i, j)) == multiset(a)
  {
    var t := a[i := a[j]];
    assert multiset(t) == multiset(a) - multiset{a[i]} + multiset{a[j]};
    assert multiset(t[j := a[i]]) == multiset(t) - multiset{t[j]} + multiset{a[i]};
  }

  /** `Shuffle` from index `i` on. */
  function ShuffleFrom<T>(a: seq<T>, draws: seq<int>, i: nat): seq<T>
    requires ValidDraws(draws, |a|) && i <= |draws|
    decreases |draws| - i
  {
    if i == |draws| then a
    else ShuffleFrom(Swap(a, i, draws[i] as nat), draws, i + 1)
  }

  /** `Shuffle`: Fisher–Yates with the given draws. The result is a
      permutation: same length, same elements with the same multiplicities. */
  function Shuffle<T>(a: seq<T>, draws: seq<int>): (b: seq<T>)
    requires ValidDraws(draws, |a|)
    ensures |b| == |a| && multiset(b) == multiset(a)
  {
    ShuffleFromPermutes(a, draws, 0);
    ShuffleFrom(a, draws, 0)
  }

  /** Shuffling from any index on is a permutation. */
  lemma {:induction false} ShuffleFromPermutes<T>(a: seq<T>, draws: seq<int>, i: nat)
    requires ValidDraws(draws, |a|) && i <= |draws|
    ensures |ShuffleFrom(a, draws, i)| == |a|
    ensures multiset(ShuffleFrom(a, draws, i)) == multiset(a)
    decreases |draws| - i
  {
    if i < |draws| {
      var b := Swap(a, i, draws[i] as nat);
      SwapPermutes(a, i, draws[i] as nat);
      ShuffleFromPermutes(b, draws, i + 1);
    }
  }

  /** Drawing `i` at every step keeps the order. */
  lemma {:induction false} IdentityDrawsKeepOrder<T>(a: seq<T>, draws: seq<int>, i: nat)
    requires ValidDraws(draws, |a|) && i <= |draws|
    requires forall k | 0 <= k < |draws| :: draws[k] == k
    ensures ShuffleFrom(a, draws, i) == a
    decreases |draws| - i
  {
    if i < |draws| {
      assert Swap(a, i, draws[i] as nat) == a;
      IdentityDrawsKeepOrder(a, draws, i + 1);
    }
  }

  // ---- the routines ----

  predicate Connects(r: Routine) {
    r == ConnectSorcererGood || r == ConnectSwordsmanBad
  }

  function EntityOf(inf: Influencer, r: Routine): B.BlockId {
    if r == ConnectSorcererGood || r == SeverSorcererBad then inf.sorcererBlock else inf.swordsmanBlock
  }

  function PoolOf(inf: Influencer, r: Routine): seq<B.BlockId> {
    if r == ConnectSorcererGood || r == SeverSwordsmanGood then inf.good else inf.bad
  }

  function WithPool(inf: Influencer, r: Routine, pool: seq<B.BlockId>): Influencer {
    if r == ConnectSorcererGood || r == SeverSwordsmanGood then inf.(good := pool) else inf.(bad := pool)
  }

  /** Every block the influencer names is on the board. */
  predicate Placed(inf: Influencer, board: B.Board) {
    && inf.sorcererBlock < |board| && inf.swordsmanBlock < |board|
    && (forall i | 0 <= i < |inf.good| :: inf.good[i] < |board|)
    && (forall i | 0 <= i < |inf.bad| :: inf.bad[i] < |board|)
  }

  /** A candidate qualifies for a connect routine when the entity block does
      not list it yet, and for a sever routine when it does. */
  function Qualifies(r: Routine, linked: seq<Option<B.BlockId>>): B.BlockId -> bool {
    (c: B.BlockId) => (Some(c) in linked) != Connects(r)
  }

  datatype Influenced = Influenced(influencer: Influencer, board: B.Board, calls: seq<B.EffectCall>, chosen: Option<B.BlockId>)
  datatype Acted = Acted(board: B.Board, calls: seq<B.EffectCall>, chosen: Option<B.BlockId>)

  /** The first candidate of `pool` (in its current order) that qualifies. */
  function Pick(pool: seq<B.BlockId>, r: Routine, linked: seq<Option<B.BlockId>>): (c: Option<B.BlockId>)
    ensures c.Some? ==>
      exists i | 0 <= i < |pool| :: (pool[i] == c.value && forall j | 0 <= j < i :: !Qualifies(r, linked)(pool[j]))
    ensures c.Some? ==> c.value in pool && Qualifies(r, linked)(c.value)
    ensures c.None? <==> forall x | x in pool :: !Qualifies(r, linked)(x)
  {
    match Search.First(pool, Qualifies(r, linked))
    case None => None
    case Some(i) => Some(pool[i])
  }

  /** The loop of a routine over the (already shuffled) pool. */
  function ActOn(board: B.Board, entity: B.BlockId, pool: seq<B.BlockId>, r: Routine): (o: Result<Acted>)
    requires B.Valid(board) && entity < |board|
    requires forall x | x in pool :: x < |board|
    ensures o.Success? ==> B.Valid(o.value.board) && |o.value.board| == |board|
    ensures o.Success? ==> |o.value.calls| <= 1
    ensures o.Success? && o.value.chosen.None? ==> o.value.board == board && o.value.calls == []
    ensures o.Success? ==>
      (o.value.chosen.None? <==>
         board[entity].active.Some? || forall x | x in pool :: !Qualifies(r, board[entity].linked)(x))
    ensures o.Success? && o.value.chosen.Some? ==>
      && board[entity].active.None?
      && o.value.chosen == Pick(pool, r, board[entity].linked)
    ensures o.Success? ==> forall id | 0 <= id < |board| && id != entity :: o.value.board[id] == board[id]
  {
    var e := board[entity];
    if e.active.Some? then Success(Acted(board, [], None))
    else
      match Pick(pool, r, e.linked)
      case None => Success(Acted(board, [], None))
      case Some(c) =>
        var acted := if Connects(r) then B.Connect(board, entity, c) else B.SeverBlock(board, entity, c);
        match acted
        case Failure(f) => Failure(f)
        case Success(ch) => Success(Acted(ch.board, ch.calls, Some(c)))
  }

  /** One routine with `all = false`: shuffle the pool, then act on the
      first candidate that qualifies, provided the entity block has no
      pending connection, and stop there whether or not the act succeeded. */
  function RunRoutine(inf: Influencer, board: B.Board, r: Routine, draws: seq<int>): (o: Result<Influenced>)
    requires B.Valid(board) && Placed(inf, board)
    requires ValidDraws(draws, |PoolOf(inf, r)|)
    ensures o.Success? ==> B.Valid(o.value.board) && |o.value.board| == |board|
    ensures o.Success? ==> o.value.influencer == WithPool(inf, r, Shuffle(PoolOf(inf, r), draws))
    ensures o.Success? ==> Placed(o.value.influencer, o.value.board)
    ensures o.Success? ==> |o.value.calls| <= 1
    ensures o.Success? && o.value.chosen.None? ==> o.value.board == board && o.value.calls == []
    ensures o.Success? ==>
      (o.value.chosen.None? <==>
         board[EntityOf(inf, r)].active.Some?
         || forall x | x in PoolOf(inf, r) :: !Qualifies(r, board[EntityOf(inf, r)].linked)(x))
    ensures o.Success? && o.value.chosen.Some? ==>
      && board[EntityOf(inf, r)].active.None?
      && o.value.chosen == Pick(Shuffle(PoolOf(inf, r), draws), r, board[EntityOf(inf, r)].linked)
    ensures o.Success? ==>
      forall id | 0 <= id < |board| && id != EntityOf(inf, r) :: o.value.board[id] == board[id]
  {
    var pool := Shuffle(PoolOf(inf, r), draws);
    SameElements(pool, PoolOf(inf, r));
    assert forall i | 0 <= i < |pool| :: pool[i] in PoolOf(inf, r);
    match ActOn(board, EntityOf(inf, r), pool, r)
    case Failure(f) => Failure(f)
    case Success(a) => Success(Influenced(WithPool(inf, r, pool), a.board, a.calls, a.chosen))
  }

  lemma SameElements<T>(a: seq<T>, b: seq<T>)
    requires multiset(a) == multiset(b)
    ensures forall x :: x in a <==> x in b
  {
    forall x ensures x in a <==> x in b {
      assert x in a <==> x in multiset(a);
      assert x in b <==> x in multiset(b);
    }
  }

  /** On a consistent board a routine never throws and keeps the board
      consistent. */
  lemma RoutineKeepsConsistency(inf: Influencer, board: B.Board, r: Routine, draws: seq<int>)
    requires B.ConsistentBoard(board) && Placed(inf, board)
    requires ValidDraws(draws, |PoolOf(inf, r)|)
    ensures RunRoutine(inf, board, r, draws).Success?
    ensures B.ConsistentBoard(RunRoutine(inf, board, r, draws).value.board)
  {
    var entity := EntityOf(inf, r);
    var pool := Shuffle(PoolOf(inf, r), draws);
    var e := board[entity];
    if e.active.None? {
      match Search.First(pool, Qualifies(r, e.linked))
      case None =>
      case Some(i) =>
        var c := pool[i];
        assert c in multiset(PoolOf(inf, r));
        if Connects(r) {
          B.ConnectOutcome(board, entity, c);
        } else {
          B.SeverPreserves(board, entity, c);
        }
    }
  }

  /** `Influence`: one routine chosen by a draw from `Random.Range(0, 3)`. */
  function Influence(inf: Influencer, board: B.Board, r: int, draws: seq<int>): (o: Result<Influenced>)
    requires 0 <= r < 3
    requires B.Valid(board) && Placed(inf, board)
    requires ValidDraws(draws, |PoolOf(inf, ActionOf(r).value)|)
    ensures o.Success? ==> |o.value.calls| <= 1
    ensures o.Success? && o.value.chosen.None? ==> o.value.board == board
  {
    RunRoutine(inf, board, ActionOf(r).value, draws)
  }

  /** No influence takes a link away from the swordsman's block: the only
      routine that severs there is the unreachable fourth one, and
      connecting there only claims a free slot. */
  lemma InfluenceNeverSeversSwordsman(inf: Influencer, board: B.Board, r: int, draws: seq<int>)
    requires 0 <= r < 3
    requires B.ConsistentBoard(board) && Placed(inf, board)
    requires inf.sorcererBlock != inf.swordsmanBlock
    requires ValidDraws(draws, |PoolOf(inf, ActionOf(r).value)|)
    ensures Influence(inf, board, r, draws).Success?
    ensures var b := Influence(inf, board, r, draws).value.board;
      forall i | 0 <= i < |board[inf.swordsmanBlock].linked| && board[inf.swordsmanBlock].linked[i].Some? ::
        b[inf.swordsmanBlock].linked[i] == board[inf.swordsmanBlock].linked[i]
  {
    var routine := ActionOf(r).value;
    RoutineKeepsConsistency(inf, board, routine, draws);
    if routine == ConnectSwordsmanBad {
      SwordsmanConnectKeepsLinks(inf, board, draws);
    } else {
      assert EntityOf(inf, routine) == inf.sorcererBlock;
    }
  }

  /** Connecting a debuff to the swordsman only claims a free slot of its
      block: every link it had stays. */
  lemma SwordsmanConnectKeepsLinks(inf: Influencer, board: B.Board, draws: seq<int>)
    requires B.ConsistentBoard(board) && Placed(inf, board)
    requires ValidDraws(draws, |PoolOf(inf, ConnectSwordsmanBad)|)
    requires RunRoutine(inf, board, ConnectSwordsmanBad, draws).Success?
    ensures var b := RunRoutine(inf, board, ConnectSwordsmanBad, draws).value.board;
      forall i | 0 <= i < |board[inf.swordsmanBlock].linked| && board[inf.swordsmanBlock].linked[i].Some? ::
        b[inf.swordsmanBlock].linked[i] == board[inf.swordsmanBlock].linked[i]
  {
    var routine := ConnectSwordsmanBad;
    var pool := Shuffle(PoolOf(inf, routine), draws);
    var e := board[inf.swordsmanBlock];
    if e.active.None? {
      match Search.First(pool, Qualifies(routine, e.linked))
      case None =>
      case Some(i) =>
        assert pool[i] in multiset(PoolOf(inf, routine));
        B.ConnectKeepsLinks(board, inf.swordsmanBlock, pool[i]);
    }
  }

  /** A connect routine stops at the first qualifying candidate even when
      the entity block has no free slot and the connection cannot start. */
  lemma FullBlockStillStops(inf: Influencer, board: B.Board, r: Routine, draws: seq<int>, c: B.BlockId)
    requires B.Valid(board) && Placed(inf, board)
    requires ValidDraws(draws, |PoolOf(inf, r)|)
    requires Connects(r) && board[EntityOf(inf, r)].active.None?
    requires forall j | 0 <= j < |board[EntityOf(inf, r)].lines| :: board[EntityOf(inf, r)].lines[j].positionCount != 0
    requires c in PoolOf(inf, r) && Some(c) !in board[EntityOf(inf, r)].linked
    ensures RunRoutine(inf, board, r, draws).Success?
    ensures RunRoutine(inf, board, r, draws).value.chosen.Some?
    ensures RunRoutine(inf, board, r, draws).value.board == board
    ensures RunRoutine(inf, board, r, draws).value.calls == []
  {
    var o := RunRoutine(inf, board, r, draws);
    assert Qualifies(r, board[EntityOf(inf, r)].linked)(c);
    assert !B.StartConnection(board[EntityOf(inf, r)]).ok;
  }
}
