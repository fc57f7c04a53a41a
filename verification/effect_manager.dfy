/** The effect manager (Game/EffectManager.cs): what starting or ending a
    block effect does to the swordsman (the player) or the sorcerer, and the
    description and sound cue that announce it. */
module EffectManager {
  import opened Kinds
  import opened Wrappers
  import B = Blocks
  import P = Player
  import S = Sorcerer

  /** The size of every stat change. */
  const Step: real := 5.0

  datatype FireChange = Unlit | Lit | Put

  /** One row of the four tables: the stat deltas, the flag change and the
      announcement. */
  datatype Row = Row(damage: real, speed: real, fire: FireChange, text: string, colour: Colour, isBuff: bool)

  /** `PlayAudio(isPlayer, isBuff)`: which of the four clips plays. */
  datatype Cue = Cue(isPlayer: bool, isBuff: bool)

  datatype Notice = Notice(text: string, colour: Colour, cue: Cue)

  datatype Duel = Duel(player: P.PlayerState, sorcerer: S.SorcererState)

  datatype Applied = Applied(duel: Duel, notice: Option<Notice>)

  /** The tables, for `side` Swordsman or Sorcerer, applying or removing;
      None for an effect the switch does not recognise. */
  function Entry(side: EntityType, effect: Effect, apply: bool): (r: Option<Row>)
    requires HasCombatant(side)
    // exactly the five listed effects have a row
    ensures r.Some? <==> effect != NoEffect && effect != DefaultEffect
    // each row changes one thing: one stat by one step, or the fire flag for Fire
    ensures r.Some? ==>
      var row := r.value;
      && (row.damage == 0.0 || row.damage == Step || row.damage == -Step)
      && (row.speed == 0.0 || row.speed == Step || row.speed == -Step)
      && (row.damage != 0.0 ==> row.speed == 0.0)
      && (row.fire != Unlit <==> effect == Fire)
      && (row.fire != Unlit ==> row.damage == 0.0 && row.speed == 0.0)
      && (row.damage != 0.0 || row.speed != 0.0 || row.fire != Unlit)
    // which stat each effect moves, and in which direction
    ensures r.Some? && (effect == AttackPowerUp || effect == AttackPowerDown) ==>
      r.value.speed == 0.0 && r.value.fire == Unlit && r.value.damage == Delta(effect == AttackPowerUp, apply)
    ensures r.Some? && (effect == SpeedUp || effect == SpeedDown) ==>
      r.value.damage == 0.0 && r.value.fire == Unlit && r.value.speed == Delta(effect == SpeedUp, apply)
    ensures r.Some? && effect == Fire ==> r.value.fire == (if apply then Lit else Put)
  {
    if side == Swordsman then
      if apply then
        match effect
        case AttackPowerUp   => Some(Row(Step, 0.0, Unlit, "Swordsman Damage +5!", Cyan, true))
        case AttackPowerDown => Some(Row(-Step, 0.0, Unlit, "Swordsman Damage -5!", Yellow, false))
        case SpeedUp         => Some(Row(0.0, Step, Unlit, "Swordsman Speed +5!", Cyan, true))
        case SpeedDown       => Some(Row(0.0, -Step, Unlit, "Swordsman Speed -5!", Yellow, false))
        case Fire            => Some(Row(0.0, 0.0, Lit, "Swordsman On Fire!", Yellow, false))
        case _               => None
      else
        match effect
        case AttackPowerUp   => Some(Row(-Step, 0.0, Unlit, "Swordsman Damage -5!", Yellow, false))
        case AttackPowerDown => Some(Row(Step, 0.0, Unlit, "Swordsman Damage +5!", Cyan, true))
        case SpeedUp         => Some(Row(0.0, -Step, Unlit, "Swordsman Speed -5!", Yellow, false))
        case SpeedDown       => Some(Row(0.0, Step, Unlit, "Swordsman Speed +5!", Cyan, true))
        case Fire            => Some(Row(0.0, 0.0, Put, "Swordsman Not On Fire!", Cyan, false))
        case _               => None
    else
      if apply then
        match effect
        case AttackPowerUp   => Some(Row(Step, 0.0, Unlit, "Sorcerer Damage +5!", Yellow, true))
        case AttackPowerDown => Some(Row(-Step, 0.0, Unlit, "Sorcerer Damage -5!", Cyan, false))
        case SpeedUp         => Some(Row(0.0, Step, Unlit, "Sorcerer Speed +5!", Yellow, true))
        case SpeedDown       => Some(Row(0.0, -Step, Unlit, "Sorcerer Speed -5!", Cyan, false))
        case Fire            => Some(Row(0.0, 0.0, Lit, "Sorcerer On Fire!", Cyan, false))
        case _               => None
      else
        match effect
        case AttackPowerUp   => Some(Row(-Step, 0.0, Unlit, "Sorcerer Damage -5!", Cyan, false))
        case AttackPowerDown => Some(Row(Step, 0.0, Unlit, "Sorcerer Damage +5!", Yellow, true))
        case SpeedUp         => Some(Row(0.0, -Step, Unlit, "Sorcerer Speed -5!", Cyan, false))
        // the source's text has two spaces here
        case SpeedDown       => Some(Row(0.0, Step, Unlit, "Sorcerer Speed  +5!", Yellow, true))
        case Fire            => Some(Row(0.0, 0.0, Put, "Sorcerer Not On Fire!", Yellow, true))
        case _               => None
  }

  /** The change an "up" or "down" effect makes: a step in its own direction
      when it starts, and the opposite step when it ends. */
  function Delta(up: bool, apply: bool): real {
    if up == apply then Step else -Step
  }

  /** A recognised effect is one of the five the tables list. */
  predicate Recognised(effect: Effect) {
    effect != NoEffect && effect != DefaultEffect
  }

  /** The stat change a row makes, read as a gain for one side: a rise in
      the swordsman's stats, a fall in the sorcerer's, the sorcerer set on
      fire or the swordsman put out. */
  predicate FavoursSwordsman(side: EntityType, row: Row) {
    if side == Swordsman then row.damage > 0.0 || row.speed > 0.0 || row.fire == Put
    else row.damage < 0.0 || row.speed < 0.0 || row.fire == Lit
  }

  /** Ending an effect changes each stat by exactly the negation of what
      starting it did, and the fire flag change is reversed. */
  lemma RemoveNegatesApply(side: EntityType, effect: Effect)
    requires HasCombatant(side)
    ensures Entry(side, effect, true).Some? <==> Recognised(effect)
    ensures Entry(side, effect, false).Some? <==> Recognised(effect)
    ensures Recognised(effect) ==>
      var a := Entry(side, effect, true).value;
      var r := Entry(side, effect, false).value;
      && r.damage == -a.damage && r.speed == -a.speed
      && (a.fire == Lit <==> r.fire == Put) && (a.fire == Unlit <==> r.fire == Unlit)
      && (a.fire == Lit <==> effect == Fire)
  {
  }

  /** The description is cyan exactly when the change favours the swordsman
      and yellow otherwise, over all twenty rows. */
  lemma ColourShowsWhoGains(side: EntityType, effect: Effect, apply: bool)
    requires HasCombatant(side) && Recognised(effect)
    ensures var row := Entry(side, effect, apply).value;
      && (row.colour == Cyan <==> FavoursSwordsman(side, row))
      && (row.colour == Yellow <==> !FavoursSwordsman(side, row))
  {
  }

  /** The cue is a buff exactly when a stat rises, with one exception on each
      side of the fire flag: igniting is never a buff, putting the sorcerer
      out is one, putting the swordsman out is not. */
  lemma CueBuffRule(side: EntityType, effect: Effect, apply: bool)
    requires HasCombatant(side) && Recognised(effect)
    ensures var row := Entry(side, effect, apply).value;
      row.isBuff <==> row.damage > 0.0 || row.speed > 0.0 || (side == Sorcerer && row.fire == Put)
  {
  }

  function Shift(stats: P.ES.Stats, row: Row): P.ES.Stats {
    stats.(damage := stats.damage + row.damage, moveSpeed := stats.moveSpeed + row.speed)
  }

  /** `ApplyEffectToPlayer` / `RemoveEffectFromPlayer`. */
  function OnPlayer(p: P.PlayerState, effect: Effect, apply: bool): (r: (P.PlayerState, Option<Notice>))
    ensures r.0.maxSpeed == r.0.stats.moveSpeed
    ensures !Recognised(effect) ==> r.0.stats == p.stats && r.0.onFire == p.onFire && r.1.None?
    ensures r.0.openConnection == p.openConnection && r.0.currentBlock == p.currentBlock
    ensures r.0.damageTimer == p.damageTimer
    ensures Recognised(effect) ==> r.1.Some?
    ensures effect == AttackPowerUp || effect == AttackPowerDown ==>
      r.0.stats == p.stats.(damage := p.stats.damage + Delta(effect == AttackPowerUp, apply)) && r.0.onFire == p.onFire
    ensures effect == SpeedUp || effect == SpeedDown ==>
      r.0.stats == p.stats.(moveSpeed := p.stats.moveSpeed + Delta(effect == SpeedUp, apply)) && r.0.onFire == p.onFire
    ensures effect == Fire ==> r.0.stats == p.stats && r.0.onFire == apply
  {
    match Entry(Swordsman, effect, apply)
    case None => (P.UpdateMoveSpeed(p), None)
    case Some(row) =>
      var p1 := p.(stats := Shift(p.stats, row));
      var p2 := if row.fire == Lit then P.Ignite(p1) else if row.fire == Put then P.Snuff(p1) else p1;
      (P.UpdateMoveSpeed(p2), Some(Notice(row.text, row.colour, Cue(true, row.isBuff))))
  }

  /** `ApplyEffectToSorcerer` / `RemoveEffectFromSorcerer`. */
  function OnSorcerer(s: S.SorcererState, effect: Effect, apply: bool): (r: (S.SorcererState, Option<Notice>))
    ensures r.0.flyerSpeed == r.0.stats.moveSpeed * S.FlyerSpeedFactor
    ensures !Recognised(effect) ==> r.0.stats == s.stats && r.0.onFire == s.onFire && r.1.None?
    ensures r.0.damageTimer == s.damageTimer
    ensures Recognised(effect) ==> r.1.Some?
    ensures effect == AttackPowerUp || effect == AttackPowerDown ==>
      r.0.stats == s.stats.(damage := s.stats.damage + Delta(effect == AttackPowerUp, apply)) && r.0.onFire == s.onFire
    ensures effect == SpeedUp || effect == SpeedDown ==>
      r.0.stats == s.stats.(moveSpeed := s.stats.moveSpeed + Delta(effect == SpeedUp, apply)) && r.0.onFire == s.onFire
    ensures effect == Fire ==> r.0.stats == s.stats && r.0.onFire == apply
  {
    match Entry(Sorcerer, effect, apply)
    case None => (S.UpdateMoveSpeed(s), None)
    case Some(row) =>
      var s1 := s.(stats := Shift(s.stats, row));
      var s2 := if row.fire == Lit then S.Ignite(s1) else if row.fire == Put then S.Snuff(s1) else s1;
      (S.UpdateMoveSpeed(s2), Some(Notice(row.text, row.colour, Cue(false, row.isBuff))))
  }

  /** `StartEffect` / `EndEffect`: only Swordsman and Sorcerer blocks act. */
  function Act(d: Duel, call: B.EffectCall): (a: Applied)
    ensures !HasCombatant(call.entity) ==> a == Applied(d, None)
    ensures call.entity == Swordsman ==>
      a.duel.sorcerer == d.sorcerer && a.duel.player.maxSpeed == a.duel.player.stats.moveSpeed
    ensures call.entity == Sorcerer ==>
      a.duel.player == d.player && a.duel.sorcerer.flyerSpeed == a.duel.sorcerer.stats.moveSpeed * S.FlyerSpeedFactor
    ensures a.notice.Some? ==> a.notice.value.cue.isPlayer == (call.entity == Swordsman)
    ensures a.notice.Some? <==> HasCombatant(call.entity) && Recognised(call.effect)
  {
    var apply := call.StartEffect?;
    if call.entity == Swordsman then
      var r := OnPlayer(d.player, call.effect, apply);
      Applied(d.(player := r.0), r.1)
    else if call.entity == Sorcerer then
      var r := OnSorcerer(d.sorcerer, call.effect, apply);
      Applied(d.(sorcerer := r.0), r.1)
    else Applied(d, None)
  }

  /** The calls a graph operation made, in order. */
  function ActAll(d: Duel, calls: seq<B.EffectCall>): Duel
    decreases |calls|
  {
    if calls == [] then d else ActAll(Act(d, calls[0]).duel, calls[1..])
  }

  lemma PlayerRoundTrip(p: P.PlayerState, effect: Effect)
    ensures var q := OnPlayer(OnPlayer(p, effect, true).0, effect, false).0;
      q.stats == p.stats && q.onFire == (effect != Fire && p.onFire)
  {
    RemoveNegatesApply(Swordsman, effect);
    match effect
    case AttackPowerUp =>
    case AttackPowerDown =>
    case SpeedUp =>
    case SpeedDown =>
    case Fire =>
    case NoEffect =>
    case DefaultEffect =>
  }

  lemma SorcererRoundTrip(s: S.SorcererState, effect: Effect)
    ensures var t := OnSorcerer(OnSorcerer(s, effect, true).0, effect, false).0;
      t.stats == s.stats && t.onFire == (effect != Fire && s.onFire)
  {
    RemoveNegatesApply(Sorcerer, effect);
    match effect
    case AttackPowerUp =>
    case AttackPowerDown =>
    case SpeedUp =>
    case SpeedDown =>
    case Fire =>
    case NoEffect =>
    case DefaultEffect =>
  }

  /** Starting and then ending the same effect restores damage and move
      speed exactly; for fire the flag ends cleared whatever it was before. */
  lemma StartThenEndRestores(d: Duel, entity: EntityType, effect: Effect)
    ensures var e := ActAll(d, [B.StartEffect(entity, effect), B.EndEffect(entity, effect)]);
      && e.player.stats == d.player.stats
      && e.sorcerer.stats == d.sorcerer.stats
      && (entity == Swordsman && effect == Fire ==> !e.player.onFire)
      && (entity == Sorcerer && effect == Fire ==> !e.sorcerer.onFire)
      && (!(entity == Swordsman && effect == Fire) ==> e.player.onFire == d.player.onFire)
      && (!(entity == Sorcerer && effect == Fire) ==> e.sorcerer.onFire == d.sorcerer.onFire)
  {
    var calls := [B.StartEffect(entity, effect), B.EndEffect(entity, effect)];
    var d1 := Act(d, calls[0]).duel;
    var d2 := Act(d1, calls[1]).duel;
    assert calls[1..] == [B.EndEffect(entity, effect)];
    assert calls[1..][1..] == [];
    assert ActAll(d1, calls[1..]) == ActAll(d2, []) == d2;
    if entity == Swordsman {
      PlayerRoundTrip(d.player, effect);
    } else if entity == Sorcerer {
      SorcererRoundTrip(d.sorcerer, effect);
    }
  }
}
