/** The ground contact sensor (Core/GroundSensor2D.cs). Unlike the wall
    sensor its reading ignores the `Disabled` flag; there is no count of
    overlapping colliders, so the latest enter or exit decides. */
module GroundSensor2D {
  import opened Events

  datatype GroundSensor = GroundSensor(
    stored: bool,
    disabled: bool,
    disableFor: real,
    epoch: nat,
    live: bool)

  const Initial: GroundSensor := GroundSensor(false, false, 0.0, 0, false)

  /** Tags that count as ground. */
  predicate IsGround(tag: string) {
    tag == "Platform" || tag == "Block"
  }

  /** The `Active` getter: the stored state, whatever `Disabled` says. */
  function Active(s: GroundSensor): bool {
    s.stored
  }

  /** The `Active` setter: the value reads back at once, nothing else
      changes, and the new value is reported. */
  function SetActive(s: GroundSensor, value: bool): (o: Step<GroundSensor>)
    ensures Active(o.state) == value
    ensures o.state.(stored := s.stored) == s
    ensures o.events == [SensorStateChanged(value)]
  {
    Step(s.(stored := value), [SensorStateChanged(value)])
  }

  /** `Disable(duration)`: sets the flag and restarts the routine. */
  function Disable(s: GroundSensor, duration: real): (t: GroundSensor)
    ensures t.disabled && t.live && t.disableFor == duration && t.epoch > s.epoch
    ensures Active(t) == Active(s)
  {
    s.(disabled := true, disableFor := duration, epoch := s.epoch + 1, live := true)
  }

  /** Expiry of routine `epoch`; only the latest one clears the flag. */
  function Expire(s: GroundSensor, epoch: nat): (t: GroundSensor)
    ensures epoch == s.epoch && s.live ==> !t.disabled && !t.live
    ensures !(epoch == s.epoch && s.live) ==> t == s
  {
    if epoch == s.epoch && s.live then s.(disabled := false, live := false) else s
  }

  function Enter(s: GroundSensor, tag: string): (o: Step<GroundSensor>)
    ensures IsGround(tag) ==> Active(o.state) && o.events == [SensorStateChanged(true)]
    ensures !IsGround(tag) ==> o == Step(s, [])
  {
    if IsGround(tag) then SetActive(s, true) else Step(s, [])
  }

  function Exit(s: GroundSensor, tag: string): (o: Step<GroundSensor>)
    ensures IsGround(tag) ==> !Active(o.state) && o.events == [SensorStateChanged(false)]
    ensures !IsGround(tag) ==> o == Step(s, [])
  {
    if IsGround(tag) then SetActive(s, false) else Step(s, [])
  }

  /** The reading is never masked: a write reads back whatever the flag
      says, and neither disabling nor the routine's expiry changes it. */
  lemma ReadingIgnoresMask(s: GroundSensor, value: bool, duration: real, epoch: nat)
    ensures Active(SetActive(Disable(s, duration), value).state) == value
    ensures Active(Disable(s, duration)) == Active(s)
    ensures Active(Expire(s, epoch)) == Active(s)
    ensures Active(Expire(SetActive(Disable(s, duration), value).state, epoch)) == value
  {
  }

  /** Standing on two platforms and leaving one reads as airborne: the
      sensor keeps no overlap count. */
  lemma LastEventWins(s: GroundSensor)
    ensures var a := Enter(s, "Platform").state;
            var b := Enter(a, "Block").state;
            !Active(Exit(b, "Platform").state)
  {
  }
}
