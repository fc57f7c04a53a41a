/** The wall contact sensor (Core/WallSensor2D.cs). Its reading is masked by
    a `Disabled` flag that a timed routine clears; restarting the routine
    cancels the previous one. The routine's expiry is an explicit event
    carrying the epoch of the routine that expires. */
module WallSensor2D {
  import opened Events

  datatype WallSensor = WallSensor(
    stored: bool,        // the raw contact state
    disabled: bool,
    disableFor: real,    // duration of the latest disable routine
    epoch: nat,          // id of the latest disable routine
    live: bool)          // whether that routine is still waiting

  /** The tag the sensor reacts to. */
  const PlatformTag: string := "Platform"

  /** A fresh sensor: no contact, not disabled, no routine pending. */
  const Initial: WallSensor := WallSensor(false, false, 0.0, 0, false)

  /** The `Active` getter: a disabled sensor always reads false. */
  function Active(s: WallSensor): (a: bool)
    ensures s.disabled ==> !a
    ensures !s.disabled ==> a == s.stored
  {
    !s.disabled && s.stored
  }

  /** The `Active` setter: stores the value and reports the raw value; it
      reads back only while the sensor is not masked, and nothing else changes. */
  function SetActive(s: WallSensor, value: bool): (o: Step<WallSensor>)
    ensures Active(o.state) == (value && !s.disabled)
    ensures o.state.stored == value
    ensures o.state.(stored := s.stored) == s
    ensures o.events == [SensorStateChanged(value)]
  {
    Step(s.(stored := value), [SensorStateChanged(value)])
  }

  /** `Disable(duration)`: masks the sensor now and restarts the routine. */
  function Disable(s: WallSensor, duration: real): (t: WallSensor)
    ensures t.disabled && t.live && t.disableFor == duration
    ensures t.epoch > s.epoch
    ensures t.stored == s.stored
    ensures !Active(t)
  {
    s.(disabled := true, disableFor := duration, epoch := s.epoch + 1, live := true)
  }

  /** The disable routine numbered `epoch` reaches the end of its wait. Only
      the latest routine can clear the mask; older ones were stopped. */
  function Expire(s: WallSensor, epoch: nat): (t: WallSensor)
    ensures epoch == s.epoch && s.live ==> !t.disabled && !t.live
    ensures !(epoch == s.epoch && s.live) ==> t == s
    ensures t.stored == s.stored
  {
    if epoch == s.epoch && s.live then s.(disabled := false, live := false) else s
  }

  /** `OnTriggerEnter2D`: a platform sets the contact state; other tags are ignored. */
  function Enter(s: WallSensor, tag: string): (o: Step<WallSensor>)
    ensures tag == PlatformTag ==> o.state.stored && o.events == [SensorStateChanged(true)]
    ensures tag != PlatformTag ==> o == Step(s, [])
    ensures o.state.disabled == s.disabled
  {
    if tag == PlatformTag then SetActive(s, true) else Step(s, [])
  }

  /** `OnTriggerExit2D`: a platform clears the contact state; other tags are ignored. */
  function Exit(s: WallSensor, tag: string): (o: Step<WallSensor>)
    ensures tag == PlatformTag ==> !o.state.stored && o.events == [SensorStateChanged(false)]
    ensures tag != PlatformTag ==> o == Step(s, [])
    ensures o.state.disabled == s.disabled
  {
    if tag == PlatformTag then SetActive(s, false) else Step(s, []) 
  }

  /** Re-disabling supersedes the earlier routine: its expiry no longer
      unmasks the sensor, and only the latest one does. */
  lemma {:induction false} LatestDisableWins(s: WallSensor, d1: real, d2: real)
    ensures var first := Disable(s, d1);
            var second := Disable(first, d2);
            Expire(second, first.epoch).disabled
            && !Expire(second, second.epoch).disabled
  {
    var first := Disable(s, d1);
    var second := Disable(first, d2);
    assert second.epoch == first.epoch + 1;
  }

  /** Touching a platform while masked reports `true` but still reads false;
      the contact shows once the mask expires. */
  lemma MaskedContact(s: WallSensor, d: real)
    ensures var t := Enter(Disable(s, d), PlatformTag);
            t.events == [SensorStateChanged(true)]
            && !Active(t.state)
            && Active(Expire(t.state, t.state.epoch))
  {
  }
}
