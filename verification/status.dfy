/**
 * The status record `updateStatus` publishes: the first bulb's LightState
 * extended with the running effect's id, the update speed and a display
 * mode. The effects module is not part of this model; the running effect
 * (`runningEffect()`) is an input, absent when no effect runs.
 */
module StatusDerivation {
  import opened Wrappers
  import opened TpLink

  /** A running lighting effect, as far as the status needs it. */
  datatype Effect = Effect(id: string, interval: int)

  /** `mode`: 'color' | 'white' | 'effect'. */
  datatype Mode = ColorMode | WhiteMode | EffectMode

  /** `status.lighting`: every LightState field plus the derived ones. */
  datatype Lighting = Lighting(state: LightState, effect: Option<string>, updateSpeed: int, mode: Mode)

  /** The default `updateTime`: `setInterval` calls `updateStatus` with no argument. */
  const DEFAULT_UPDATE_TIME: int := 1000

  /**
   * The record built from a LightState `ls`, the running effect and
   * `updateTime`. An effect selects the effect mode even when the bulb is
   * off, but its id is reported only while the power is on.
   */
  function Compose(ls: LightState, effect: Option<Effect>, updateTime: int): (r: Lighting)
    ensures r.state == ls
    ensures r.mode == EffectMode <==> effect.Some?
    ensures r.mode == ColorMode <==> effect.None? && ls.colorTemp == Some(0)
    ensures r.mode == WhiteMode <==> effect.None? && ls.colorTemp != Some(0)
    ensures r.effect.Some? <==> effect.Some? && ls.power
    ensures r.effect.Some? ==> r.effect == Some(effect.value.id)
    ensures effect.Some? ==> r.updateSpeed == effect.value.interval
    ensures effect.None? ==> r.updateSpeed == updateTime
  {
    var mode := if effect.Some? then EffectMode else if ls.colorTemp == Some(0) then ColorMode else WhiteMode;
    Lighting(
      ls,
      if ls.power && effect.Some? then Some(effect.value.id) else None,
      if effect.Some? then effect.value.interval else updateTime,
      mode)
  }

  /**
   * The LightState part of the record is the reading itself, and the derived
   * fields depend on the reading only through `power` and `colorTemp`.
   */
  lemma ComposeDependsOnPowerAndColorTemp(a: LightState, b: LightState, effect: Option<Effect>, updateTime: int)
    requires a.power == b.power && a.colorTemp == b.colorTemp
    ensures Compose(a, effect, updateTime).state == a
    ensures Compose(a, effect, updateTime).(state := b) == Compose(b, effect, updateTime)
  {
  }

  /** A running effect puts the status in effect mode even while the bulb is off, with no id. */
  lemma EffectModeWhileOff(ls: LightState, e: Effect, updateTime: int)
    requires !ls.power
    ensures Compose(ls, Some(e), updateTime).mode == EffectMode
    ensures Compose(ls, Some(e), updateTime).effect == None
    ensures Compose(ls, Some(e), updateTime).updateSpeed == e.interval
  {
  }

  /** Without an effect, an unknown colour temperature reads as white, and the speed is 1000 by default. */
  lemma UnknownColorTempIsWhite(ls: LightState)
    requires ls.colorTemp.None?
    ensures Compose(ls, None, DEFAULT_UPDATE_TIME).mode == WhiteMode
    ensures Compose(ls, None, DEFAULT_UPDATE_TIME).updateSpeed == 1000
    ensures Compose(ls, None, DEFAULT_UPDATE_TIME).effect == None
  {
  }
}
