/**
 * The device client of `TpLinkDevice`: the structured replies a device sends,
 * the light-state normalisation, the `transition_light_state` payload built
 * from an update request, and the retry loop that delivers it.
 *
 * The UDP transport (`sendData`) is an oracle: the k-th attempt's outcome is
 * the k-th entry of a sequence of replies, `None` standing for a timeout, a
 * send error or an unparseable reply (all of which `.catch(() => null)` turns
 * into `null`). Attempts past the end of the sequence fail.
 */
module TpLink {
  import opened Wrappers

  /** A device handle: the source keeps nothing but the address. */
  datatype Device = Device(ip: string)

  /** The `light_state` object of a bulb's `get_sysinfo` reply, as on the wire. */
  datatype RawLightState = RawLightState(
    hue: Option<int>,
    saturation: Option<int>,
    brightness: Option<int>,
    color_temp: Option<int>,
    on_off: Option<int>)

  /** The fields of `system.get_sysinfo` the controller reads. */
  datatype SysInfo = SysInfo(alias: Option<string>, relay_state: Option<int>, light_state: Option<RawLightState>)

  datatype SystemSection = SystemSection(get_sysinfo: Option<SysInfo>)

  /** A decoded reply datagram. */
  datatype Reply = Reply(system: Option<SystemSection>)

  /** `LightState`: what callers see of a bulb. */
  datatype LightState = LightState(
    hue: Option<int>,
    saturation: Option<int>,
    brightness: Option<int>,
    colorTemp: Option<int>,
    power: bool)

  /** A colour temperature given as kelvin or by name. */
  datatype ColorTemp = Kelvin(k: int) | Warm | Neutral | Cold

  /** `UpdateData`: the requested change (integer inputs only). */
  datatype UpdateData = UpdateData(
    colorTemp: Option<ColorTemp>,
    hue: Option<int>,
    saturation: Option<int>,
    brightness: Option<int>,
    power: Option<bool>,
    transitionSpeed: Option<int>,
    retry: Option<int>)

  /** The `transition_light_state` record sent to a bulb; absent fields are `None`. */
  datatype TransitionPayload = TransitionPayload(
    ignore_default: int,
    transition_period: int,
    on_off: Option<int>,
    brightness: Option<int>,
    color_temp: Option<int>,
    hue: Option<int>,
    saturation: Option<int>)

  /** The three request shapes of the device protocol. */
  datatype Request =
    | GetSysInfo
    | SetRelayState(state: int)
    | TransitionLightState(payload: TransitionPayload)

  /** How `updateState` ends: a thrown error, or the last reply (`null` when all attempts failed). */
  datatype UpdateOutcome = Thrown(message: string) | Returned(data: Option<Reply>)

  const DEFAULT_TRANSITION: int := 1000
  const DEFAULT_RETRY: int := 4

  /** The outcome of the k-th send: attempts past the oracle's end fail. */
  function ReplyAt(replies: seq<Option<Reply>>, k: nat): Option<Reply> {
    if k < |replies| then replies[k] else None
  }

  /** JavaScript truthiness of an optional number. */
  predicate Truthy(v: Option<int>) {
    v.Some? && v.value != 0
  }

  /** `convertToLightState`: `on_off` becomes a boolean, `color_temp` is renamed. */
  function ConvertToLightState(data: RawLightState): (r: LightState)
    ensures r.power <==> Truthy(data.on_off)
    ensures r.hue == data.hue && r.saturation == data.saturation && r.brightness == data.brightness
    ensures r.colorTemp == data.color_temp
  {
    LightState(data.hue, data.saturation, data.brightness, data.color_temp, Truthy(data.on_off))
  }

  /** What a bulb in state `ls` reports as its `light_state`. */
  function RawLightStateOf(ls: LightState): RawLightState {
    RawLightState(ls.hue, ls.saturation, ls.brightness, ls.colorTemp, Some(if ls.power then 1 else 0))
  }

  /**
   * The normalisation loses nothing but the exact value of `on_off`: a bulb's
   * report of a LightState converts back to it, and a raw state survives the
   * round trip exactly when its `on_off` is 0 or 1.
   */
  lemma ConvertRoundTrip(ls: LightState, raw: RawLightState)
    ensures ConvertToLightState(RawLightStateOf(ls)) == ls
    ensures RawLightStateOf(ConvertToLightState(raw)) == raw <==> raw.on_off == Some(0) || raw.on_off == Some(1)
  {
  }

  /** `getStatus`: the `system.get_sysinfo` subtree, absent on failure or on a reply without it. */
  function GetStatus(reply: Option<Reply>): (r: Option<SysInfo>)
    ensures r.Some? ==> reply.Some? && reply.value.system == Some(SystemSection(r))
    ensures reply.Some? && reply.value.system.Some? ==> r == reply.value.system.value.get_sysinfo
    ensures reply.None? || reply.value.system.None? ==> r.None?
  {
    match reply
    case None => None
    case Some(Reply(system)) =>
      match system
      case None => None
      case Some(section) => section.get_sysinfo
  }

  /** The reply a device sends to `get_sysinfo`. */
  function SysInfoReply(info: SysInfo): Option<Reply> {
    Some(Reply(Some(SystemSection(Some(info)))))
  }

  /**
   * `getLightingState`: converting a missing status or a missing `light_state`
   * throws a TypeError, so those replies fail like a timeout.
   */
  function GetLightingState(reply: Option<Reply>): (r: Option<LightState>)
    ensures r.Some? <==> GetStatus(reply).Some? && GetStatus(reply).value.light_state.Some?
    ensures r.Some? ==> r.value == ConvertToLightState(GetStatus(reply).value.light_state.value)
  {
    var info := GetStatus(reply);
    if info.None? || info.value.light_state.None? then None
    else Some(ConvertToLightState(info.value.light_state.value))
  }

  /** A bulb that reports `ls` is read back as `ls`; a lost reply reads as a failure. */
  lemma LightingStateOfReport(ls: LightState, alias: Option<string>, relay: Option<int>)
    ensures GetLightingState(SysInfoReply(SysInfo(alias, relay, Some(RawLightStateOf(ls))))) == Some(ls)
    ensures GetLightingState(None) == None
  {
    ConvertRoundTrip(ls, RawLightStateOf(ls));
  }

  /** `setRelayPower`: the relay request carries 1 for on and 0 for off. */
  function RelayPowerRequest(on: bool): (r: Request)
    ensures r.SetRelayState?
    ensures r.state == 1 <==> on
    ensures r.state == 0 <==> !on
  {
    SetRelayState(if on then 1 else 0)
  }

  /** `r` is `x` clamped into [lo, hi]. */
  ghost predicate ClampedInto(x: int, r: int, lo: int, hi: int) {
    && lo <= r <= hi
    && (x < lo ==> r == lo)
    && (x > hi ==> r == hi)
    && (lo <= x <= hi ==> r == x)
  }

  /** The named colour temperatures in kelvin. */
  function KelvinOf(c: ColorTemp): int {
    match c
    case Warm => 2700
    case Neutral => 6500
    case Cold => 9000
    case Kelvin(k) => k
  }

  /** What the payload built from `u` must hold, field by field. */
  ghost predicate PayloadFor(u: UpdateData, p: TransitionPayload) {
    && p.ignore_default == 1
    && p.transition_period == u.transitionSpeed.GetOr(DEFAULT_TRANSITION)
    && (p.on_off == Some(1) <==> u.power == Some(true))
    && (p.on_off == Some(0) <==> u.power == Some(false))
    && (p.on_off.Some? <==> u.power.Some?)
    && (p.brightness.Some? <==> u.brightness.Some?)
    && (u.brightness.Some? ==> ClampedInto(u.brightness.value, p.brightness.value, 0, 100))
    && (p.hue.Some? <==> u.hue.Some?)
    && (u.hue.Some? ==> ClampedInto(u.hue.value, p.hue.value, 0, 360))
    && (p.saturation.Some? <==> u.saturation.Some?)
    && (u.saturation.Some? ==> ClampedInto(u.saturation.value, p.saturation.value, 0, 100))
    // hue or saturation switches the bulb to colour mode, whatever colorTemp says
    && (u.hue.Some? || u.saturation.Some? ==> p.color_temp == Some(0))
    && (u.hue.None? && u.saturation.None? ==>
          && (p.color_temp.Some? <==> u.colorTemp.Some?)
          && (u.colorTemp.Some? ==> ClampedInto(KelvinOf(u.colorTemp.value), p.color_temp.value, 2500, 9000)))
  }

  /** The field-by-field description leaves no freedom: at most one payload meets it. */
  lemma PayloadForIsUnique(u: UpdateData, p: TransitionPayload, q: TransitionPayload)
    requires PayloadFor(u, p) && PayloadFor(u, q)
    ensures p == q
  {
    assert p.on_off == q.on_off by {
      if u.power.Some? {
        if u.power.value { assert p.on_off == Some(1) == q.on_off; }
        else { assert p.on_off == Some(0) == q.on_off; }
      }
    }
    assert p.brightness == q.brightness;
    assert p.hue == q.hue;
    assert p.saturation == q.saturation;
    assert p.color_temp == q.color_temp;
  }

  /** The payload construction of `updateState`, by successive field assignments. */
  method BuildPayload(u: UpdateData) returns (p: TransitionPayload)
    ensures PayloadFor(u, p)
  {
    var transitionSpeed := u.transitionSpeed.GetOr(DEFAULT_TRANSITION);
    p := TransitionPayload(1, transitionSpeed, None, None, None, None, None);
    if u.power.Some? {
      p := p.(on_off := Some(if u.power.value then 1 else 0));
    }
    if u.brightness.Some? {
      var brightness := u.brightness.value;
      if brightness < 0 { brightness := 0; }
      if brightness > 100 { brightness := 100; }
      p := p.(brightness := Some(brightness));
    }
    if u.colorTemp.Some? {
      var colorTemp := KelvinOf(u.colorTemp.value);
      if colorTemp < 2500 { colorTemp := 2500; }
      if colorTemp > 9000 { colorTemp := 9000; }
      p := p.(color_temp := Some(colorTemp));
    }
    if u.hue.Some? {
      var hue := u.hue.value;
      if hue < 0 { hue := 0; }
      if hue > 360 { hue := 360; }
      p := p.(color_temp := Some(0), hue := Some(hue));
    }
    if u.saturation.Some? {
      var saturation := u.saturation.value;
      if saturation < 0 { saturation := 0; }
      if saturation > 100 { saturation := 100; }
      p := p.(color_temp := Some(0), saturation := Some(saturation));
    }
  }

  /** The named temperatures, and numbers outside [2500, 9000], as sent without hue or saturation. */
  lemma ColorTemperatureExamples(u: UpdateData, p: TransitionPayload)
    requires PayloadFor(u, p) && u.hue.None? && u.saturation.None?
    ensures u.colorTemp == Some(Warm) ==> p.color_temp == Some(2700)
    ensures u.colorTemp == Some(Neutral) ==> p.color_temp == Some(6500)
    ensures u.colorTemp == Some(Cold) ==> p.color_temp == Some(9000)
    ensures u.colorTemp == Some(Kelvin(12000)) ==> p.color_temp == Some(9000)
    ensures u.colorTemp == Some(Kelvin(1000)) ==> p.color_temp == Some(2500)
  {
  }

  /** How many sends the do/while loop makes when every one fails. */
  function MaxAttempts(retry: int): (n: nat)
    ensures n >= 1
    ensures retry >= 1 ==> n == retry
  {
    if retry <= 0 then 1 else retry
  }

  /**
   * The do/while of `updateState`: send, stop at the first reply, otherwise
   * decrement `retry` and go again while it is positive.
   */
  method SendWithRetry(payload: TransitionPayload, retry: int, replies: seq<Option<Reply>>)
    returns (data: Option<Reply>, sent: seq<Request>)
    ensures 1 <= |sent| <= MaxAttempts(retry)
    ensures forall k :: 0 <= k < |sent| ==> sent[k] == TransitionLightState(payload)
    ensures forall k :: 0 <= k < |sent| - 1 ==> ReplyAt(replies, k).None?
    ensures data == ReplyAt(replies, |sent| - 1)
    ensures data.None? ==> |sent| == MaxAttempts(retry)
  {
    var left := retry;
    sent := [];
    while true
      invariant left == retry - |sent|
      invariant |sent| > 0 ==> left > 0
      invariant forall k :: 0 <= k < |sent| ==> sent[k] == TransitionLightState(payload)
      invariant forall k :: 0 <= k < |sent| ==> ReplyAt(replies, k).None?
      decreases left
    {
      data := ReplyAt(replies, |sent|);
      sent := sent + [TransitionLightState(payload)];
      if data.Some? {
        break;
      }
      left := left - 1;
      if left <= 0 {
        break;
      }
    }
  }

  /**
   * `updateState`: a missing request throws before anything is sent;
   * otherwise the payload built from it is sent by the retry loop, with
   * `retry` defaulting to 4.
   */
  method UpdateState(updateData: Option<UpdateData>, replies: seq<Option<Reply>>)
    returns (outcome: UpdateOutcome, sent: seq<Request>)
    ensures updateData.None? <==> outcome.Thrown?
    ensures updateData.None? ==> sent == []
    ensures updateData.Some? ==>
      && var u := updateData.value;
      && 1 <= |sent| <= MaxAttempts(u.retry.GetOr(DEFAULT_RETRY))
      && sent[0].TransitionLightState?
      && PayloadFor(u, sent[0].payload)
      && (forall k :: 0 <= k < |sent| ==> sent[k] == sent[0])
      && (forall k :: 0 <= k < |sent| - 1 ==> ReplyAt(replies, k).None?)
      && outcome == Returned(ReplyAt(replies, |sent| - 1))
      && (outcome.data.None? ==> |sent| == MaxAttempts(u.retry.GetOr(DEFAULT_RETRY)))
  {
    if updateData.None? {
      return Thrown("No update data provided!"), [];
    }
    var u := updateData.value;
    var retry := u.retry.GetOr(DEFAULT_RETRY);
    var payload := BuildPayload(u);
    var data;
    data, sent := SendWithRetry(payload, retry, replies);
    outcome := Returned(data);
  }
}
