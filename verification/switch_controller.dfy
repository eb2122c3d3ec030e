/**
 * SwitchController.ts: one setup of relay switches and the bulbs they drive.
 * A poll tick reads each switch; a relay that reports state 0 was flipped by
 * hand, so it is switched back on and the bulbs are toggled through the
 * controller's own throttle gate.
 *
 * Device queries are oracle inputs (see module TpLink). The commands the
 * controller issues are returned in issue order instead of being sent.
 */
module SwitchControl {
  import opened Wrappers
  import opened TpLink
  import opened Throttling

  /** A constructor argument: one ip or a list of them. */
  datatype IpList = One(ip: string) | Many(ips: seq<string>)

  /** The fire-and-forget commands a controller issues. */
  datatype Command =
    | SetRelayPower(ip: string, request: Request)
    | SetLightingPower(ip: string, power: bool, transition: int, retry: int)

  /** How the promise returned by `connect` ends. */
  datatype Settlement = Resolved | Rejected | NeverSettles

  const THROTTLE_MS: nat := 100
  const TOGGLE_TRANSITION_MS: int := 1000
  const TOGGLE_RETRY: int := 10

  /** `[x].flat()`. */
  function Flatten(x: IpList): seq<string> {
    match x
    case One(ip) => [ip]
    case Many(ips) => ips
  }

  /** One device handle per address, in order. */
  function Devices(ips: seq<string>): (r: seq<Device>)
    ensures |r| == |ips|
    ensures forall k :: 0 <= k < |ips| ==> r[k].ip == ips[k]
  {
    seq(|ips|, k requires 0 <= k < |ips| => Device(ips[k]))
  }

  /** Every address in `ips` answered its status query. */
  ghost predicate AllReachable(ips: seq<string>, replies: seq<Option<Reply>>) {
    forall k :: 0 <= k < |ips| ==> GetStatus(ReplyAt(replies, k)).Some?
  }

  /** A switch reading means "flipped" exactly when the query succeeded and `relay_state` is 0. */
  predicate Flipped(reply: Option<Reply>) {
    var data := GetStatus(reply);
    data.Some? && data.value.relay_state == Some(0)
  }

  /** The power the toggle reads from the first bulb: off when there is none or the query fails. */
  function CurrentPower(bulbs: seq<Device>, firstBulbReply: Option<Reply>): (on: bool)
    ensures on <==> |bulbs| > 0 && GetLightingState(firstBulbReply).Some? && GetLightingState(firstBulbReply).value.power
  {
    var state := GetLightingState(firstBulbReply);
    |bulbs| > 0 && state.Some? && state.value.power
  }

  /** The commands one run of `togglePower` issues. */
  function ToggleCommands(bulbs: seq<Device>, firstBulbReply: Option<Reply>): seq<Command> {
    var desired := !CurrentPower(bulbs, firstBulbReply);
    seq(|bulbs|, k requires 0 <= k < |bulbs| => SetLightingPower(bulbs[k].ip, desired, TOGGLE_TRANSITION_MS, TOGGLE_RETRY))
  }

  /**
   * The commands of one poll tick from switch i on: a flipped switch is
   * restored, and the first flipped switch while the gate is open brings the
   * toggle batch; later ones find the gate closed.
   */
  function PollFrom(switches: seq<Device>, replies: seq<Option<Reply>>, i: nat, open: bool, batch: seq<Command>): seq<Command>
    decreases |switches| - i
  {
    if i >= |switches| then []
    else if Flipped(ReplyAt(replies, i)) then
      [Restore(switches[i].ip)] + (if open then batch else []) + PollFrom(switches, replies, i + 1, false, batch)
    else PollFrom(switches, replies, i + 1, open, batch)
  }

  /** The command that switches a relay back on: `setRelayPower(true)`. */
  function Restore(ip: string): Command {
    SetRelayPower(ip, RelayPowerRequest(true))
  }

  /** The commands of the per-switch callback: restore a flipped relay, then toggle if the gate is open. */
  function StepCommands(smartSwitch: Device, reply: Option<Reply>, open: bool, batch: seq<Command>): seq<Command> {
    if !Flipped(reply) then []
    else [Restore(smartSwitch.ip)] + (if open then batch else [])
  }

  lemma PollFromStep(switches: seq<Device>, replies: seq<Option<Reply>>, i: nat, open: bool, batch: seq<Command>)
    requires i < |switches|
    ensures PollFrom(switches, replies, i, open, batch)
         == StepCommands(switches[i], ReplyAt(replies, i), open, batch)
          + PollFrom(switches, replies, i + 1, open && !Flipped(ReplyAt(replies, i)), batch)
  {
  }

  /** The addresses of the flipped switches from i on, in order. */
  function FlippedFrom(switches: seq<Device>, replies: seq<Option<Reply>>, i: nat): seq<string>
    decreases |switches| - i
  {
    if i >= |switches| then []
    else if Flipped(ReplyAt(replies, i)) then [switches[i].ip] + FlippedFrom(switches, replies, i + 1)
    else FlippedFrom(switches, replies, i + 1)
  }

  /** The addresses the relay-restore commands of `cmds` go to, in order. */
  function Restored(cmds: seq<Command>): seq<string> {
    if cmds == [] then []
    else (if cmds[0].SetRelayPower? then [cmds[0].ip] else []) + Restored(cmds[1..])
  }

  /** The number of lighting commands in `cmds`. */
  function LightingCount(cmds: seq<Command>): nat {
    if cmds == [] then 0
    else (if cmds[0].SetLightingPower? then 1 else 0) + LightingCount(cmds[1..])
  }

  lemma {:induction false} CountsOfConcat(a: seq<Command>, b: seq<Command>)
    ensures Restored(a + b) == Restored(a) + Restored(b)
    ensures LightingCount(a + b) == LightingCount(a) + LightingCount(b)
  {
    if a != [] {
      assert (a + b)[1..] == a[1..] + b;
      CountsOfConcat(a[1..], b);
    } else {
      assert a + b == b;
    }
  }

  lemma {:induction false} CountsOfBatch(batch: seq<Command>)
    requires forall k :: 0 <= k < |batch| ==> batch[k].SetLightingPower?
    ensures Restored(batch) == []
    ensures LightingCount(batch) == |batch|
  {
    if batch != [] {
      CountsOfBatch(batch[1..]);
    }
  }

  /**
   * One poll tick restores every flipped switch, in switch order, and issues
   * the toggle batch once if some switch was flipped while the gate was open,
   * never more.
   */
  lemma {:induction false} PollTickEffect(switches: seq<Device>, replies: seq<Option<Reply>>, i: nat, open: bool, batch: seq<Command>)
    requires forall k :: 0 <= k < |batch| ==> batch[k].SetLightingPower?
    ensures Restored(PollFrom(switches, replies, i, open, batch)) == FlippedFrom(switches, replies, i)
    ensures LightingCount(PollFrom(switches, replies, i, open, batch))
         == if open && FlippedFrom(switches, replies, i) != [] then |batch| else 0
    decreases |switches| - i
  {
    if i < |switches| {
      if Flipped(ReplyAt(replies, i)) {
        var head := [Restore(switches[i].ip)] + (if open then batch else []);
        var tail := PollFrom(switches, replies, i + 1, false, batch);
        PollTickEffect(switches, replies, i + 1, false, batch);
        CountsOfConcat(head, tail);
        CountsOfConcat([Restore(switches[i].ip)], if open then batch else []);
        CountsOfBatch(batch);
        assert Restored([Restore(switches[i].ip)]) == [switches[i].ip];
        assert Restored([]) == [] && LightingCount([]) == 0;
      } else {
        PollTickEffect(switches, replies, i + 1, open, batch);
      }
    }
  }

  /** No switch before index n was flipped. */
  predicate NoneFlipped(replies: seq<Option<Reply>>, n: nat) {
    n == 0 || (NoneFlipped(replies, n - 1) && !Flipped(ReplyAt(replies, n - 1)))
  }

  /** The commands of the first n switches of a tick that started with the gate `open`. */
  ghost function PollUpTo(switches: seq<Device>, replies: seq<Option<Reply>>, n: nat, open: bool, batch: seq<Command>): seq<Command>
    requires n <= |switches|
  {
    if n == 0 then []
    else
      var stillOpen := open && NoneFlipped(replies, n - 1);
      PollUpTo(switches, replies, n - 1, open, batch) + StepCommands(switches[n - 1], ReplyAt(replies, n - 1), stillOpen, batch)
  }

  /** Handling switches 0..i-1 and then the rest is handling them all. */
  lemma {:induction false} PollUpToThenFrom(switches: seq<Device>, replies: seq<Option<Reply>>, i: nat, open: bool, batch: seq<Command>)
    requires i <= |switches|
    ensures PollUpTo(switches, replies, i, open, batch)
          + PollFrom(switches, replies, i, open && NoneFlipped(replies, i), batch)
         == PollFrom(switches, replies, 0, open, batch)
  {
    if i > 0 {
      var before := open && NoneFlipped(replies, i - 1);
      var pre := PollUpTo(switches, replies, i - 1, open, batch);
      var step := StepCommands(switches[i - 1], ReplyAt(replies, i - 1), before, batch);
      var rest := PollFrom(switches, replies, i, open && NoneFlipped(replies, i), batch);
      PollFromStep(switches, replies, i - 1, before, batch);
      PollUpToThenFrom(switches, replies, i - 1, open, batch);
      Regroup(pre, step, rest, PollFrom(switches, replies, i - 1, before, batch), PollFrom(switches, replies, 0, open, batch));
    }
  }

  lemma Regroup(pre: seq<Command>, step: seq<Command>, rest: seq<Command>, mid: seq<Command>, total: seq<Command>)
    requires mid == step + rest && pre + mid == total
    ensures (pre + step) + rest == total
  {
    assert (pre + step) + rest == pre + (step + rest);
  }

  /** No switch of the tick was flipped iff none before i was and none from i on is. */
  lemma {:induction false} FlippedFromEmpty(switches: seq<Device>, replies: seq<Option<Reply>>, i: nat)
    requires i <= |switches|
    ensures NoneFlipped(replies, |switches|) <==> NoneFlipped(replies, i) && FlippedFrom(switches, replies, i) == []
    decreases |switches| - i
  {
    if i < |switches| {
      FlippedFromEmpty(switches, replies, i + 1);
    }
  }

  /**
   * As written, a switch whose status query fails throws inside an async
   * promise executor, which leaves that promise pending: `connect` then never
   * settles unless a bulb failure rejects it first.
   */
  function ConnectSettlementAsWritten(switchesReachable: bool, bulbsReachable: bool): Settlement {
    if !bulbsReachable then Rejected
    else if !switchesReachable then NeverSettles
    else Resolved
  }

  /** An unreachable switch with reachable bulbs: the promise never settles. */
  lemma UnreachableSwitchHangsConnect()
    ensures ConnectSettlementAsWritten(false, true) == NeverSettles
  {
  }

  /** The intended settlement: reject on any failed query, like the bulb branch does. */
  function ConnectSettlement(switchesReachable: bool, bulbsReachable: bool): (s: Settlement)
    ensures s != NeverSettles
    ensures s == Resolved <==> switchesReachable && bulbsReachable
  {
    if switchesReachable && bulbsReachable then Resolved else Rejected
  }

  /** Where they settle, the intended and the written settlement agree. */
  lemma SettlementsAgreeWhenSettled(switchesReachable: bool, bulbsReachable: bool)
    ensures ConnectSettlementAsWritten(switchesReachable, bulbsReachable) != NeverSettles ==>
      ConnectSettlementAsWritten(switchesReachable, bulbsReachable) == ConnectSettlement(switchesReachable, bulbsReachable)
  {
  }

  class SwitchController {
    var switchIps: seq<string>
    var bulbIps: seq<string>
    var switches: seq<Device>
    var bulbs: seq<Device>
    /** `toggleLights`: the controller's own throttle around `togglePower`. */
    const toggleLights: Throttle

    ghost predicate Valid()
      reads this, toggleLights
    {
      toggleLights.Valid() && toggleLights.limit == THROTTLE_MS
    }

    /** Both arguments become arrays of the same ips, in order; each controller gets a fresh gate. */
    constructor (switchIps: IpList, bulbIps: IpList, start: int)
      ensures Valid() && fresh(toggleLights)
      ensures this.switchIps == Flatten(switchIps) && this.bulbIps == Flatten(bulbIps)
      ensures switches == [] && bulbs == []
      ensures toggleLights.runs == [] && toggleLights.IsOpen(start) && toggleLights.clock == start
    {
      this.switches := [];
      this.bulbs := [];
      this.switchIps := Flatten(switchIps);
      this.bulbIps := Flatten(bulbIps);
      this.toggleLights := new Throttle(THROTTLE_MS, start);
    }

    /** Query each address; the handles in order if all answered, else nothing. */
    static method Resolve(ips: seq<string>, replies: seq<Option<Reply>>) returns (ok: bool, found: seq<Device>)
      ensures ok <==> AllReachable(ips, replies)
      ensures ok ==> found == Devices(ips)
    {
      ok := true;
      found := [];
      for k := 0 to |ips|
        invariant ok <==> forall j :: 0 <= j < k ==> GetStatus(ReplyAt(replies, j)).Some?
        invariant ok ==> found == Devices(ips[..k])
      {
        var status := GetStatus(ReplyAt(replies, k));
        if status.None? {
          ok := false;
        } else if ok {
          found := found + [Device(ips[k])];
          assert Devices(ips[..k + 1]) == Devices(ips[..k]) + [Device(ips[k])];
        }
      }
      assert ips[..|ips|] == ips;
    }

    /**
     * `connect`: the switches are appended, in configuration order, only if
     * every switch answered; the bulbs likewise, independently.
     */
    method Connect(switchReplies: seq<Option<Reply>>, bulbReplies: seq<Option<Reply>>) returns (settlement: Settlement)
      requires Valid()
      modifies this
      ensures Valid()
      ensures switchIps == old(switchIps) && bulbIps == old(bulbIps)
      ensures switches == old(switches) + (if AllReachable(switchIps, switchReplies) then Devices(switchIps) else [])
      ensures bulbs == old(bulbs) + (if AllReachable(bulbIps, bulbReplies) then Devices(bulbIps) else [])
      ensures settlement == ConnectSettlement(AllReachable(switchIps, switchReplies), AllReachable(bulbIps, bulbReplies))
    {
      var switchesOk, smartSwitches := Resolve(switchIps, switchReplies);
      if switchesOk {
        switches := switches + smartSwitches;
      }
      var bulbsOk, smartBulbs := Resolve(bulbIps, bulbReplies);
      if bulbsOk {
        bulbs := bulbs + smartBulbs;
      }
      settlement := ConnectSettlement(switchesOk, bulbsOk);
    }

    /**
     * `togglePower`: every bulb of the setup, in order, is told to take the
     * opposite of the first bulb's power, with a 1000 ms transition and 10
     * retries; no bulb or a failed query counts as off, so all turn on.
     */
    method TogglePower(firstBulbReply: Option<Reply>) returns (cmds: seq<Command>)
      ensures cmds == ToggleCommands(bulbs, firstBulbReply)
      ensures |cmds| == |bulbs|
      ensures forall k :: 0 <= k < |bulbs| ==>
        && cmds[k].SetLightingPower?
        && cmds[k].ip == bulbs[k].ip
        && cmds[k].transition == TOGGLE_TRANSITION_MS
        && cmds[k].retry == TOGGLE_RETRY
      ensures (|bulbs| == 0 || GetLightingState(firstBulbReply).None?) ==>
        forall k :: 0 <= k < |cmds| ==> cmds[k].power
      ensures |bulbs| > 0 && GetLightingState(firstBulbReply).Some? ==>
        forall k :: 0 <= k < |cmds| ==> cmds[k].power == !GetLightingState(firstBulbReply).value.power
    {
      var state := if |bulbs| > 0 then GetLightingState(firstBulbReply) else None;
      var currentPower := state.Some? && state.value.power;
      cmds := [];
      for k := 0 to |bulbs|
        invariant |cmds| == k
        invariant forall j :: 0 <= j < k ==> cmds[j] == SetLightingPower(bulbs[j].ip, !currentPower, TOGGLE_TRANSITION_MS, TOGGLE_RETRY)
      {
        cmds := cmds + [SetLightingPower(bulbs[k].ip, !currentPower, TOGGLE_TRANSITION_MS, TOGGLE_RETRY)];
      }
    }

    /**
     * The per-switch callback of `pollSwitches`: a switch reporting relay
     * state 0 is switched back on, then the throttled toggle is called.
     */
    method OnSwitchStatus(smartSwitch: Device, reply: Option<Reply>, now: int, firstBulbReply: Option<Reply>)
      returns (cmds: seq<Command>)
      requires Valid() && toggleLights.clock <= now
      modifies toggleLights
      ensures Valid() && toggleLights.clock <= now
      ensures cmds == StepCommands(smartSwitch, reply, old(toggleLights.IsOpen(now)), ToggleCommands(bulbs, firstBulbReply))
      ensures toggleLights.IsOpen(now) == (old(toggleLights.IsOpen(now)) && !Flipped(reply))
      ensures toggleLights.runs == old(toggleLights.runs) + (if Flipped(reply) && old(toggleLights.IsOpen(now)) then [now] else [])
    {
      cmds := [];
      if !Flipped(reply) {
        return;
      }
      cmds := cmds + [Restore(smartSwitch.ip)];
      var ran := toggleLights.Call(now);
      if ran {
        var toggled := TogglePower(firstBulbReply);
        cmds := cmds + toggled;
      }
    }

    /**
     * `pollSwitches` for one tick at time `now`: every switch is read and
     * handled in turn.
     */
    method PollSwitches(replies: seq<Option<Reply>>, now: int, firstBulbReply: Option<Reply>) returns (cmds: seq<Command>)
      requires Valid() && toggleLights.clock <= now
      modifies toggleLights
      ensures Valid() && toggleLights.clock <= now
      ensures cmds == PollFrom(switches, replies, 0, old(toggleLights.IsOpen(now)), ToggleCommands(bulbs, firstBulbReply))
      ensures toggleLights.runs == old(toggleLights.runs)
        + (if old(toggleLights.IsOpen(now)) && FlippedFrom(switches, replies, 0) != [] then [now] else [])
    {
      ghost var batch := ToggleCommands(bulbs, firstBulbReply);
      ghost var open0 := toggleLights.IsOpen(now);
      ghost var runs0 := toggleLights.runs;
      cmds := [];
      for i := 0 to |switches|
        invariant Valid() && toggleLights.clock <= now
        invariant cmds == PollUpTo(switches, replies, i, open0, batch)
        invariant toggleLights.IsOpen(now) <==> open0 && NoneFlipped(replies, i)
        invariant open0 && !toggleLights.IsOpen(now) ==> toggleLights.runs == runs0 + [now]
        invariant toggleLights.IsOpen(now) || !open0 ==> toggleLights.runs == runs0
      {
        var step := OnSwitchStatus(switches[i], ReplyAt(replies, i), now, firstBulbReply);
        cmds := cmds + step;
      }
      PollUpToThenFrom(switches, replies, |switches|, open0, batch);
      FlippedFromEmpty(switches, replies, 0);
    }
  }

  /** The toggle runs at most once in any 100 ms window, per controller. */
  lemma ToggleAtMostOncePer100ms(c: SwitchController, from: int)
    requires c.Valid()
    ensures CountIn(c.toggleLights.runs, from, from + THROTTLE_MS) <= 1
  {
    GateRunsAtMostOncePerWindow(c.toggleLights, from);
  }
}
