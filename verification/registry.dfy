/**
 * The bulb registry and status of src/main.ts (and of its older top-level
 * copy main.ts, which has the same logic): the `bulbs` array, filled by the
 * discovery handler and by the connect loop, and the `status` record that
 * `updateStatus` refreshes from the first bulb.
 *
 * Device queries are oracle inputs (see module TpLink); the effects module is
 * not part of this model, its `runningEffect()` is an input.
 */
module Registry {
  import opened Wrappers
  import opened TpLink
  import opened StatusDerivation
  import Publisher

  const BULB_MARKER: string := "Bulb "

  /** `s` starts with `prefix`. */
  predicate StartsWith(s: string, prefix: string) {
    |prefix| <= |s| && s[..|prefix|] == prefix
  }

  /** `s.includes(sub)`, scanning from the left. */
  function Contains(s: string, sub: string): (r: bool)
    ensures |sub| > |s| ==> !r
    decreases |s|
  {
    StartsWith(s, sub) || (|s| > 0 && Contains(s[1..], sub))
  }

  /** `sub` occurs in `s` at some position. */
  ghost predicate OccursIn(s: string, sub: string) {
    exists i :: 0 <= i <= |s| && StartsWith(s[i..], sub)
  }

  /** The scan finds `sub` exactly when it occurs somewhere in `s`. */
  lemma {:induction false} ContainsIffOccurs(s: string, sub: string)
    ensures Contains(s, sub) <==> OccursIn(s, sub)
    decreases |s|
  {
    assert s[0..] == s;
    if |s| > 0 {
      ContainsIffOccurs(s[1..], sub);
      if OccursIn(s[1..], sub) {
        var i :| 0 <= i <= |s[1..]| && StartsWith(s[1..][i..], sub);
        assert s[1..][i..] == s[i + 1..];
      }
      if OccursIn(s, sub) && !StartsWith(s, sub) {
        var i :| 0 <= i <= |s| && StartsWith(s[i..], sub);
        assert i > 0;
        assert s[1..][i - 1..] == s[i..];
      }
    }
  }

  /** A status reply qualifies as a bulb when it has an alias containing "Bulb ". */
  predicate IsBulbInfo(info: Option<SysInfo>) {
    info.Some? && info.value.alias.Some? && Contains(info.value.alias.value, BULB_MARKER)
  }

  /** `bulbs.find(b => b.ip === ip)` found something. */
  predicate Known(bulbs: seq<Device>, ip: string) {
    exists k :: 0 <= k < |bulbs| && bulbs[k].ip == ip
  }

  ghost predicate DistinctIps(bulbs: seq<Device>) {
    forall i, j :: 0 <= i < j < |bulbs| ==> bulbs[i].ip != bulbs[j].ip
  }

  /** What `connectToBulb` returns: `false`, `undefined` (the bare `return`) or `true`. */
  datatype ConnectResult = NotABulb | AlreadyKnown | Connected

  /** The result of `connectToBulb(ip)` for a status reply, against the current registry. */
  function ConnectOutcome(bulbs: seq<Device>, ip: string, reply: Option<Reply>): (r: ConnectResult)
    ensures r == NotABulb <==> !IsBulbInfo(GetStatus(reply))
    ensures r == AlreadyKnown <==> IsBulbInfo(GetStatus(reply)) && Known(bulbs, ip)
    ensures r == Connected <==> IsBulbInfo(GetStatus(reply)) && !Known(bulbs, ip)
  {
    if !IsBulbInfo(GetStatus(reply)) then NotABulb
    else if Known(bulbs, ip) then AlreadyKnown
    else Connected
  }

  /** Only `true` counts as success in the retry loop; `undefined` is falsy. */
  predicate Success(r: ConnectResult) {
    r == Connected
  }

  /** The index of the first reply that qualifies as a bulb, if any. */
  function FirstBulbReply(replies: seq<Option<Reply>>): (r: Option<nat>)
    ensures r.Some? ==> r.value < |replies| && IsBulbInfo(GetStatus(replies[r.value]))
    ensures r.Some? ==> forall k :: 0 <= k < r.value ==> !IsBulbInfo(GetStatus(replies[k]))
    ensures r.None? ==> forall k :: 0 <= k < |replies| ==> !IsBulbInfo(GetStatus(replies[k]))
  {
    if replies == [] then None
    else if IsBulbInfo(GetStatus(replies[0])) then Some(0)
    else
      var rest := FirstBulbReply(replies[1..]);
      if rest.None? then None else Some(rest.value + 1)
  }

  /** The module-level `bulbs` array and `status` record. */
  class BulbRegistry {
    var bulbs: seq<Device>
    /** `status.bulbCount`. */
    var bulbCount: nat
    /** `status.lighting`, null until the first successful refresh. */
    var lighting: Option<Lighting>
    /** The alias each bulb reported when it was admitted. */
    ghost var aliases: seq<string>

    ghost predicate Valid()
      reads this
    {
      && DistinctIps(bulbs)
      && |aliases| == |bulbs|
      && (forall k :: 0 <= k < |aliases| ==> Contains(aliases[k], BULB_MARKER))
      && bulbCount <= |bulbs|
    }

    constructor ()
      ensures Valid()
      ensures bulbs == [] && bulbCount == 0 && lighting == None
    {
      bulbs := [];
      bulbCount := 0;
      lighting := None;
      aliases := [];
    }

    /** Push a device that answered as a bulb and is not yet known. */
    method Admit(device: Device, info: SysInfo)
      requires Valid()
      requires IsBulbInfo(Some(info)) && !Known(bulbs, device.ip)
      modifies this
      ensures Valid()
      ensures bulbs == old(bulbs) + [device]
      ensures bulbCount == old(bulbCount) && lighting == old(lighting)
    {
      bulbs := bulbs + [device];
      aliases := aliases + [info.alias.value];
    }

    /**
     * The scanner's 'new' handler: the discovered device is pushed when its
     * status names it a bulb and its ip is not yet registered.
     */
    method OnDiscovered(device: Device, reply: Option<Reply>)
      requires Valid()
      modifies this
      ensures Valid()
      ensures bulbs == old(bulbs)
        + (if IsBulbInfo(GetStatus(reply)) && !Known(old(bulbs), device.ip) then [device] else [])
      ensures bulbCount == old(bulbCount) && lighting == old(lighting)
    {
      var info := GetStatus(reply);
      if !IsBulbInfo(info) {
        return;
      }
      if Known(bulbs, device.ip) {
        return;
      }
      Admit(device, info.value);
    }

    /** `connectToBulb(ip)`: the same admission, reporting what happened. */
    method ConnectToBulb(ip: string, reply: Option<Reply>) returns (r: ConnectResult)
      requires Valid()
      modifies this
      ensures Valid()
      ensures r == ConnectOutcome(old(bulbs), ip, reply)
      ensures bulbs == old(bulbs) + (if r == Connected then [Device(ip)] else [])
      ensures bulbCount == old(bulbCount) && lighting == old(lighting)
    {
      var info := GetStatus(reply);
      if !IsBulbInfo(info) {
        return NotABulb;
      }
      if Known(bulbs, ip) {
        return AlreadyKnown;
      }
      Admit(Device(ip), info.value);
      return Connected;
    }

    /**
     * One ip of `connectToAllBulbs`: retry `connectToBulb` until the ip is
     * registered or a connect succeeds. The k-th attempt reads `replies[k]`;
     * the model stops when the replies run out, where the source would keep
     * retrying every 5 s.
     */
    method ConnectUntilPresent(ip: string, replies: seq<Option<Reply>>) returns (attempts: nat, present: bool)
      requires Valid()
      modifies this
      ensures Valid()
      ensures present <==> Known(bulbs, ip)
      ensures FirstBulbReply(replies).Some? ==> present
      ensures Known(old(bulbs), ip) ==> attempts == 0 && bulbs == old(bulbs)
      ensures !Known(old(bulbs), ip) && FirstBulbReply(replies).Some? ==>
        attempts == FirstBulbReply(replies).value + 1 && bulbs == old(bulbs) + [Device(ip)]
      ensures !Known(old(bulbs), ip) && FirstBulbReply(replies).None? ==>
        attempts == |replies| && bulbs == old(bulbs)
      ensures bulbCount == old(bulbCount) && lighting == old(lighting)
    {
      attempts := 0;
      while true
        invariant Valid()
        invariant attempts <= |replies|
        invariant bulbCount == old(bulbCount) && lighting == old(lighting)
        invariant Known(old(bulbs), ip) ==> attempts == 0 && bulbs == old(bulbs)
        invariant !Known(old(bulbs), ip) ==> bulbs == old(bulbs) && !Known(bulbs, ip)
        invariant forall k :: 0 <= k < attempts ==> !IsBulbInfo(GetStatus(replies[k]))
        decreases |replies| - attempts
      {
        if Known(bulbs, ip) {
          return attempts, true;
        }
        if attempts == |replies| {
          return attempts, false;
        }
        var r := ConnectToBulb(ip, replies[attempts]);
        attempts := attempts + 1;
        if Success(r) {
          assert bulbs[|bulbs| - 1].ip == ip;
          return attempts, true;
        }
      }
    }

    /**
     * `connectToAllBulbs`, one configured ip after the other: every ip whose
     * replies include a bulb answer ends up registered, and the array only grows.
     */
    method ConnectAll(ips: seq<string>, replies: seq<seq<Option<Reply>>>)
      requires Valid()
      requires |replies| == |ips|
      modifies this
      ensures Valid()
      ensures |old(bulbs)| <= |bulbs| && bulbs[..|old(bulbs)|] == old(bulbs)
      ensures forall k :: 0 <= k < |ips| && FirstBulbReply(replies[k]).Some? ==> Known(bulbs, ips[k])
      ensures forall k :: 0 <= k < |old(bulbs)| ==> Known(bulbs, old(bulbs)[k].ip)
      ensures bulbCount == old(bulbCount) && lighting == old(lighting)
    {
      for i := 0 to |ips|
        invariant Valid()
        invariant |old(bulbs)| <= |bulbs| && bulbs[..|old(bulbs)|] == old(bulbs)
        invariant forall k :: 0 <= k < i && FirstBulbReply(replies[k]).Some? ==> Known(bulbs, ips[k])
        invariant bulbCount == old(bulbCount) && lighting == old(lighting)
      {
        ghost var before := bulbs;
        var attempts, present := ConnectUntilPresent(ips[i], replies[i]);
        assert bulbs[..|before|] == before;
        forall k | 0 <= k < i && FirstBulbReply(replies[k]).Some?
          ensures Known(bulbs, ips[k])
        {
          var j :| 0 <= j < |before| && before[j].ip == ips[k];
          assert bulbs[j] == before[j];
        }
      }
      forall k | 0 <= k < |old(bulbs)| ensures Known(bulbs, old(bulbs)[k].ip) {
        assert bulbs[k] == old(bulbs)[k];
      }
    }

    /**
     * `updateStatus(updateTime)`: with a first bulb that answers, the status
     * is refreshed and published; otherwise nothing changes and nothing is
     * sent. `reply` is the first bulb's answer to the lighting query.
     */
    method UpdateStatus(ws: Publisher.Hub, reply: Option<Reply>, effect: Option<Effect>, updateTime: int := DEFAULT_UPDATE_TIME)
      returns (published: bool)
      requires Valid() && ws.Valid()
      modifies this, ws
      ensures Valid() && ws.Valid() && bulbs == old(bulbs) && ws.nextId == old(ws.nextId)
      ensures published <==> |bulbs| > 0 && GetLightingState(reply).Some?
      ensures !published ==>
        && bulbCount == old(bulbCount) && lighting == old(lighting)
        && ws.lastMessage == old(ws.lastMessage) && ws.clients == old(ws.clients)
      ensures published ==>
        && bulbCount == |bulbs|
        && lighting == Some(Compose(GetLightingState(reply).value, effect, updateTime))
        && (ws.lastMessage, ws.clients)
           == Publisher.AfterSend(old(ws.lastMessage), old(ws.clients), Publisher.StatusJson(lighting.value))
    {
      if |bulbs| == 0 {
        return false;
      }
      var lightState := GetLightingState(reply);
      if lightState.None? {
        return false;
      }
      bulbCount := |bulbs|;
      lighting := Some(Compose(lightState.value, effect, updateTime));
      ws.SendStatus(true, lighting);
      published := true;
    }
  }

  /** An alias qualifies exactly when "Bulb " occurs in it, e.g. "Bulb 3" does and "Lamp" does not. */
  lemma BulbAliasExamples()
    ensures Contains("Living Room Bulb 3", BULB_MARKER)
    ensures !Contains("Bulb", BULB_MARKER)
    ensures !Contains("Lamp", BULB_MARKER)
  {
    assert StartsWith("Bulb 3", BULB_MARKER);
    assert Contains("Bulb 3", BULB_MARKER);
    assert "Living Room Bulb 3"[12..] == "Bulb 3";
  }
}
