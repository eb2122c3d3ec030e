# light-controller, modelled in Dafny

light-controller is a small home-automation service. It drives smart bulbs and
smart relay switches over their vendor protocol, and keeps the bulbs in step
with the physical switches. It also keeps a registry of bulbs, derives a
status record from the first bulb and publishes it to WebSocket clients.

This project models the core of that service and proves properties of the model:

- `cipher.dfy` (module `Cipher`): the autokey XOR obfuscation of every
  datagram. Encryption and decryption are modelled as in-place transforms on
  byte arrays, each proved equal to a recursive definition. Per-byte
  recurrences and both round trips are proved about those definitions.
- `tplink.dfy` (module `TpLink`): the device client. It covers the reply
  shapes, `getStatus`, `getLightingState`, `convertToLightState` and
  `setRelayPower`. It also covers the `transition_light_state` payload that
  `updateState` builds by successive field assignments, and its do/while
  retry loop. The UDP transport is an oracle: the k-th send's outcome is the
  k-th entry of a sequence of replies, and `None` stands for a timeout or an
  unreadable reply.
- `throttle.dfy` (module `Throttling`): the `throttle` gate. It is a class
  with the `waiting` flag, an explicit clock and a ghost history of the times
  the callback ran. The invariant keeps successive runs at least `limit`
  apart, which gives "at most once per window".
- `switch_controller.dfy` (module `SwitchControl`): `SwitchController`.
  - Its constructor normalises the ip arguments.
  - `connect` pushes devices all-or-nothing.
  - One `pollSwitches` tick restores flipped relays and fires the throttled
    toggle.
  - `togglePower` negates the first bulb's power.
  - Commands to devices are returned in issue order, not sent.
- `status.dfy` (module `StatusDerivation`): the `mode` / `effect` /
  `updateSpeed` derivation of `updateStatus`.
- `publisher.dfy` (module `Publisher`): the WebSocket side of
  src/interfaces/ws.ts.
  - `sendToClients` de-duplicates against `lastMessage`.
  - `sendStatus` chooses between the "no bulbs" notice and the status.
  - A new connection is sent the effects list and the last message.
  - The pong handler sets a client's flag, and the keep-alive sweep
    terminates clients whose flag is clear.
- `registry.dfy` (module `Registry`): the `bulbs` array and `status` record
  of src/main.ts.
  - Admission: the alias must contain "Bulb " and the ip must not be
    registered yet.
  - The three-valued `connectToBulb`, the per-ip retry loop of
    `connectToAllBulbs` and `updateStatus`.
  - main.ts is an older copy of the same code. main.ts:25-32, 37-47 and
    76-99 match src/main.ts:20-27, 30-40 and 69-92 line for line. The
    per-ip retry loops also match (main.ts:50-62 and src/main.ts:43-55),
    but not what surrounds them: main.ts:49-63 runs the loop in an inline
    `setTimeout`, while src/main.ts:42-56 defines `connectToAllBulbs`,
    which src/main.ts:110 schedules. One model serves both, and the rows
    below cite main.ts on the lemmas that state its properties.
- `wrappers.dfy` (module `Wrappers`): `Option`.

## Model

| member | source | states |
|---|---|---|
| Cipher.EncryptSeq | src/TpLinkDevice.ts:57-65 | encryption keeps the length; the empty input maps to the empty output |
| Cipher.DecryptSeq | src/TpLinkDevice.ts:66-73 | decryption keeps the length; the empty input maps to the empty output |
| Cipher.EncryptIsChained | src/TpLinkDevice.ts:59-63 | `r` is the encryption of `s` under `key` iff out[0] = in[0] ^ key and out[i] = in[i] ^ out[i-1] for every later i |
| Cipher.DecryptIsChained | src/TpLinkDevice.ts:67-71 | `r` is the decryption of `s` under `key` iff out[0] = in[0] ^ key and out[i] = in[i] ^ in[i-1] for every later i |
| Cipher.ChainedEncryptionIsUnique | src/TpLinkDevice.ts:59-63 | at most one output meets the encryption recurrence for a given input and key |
| Cipher.ChainedDecryptionIsUnique | src/TpLinkDevice.ts:67-71 | at most one output meets the decryption recurrence for a given input and key |
| Cipher.DecryptInvertsEncrypt | src/TpLinkDevice.ts:57-73 | decrypting an encryption with the same key gives back the input, for every byte sequence and key |
| Cipher.EncryptInvertsDecrypt | src/TpLinkDevice.ts:57-73 | encrypting a decryption with the same key gives back the input, for every byte sequence and key |
| Cipher.Encrypt | src/TpLinkDevice.ts:57-65 | rewrites the buffer in place to its encryption (key 0xAB by default) and returns the same buffer |
| Cipher.Decrypt | src/TpLinkDevice.ts:66-73 | rewrites the buffer in place to its decryption (key 0xAB by default) and returns the same buffer |
| TpLink.ConvertToLightState | src/TpLinkDevice.ts:48-56 | hue, saturation, brightness and `color_temp` (as `colorTemp`) pass through unchanged; `power` is true iff `on_off` is present and nonzero |
| TpLink.ConvertRoundTrip | src/TpLinkDevice.ts:48-56 | every LightState survives conversion to a raw state and back; a raw state survives conversion and back exactly iff its `on_off` is 0 or 1 |
| TpLink.GetStatus | src/TpLinkDevice.ts:115-118 | with a reply that holds `system`, the status is exactly its `get_sysinfo` subtree; with no reply or no `system`, there is no status |
| TpLink.GetLightingState | src/TpLinkDevice.ts:119-122 | a LightState is returned iff the status and its `light_state` are present, and it is the conversion of that `light_state` |
| TpLink.LightingStateOfReport | src/TpLinkDevice.ts:119-122 | a bulb reporting a LightState is read back as that LightState; a lost reply is a failure |
| TpLink.RelayPowerRequest | src/TpLinkDevice.ts:190-198 | the relay request carries state 1 iff on and 0 iff off |
| TpLink.BuildPayload | src/TpLinkDevice.ts:127-174 | the payload has `ignore_default` 1 and `transition_period` = transitionSpeed or 1000; `on_off` is present iff power was given, 1/0 accordingly; brightness and saturation are clamped to [0,100], hue to [0,360]; colour temperature is mapped by name and clamped to [2500,9000]; hue or saturation forces `color_temp` 0 |
| TpLink.PayloadForIsUnique | src/TpLinkDevice.ts:129-174 | the payload description determines every field: two payloads meeting it for the same request are equal |
| TpLink.ColorTemperatureExamples | src/TpLinkDevice.ts:145-156 | warm, neutral and cold are sent as 2700, 6500 and 9000; 12000 is sent as 9000 and 1000 as 2500 |
| TpLink.MaxAttempts | src/TpLinkDevice.ts:176-185 | the loop makes at least one attempt, and exactly `retry` attempts when `retry` is positive |
| TpLink.SendWithRetry | src/TpLinkDevice.ts:176-187 | every attempt sends the same payload; the loop stops at the first reply and returns it; if all fail it makes exactly max(retry,1) attempts and returns null |
| TpLink.UpdateState | src/TpLinkDevice.ts:123-188 | a missing request throws before any send; otherwise the payload meets the description above, the retry default is 4, and the outcome is that of the retry loop |
| Throttling.Throttle.constructor | SwitchController.ts:3-4 | a new gate is open and has never run |
| Throttling.Throttle.Call | SwitchController.ts:5-16 | a call runs the callback iff the gate is open (or its timer has fired); a run closes the gate until `limit` ms later; a dropped call changes no history |
| Throttling.SpacedAppend | SwitchController.ts:9-14 | a run `limit` or more after the latest keeps every two runs at least `limit` apart |
| Throttling.AtMostOncePerWindow | SwitchController.ts:7-14 | a spaced history has at most one run in any window of `limit` ms |
| Throttling.GateRunsAtMostOncePerWindow | SwitchController.ts:3-17 | however the calls arrive, a gate runs at most once in any window of `limit` ms |
| SwitchControl.SwitchController.constructor | SwitchController.ts:26-33 | a single ip or a list becomes a list of the same ips in order; no devices yet; a fresh gate of 100 ms per controller |
| SwitchControl.SwitchController.Resolve | SwitchController.ts:35-61 | success iff every ip answered its status query, and then one handle per ip in configuration order |
| SwitchControl.SwitchController.Connect | SwitchController.ts:63-80 | switches, and separately bulbs, are appended in order iff every one of them answered, otherwise left unchanged; the settlement is the corrected one (see Left out) |
| SwitchControl.ConnectSettlementAsWritten | SwitchController.ts:34-81 | as written: failing bulbs reject, otherwise failing switches leave the promise pending, otherwise it resolves |
| SwitchControl.UnreachableSwitchHangsConnect | SwitchController.ts:37-45 | with an unreachable switch and reachable bulbs, the promise as written never settles |
| SwitchControl.ConnectSettlement | SwitchController.ts:48-61 | corrected: connect always settles, and resolves iff all switches and all bulbs answered |
| SwitchControl.SettlementsAgreeWhenSettled | SwitchController.ts:63-80 | wherever the written code settles, it settles as the corrected definition does |
| SwitchControl.CurrentPower | SwitchController.ts:96-98 | the current power is on iff there is a bulb, its lighting query succeeds and it reports power on |
| SwitchControl.SwitchController.TogglePower | SwitchController.ts:95-103 | every bulb, in order, gets one lighting command with the negated current power, transition 1000 and retry 10; no bulb or a failed query turns all on |
| SwitchControl.SwitchController.OnSwitchStatus | SwitchController.ts:87-93 | only a switch reporting relay state 0 is restored and calls the gate; a failed query or a nonzero state issues nothing and leaves the gate alone |
| SwitchControl.SwitchController.PollSwitches | SwitchController.ts:86-94 | a tick's commands are the per-switch decisions in switch order; the gate records a run at `now` iff it was open and some switch was flipped |
| SwitchControl.PollTickEffect | SwitchController.ts:86-94 | a tick restores exactly the flipped switches, in order, and issues the toggle batch once if a switch was flipped while the gate was open, otherwise not at all |
| SwitchControl.PollUpToThenFrom | SwitchController.ts:87-93 | handling the first i switches and then the rest equals handling the whole tick |
| SwitchControl.ToggleAtMostOncePer100ms | SwitchController.ts:32 | each controller's toggle runs at most once in any 100 ms window |
| StatusDerivation.Compose | src/main.ts:77-90 | mode is effect iff an effect runs, color iff no effect and colorTemp is 0, white otherwise; the effect id is reported iff an effect runs and power is on; updateSpeed is the effect's interval, else updateTime; every LightState field is kept |
| StatusDerivation.EffectModeWhileOff | src/main.ts:79-88 | a running effect gives effect mode even when the bulb is off, but no effect id |
| StatusDerivation.ComposeDependsOnPowerAndColorTemp | main.ts:92-97 | the record keeps the reading, and its derived fields depend on the reading only through power and colorTemp |
| StatusDerivation.UnknownColorTempIsWhite | main.ts:86-95 | without an effect, an undefined colorTemp gives white mode, no effect id and the default speed 1000 |
| Publisher.Deliver | src/interfaces/ws.ts:73 | every client, in order, receives the data and nothing else changes |
| Publisher.AfterSend | src/interfaces/ws.ts:68-75 | data equal to the last message sends nothing and changes nothing; any other data reaches every client and becomes the last message |
| Publisher.SendSetsLast | src/interfaces/ws.ts:71-74 | after a send the last message is the data, whether or not it was broadcast |
| Publisher.RepeatedSendIsSilent | src/interfaces/ws.ts:68-75 | sending the same payload twice in a row is the same as sending it once |
| Publisher.SendsInARowDeliverOnce | src/interfaces/ws.ts:71-74 | n identical sends in a row deliver the payload to each client once, or not at all if it was already the last message |
| Publisher.StatusMessage | src/interfaces/ws.ts:87-93 | the notice "No Bulbs Detected!" is sent iff there is no first bulb or no lighting status; otherwise `{status: lighting}` |
| Publisher.SweepOne | src/interfaces/ws.ts:78-83 | a sweep removes a client iff its flag is clear; a kept client has its flag cleared, one more ping and "ping" appended to its inbox |
| Publisher.SweptClients | src/interfaces/ws.ts:77-85 | after a sweep every client's flag is clear, and a client is still connected iff its flag was set |
| Publisher.SweptKeepsIds | src/interfaces/ws.ts:77-85 | a sweep only removes clients, so connection ids stay increasing and below the next id |
| Publisher.Ponged | src/interfaces/ws.ts:29 | a pong sets the flag of the answering client and changes nothing else |
| Publisher.PongedAllFlags | src/interfaces/ws.ts:29 | after a run of pongs a client's flag is set iff it was set or the client answered |
| Publisher.SurvivesNextSweepIffAnswered | src/interfaces/ws.ts:27-85 | a client survives the next sweep iff it survived the previous one and answered a ping in between |
| Publisher.Hub.constructor | src/interfaces/ws.ts:17 | no last message and no clients at start |
| Publisher.Hub.SendToClients | src/interfaces/ws.ts:68-75 | the broadcast loop leaves the clients and last message as `AfterSend` says |
| Publisher.Hub.SendStatus | src/interfaces/ws.ts:87-93 | sends the message `StatusMessage` selects, through the de-duplicating broadcast |
| Publisher.Hub.OnConnection | src/interfaces/ws.ts:22-30 | a new client gets a fresh id, the effects list, then the last message if it is non-empty; it starts alive |
| Publisher.Hub.Pong | src/interfaces/ws.ts:29 | the answering client is alive again |
| Publisher.Hub.Sweep | src/interfaces/ws.ts:77-85 | terminates every silent client; every other one is pinged, sent "ping" and has its flag cleared |
| Registry.Contains | src/main.ts:22 | an alias shorter than the marker never contains it |
| Registry.ContainsIffOccurs | main.ts:27 | `includes` holds iff the marker occurs at some position of the alias |
| Registry.BulbAliasExamples | main.ts:41 | "Living Room Bulb 3" qualifies; "Bulb" (no space) and "Lamp" do not |
| Registry.ConnectOutcome | main.ts:37-47 | `connectToBulb` gives false iff the reply does not name a bulb, undefined iff it names one whose ip is registered, true iff it names a new one |
| Registry.FirstBulbReply | main.ts:52-56 | the index of the first reply naming a bulb: all earlier replies fail, and none at all when the result is absent |
| Registry.BulbRegistry.constructor | src/main.ts:67 | no bulbs, bulbCount 0 and no lighting status at start |
| Registry.BulbRegistry.Admit | src/main.ts:26 | a qualifying, unregistered device is appended and the registry invariant holds |
| Registry.BulbRegistry.OnDiscovered | src/main.ts:20-27 | a discovered device is appended iff its status names a bulb and its ip is not registered; the array only grows |
| Registry.BulbRegistry.ConnectToBulb | src/main.ts:30-40 | returns the outcome above and appends the device exactly when it returns true |
| Registry.BulbRegistry.ConnectUntilPresent | src/main.ts:43-53 | the loop ends with the ip registered iff it was already there or a reply named a bulb, after exactly as many attempts as it took to get that reply |
| Registry.BulbRegistry.ConnectAll | src/main.ts:42-56 | every configured ip with a bulb reply ends up registered, and earlier bulbs stay in place |
| Registry.BulbRegistry.UpdateStatus | src/main.ts:69-92 | with no bulb or a failed query nothing changes and nothing is published; otherwise bulbCount is the number of bulbs, lighting is the derived record, and it is published through `sendStatus` |

## Left out

- The UDP transport (`sendData`, `scan`, src/TpLinkDevice.ts:28-47, 74-114) is not modelled: its socket handling, 100 ms timeout and close races. Replies are an oracle sequence.
- Cipher.Encrypt: a string argument is first UTF-8 encoded into a fresh buffer (`Buffer.from`). The model takes byte arrays only, because encoding is a library call.
- JSON.stringify and JSON.parse are library calls. Payloads and messages are datatypes, and two messages are equal iff their values are.
- `Math.round` on floating-point inputs is not modelled: every update field is an integer, so rounding is the identity.
- Timers are not modelled: the throttle's `setTimeout`, the 10 ms poll interval, `startPolling` and `pollInterval` (SwitchController.ts:82-85), the 100 ms `setInterval` of `updateStatus`, the 5 s reconnect sleep and the 3 s sweep interval. The gate takes the time of each call as an argument, and its timer is taken to fire exactly `limit` ms after the run that armed it.
- Concurrency is not modelled: `forEach(async …)`, `Promise.all` and interleaved replies. Each event is handled to completion, in array order.
- SwitchControl.SwitchController.PollSwitches: states the commands in switch order. In the source their order depends on when the replies arrive.
- Registry.BulbRegistry.ConnectAll: handles the configured ips one after the other, and each handler runs to completion. In the source, `connectToBulb` can return undefined when, during its `await` (src/main.ts:32), the scan handler (src/main.ts:20-27) or a second loop for the same ip registers that ip. The model does not interleave those, so undefined arises only for an ip registered before its loop starts. The contract also does not list the final array in full.
- SwitchControl.SwitchController.Connect: returns the corrected settlement (SwitchControl.ConnectSettlement), under which a failed switch rejects. As written, such a `connect()` never settles when every bulb answers; SwitchControl.ConnectSettlementAsWritten states that settlement, and the Findings row below gives the discrepancy.
- Registry.BulbRegistry.ConnectUntilPresent: stops when the oracle's replies run out. The source keeps retrying for ever.
- `setLightingPower`, called by `togglePower`, belongs to a device class that is not part of this model. It is a command value with (power, 1000, 10).
- The effects module is not part of this model. `runningEffect()` is an optional (id, interval) input, and `getLoadedEffects()` is a list of names given to `OnConnection`.
- The `onMessage` handler (src/interfaces/ws.ts:43-66) is not modelled. It parses client JSON and dispatches to the effects module and `updateAllBulbs`, neither of which is modelled.
- `client.terminate()` closes a connection asynchronously. The model removes the client at once.
- `main`, the SIGUSR2 reload and the server start-up are not modelled. Neither are interfaces/ws.ts, src/interfaces/http.ts, switch.ts and src/commands/updateAllBulbs.ts: they are I/O or orchestration with no logic of their own.
- `getLightingState` on a reply without a status or without `light_state` follows the code. `convertToLightState(undefined)` throws, so the read fails like a timeout, and callers see it as unknown. It does not return a LightState with absent fields.
- A relay that reads 0 on several polls in a row is restored on each of those polls, as the code does. Only the toggle is collapsed by the 100 ms gate.

## Findings

| source | as written | input that shows it | evidently intended | confidence | as-written member | corrected member |
|---|---|---|---|---|---|---|
| SwitchController.ts:37-45 | the switch promise's executor is `async` and throws on a failed status query instead of calling `reject`; the throw only rejects the executor's own promise, so the switch promise stays pending. The executor's rejected promise is unhandled, which by default ends the process on Node.js 15 and later | one switch whose status query fails while every bulb answers: `connect()` never settles | a failed switch rejects `connect`, as a failed bulb does at SwitchController.ts:50-59 | not executed | SwitchControl.ConnectSettlementAsWritten | SwitchControl.ConnectSettlement |
