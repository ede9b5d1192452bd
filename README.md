# OCPP ⇄ CAN bridge and interception relay, modelled in Dafny

This project models the three small, sequential pieces of logic in a charging-station
security testbed. It proves properties about each of them.

- **The CAN bridge** (`can_bridge.dfy`, module `CanBridge`). It turns each charge-point
  event (Boot, Status, StartTransaction, StopTransaction, Heartbeat) into an 11-bit
  arbitration id and an 8-byte payload:
  - an identity tag becomes a one-byte digest: its code-point sum mod 256;
  - a transaction id is packed little-endian into bytes 1..4.

  The class `Bridge` holds the bus mode (`bus`: a handle, or `None` in simulation
  mode), the frames handed to the bus, an abstract log trace and the number of
  `shutdown` calls.
- **The CAN listener's decoder** (`can_listener.dfy`, module `CanListener`). It
  classifies a frame by arbitration id, looks the status byte back up, and decodes
  the transaction id little-endian. It is proved to invert the bridge's encoding.
- **The OCPP interception relay** (`mitm_attack.dfy`, module `MitmAttack`). This is
  the rule engine of `manipulate_message`, working on a parsed
  `[typeId, uniqueId, action, payload]` envelope:
  - it overwrites `id_tag`;
  - it halves `meter_stop` toward zero;
  - it forces `charging_profile.max_current` to 64.

  Every failure returns the original text. The module also models the two forwarding
  directions of a proxied session and the upstream address.
- `common.dfy` (module `Common`) holds `Option`, `Result`, the `Byte` type and
  Python's `str()` for non-negative ints, with its inverse.

Calls into other code become parameters:
- the bus constructor succeeding or raising is `acquired`;
- `can.Message`/`bus.send` accepting the frame is `transportOk`;
- the result of `json.loads` is `parsed: Option<Json>`, or a `parse` function for a stream of messages.

Points where the code behaves differently from what one might expect, all followed by the model:
- `close` does not drop the handle, so a second `close` calls `shutdown` again. It is not idempotent.
- A frame too short for its arbitration id raises an `IndexError` in `decode_message`. The listener does not catch it per frame, so it ends the receive loop rather than skipping the frame.
- `meter_stop` is replaced by `int(x * 0.5)`, which truncates toward zero. It is not the floor: -3 becomes -1.
- RemoteStartTransaction triggers on the presence of `charging_profile`. It inserts `max_current` when that key is absent.
- A rewritten envelope is re-serialised by `json.dumps`. A forwarded Heartbeat envelope of four elements keeps its value, but its text is not guaranteed to be byte-identical.
- `len`, indexing and `in` also work on a JSON string. A string message of three or more characters is therefore treated as an envelope of one-character strings and goes out re-serialised as an array: `"abcd"` becomes `["a","b","c","d"]`.
- An id outside 0 .. 2^32 - 1 makes `send_stop_transaction` raise an `OverflowError` that reaches the caller. The model returns it as `raised`, with nothing sent and nothing logged.

## Model

| member | source | states |
|---|---|---|
| CanBridge.BootPayload | can_bridge.py:51 | the Boot payload is 8 elements: 0x01, then zeros |
| CanBridge.HeartbeatPayload | can_bridge.py:78 | the Heartbeat payload is 8 elements: 0xFF, 0xFF, then zeros |
| CanBridge.PayloadsAreEightBytes | can_bridge.py:50-79 | every payload built (Boot, Heartbeat, Status, StartTransaction, and StopTransaction when it does not raise) has 8 elements and is zero beyond the bytes its event assigns; Boot is `[1,0…]`, Heartbeat starts `[0xFF,0xFF]` |
| CanBridge.StatusCode | can_bridge.py:55-63 | the code is nonzero exactly for the six labels; every result is one of 0,1,2,3,4,5,0xFF |
| CanBridge.StatusCodeInjective | can_bridge.py:55-62 | two labels with the same code are the same label |
| CanBridge.StatusPayload | can_bridge.py:64 | the payload is `[connector, code(status), 0 × 6]`: 8 long, zero from index 2 |
| CanBridge.CodePointSum | can_bridge.py:68 | the sum over the empty tag is 0, and no character's code point exceeds the sum |
| CanBridge.TagDigest | can_bridge.py:68 | the digest lies in 0..255 and is congruent to the tag's code-point sum mod 256 |
| CanBridge.CodePointSumPermutation | can_bridge.py:68 | two tags that are permutations of each other have equal code-point sums |
| CanBridge.DigestIgnoresOrder | can_bridge.py:68 | permuted tags get the same digest |
| CanBridge.DigestCollides | can_bridge.py:68 | "USER001" and "USER010" differ but collide |
| CanBridge.StartTransactionPayload | can_bridge.py:69 | the payload is `[connector, 1, digest(tag), 0 × 5]`: 8 long, zero from index 3 |
| CanBridge.LittleEndianBytes | can_bridge.py:73 | `to_bytes(k, 'little')` gives `k` bytes, byte `i` being `(n / 256^i) % 256`: least significant first |
| CanBridge.LittleEndianValue | can_listener.py:38 | the value of `bs` read little-endian is below `256^len(bs)` |
| CanBridge.LittleEndianRoundTrip | can_bridge.py:73 | `from_bytes(to_bytes(n, k))` is `n` for every `n < 256^k` |
| CanBridge.LittleEndianBytesOfValue | can_bridge.py:73 | `to_bytes(from_bytes(bs), len(bs))` is `bs` |
| CanBridge.FourByteValue | can_bridge.py:73-74 | four little-endian bytes have value `b0 + 256·b1 + 65536·b2 + 16777216·b3` |
| CanBridge.StopTransactionPayload | can_bridge.py:72-74 | there is an OverflowError exactly when the id is outside 0 .. 2^32-1; otherwise the payload has 8 bytes, byte 0 is 0, bytes 5..7 are 0, and `b1 + 256·b2 + 65536·b3 + 16777216·b4` is the id |
| CanBridge.StopTransactionExample | can_bridge.py:93 | 12345 gives `[0,0x39,0x30,0,0,0,0,0]` |
| CanBridge.Outcome | can_bridge.py:35-48 | a send is simulated exactly when there is no bus; it is transmitted exactly when there is a bus, every element is a byte and the transport accepts it; otherwise the error is caught |
| CanBridge.Entry | can_bridge.py:36-48 | the log entry is a transmission exactly when the frame went out, a simulation exactly in simulation mode, and the error entry exactly when the send failed; the first two carry the id, data and description |
| CanBridge.Emitted | can_bridge.py:37-43 | at most one frame goes out per send; one goes out exactly on a transmission whose data are all bytes, and it carries the id and the data |
| CanBridge.SimulationNeverTransmits | can_bridge.py:45-46 | without a bus nothing reaches the wire and the log gets the simulation entry |
| CanBridge.Bridge.constructor | can_bridge.py:27-33 | `bus` is `None` exactly when acquisition failed; the log holds the connected or simulation-mode entry; nothing has been sent |
| CanBridge.Bridge.SendCanMessage | can_bridge.py:35-48 | never raises; appends exactly one log entry for the outcome and at most one frame; keeps the bus and the shutdown count; keeps `Valid` for a well-formed frame |
| CanBridge.Bridge.SendBootNotification | can_bridge.py:50-52 | sends id 0x100 with the Boot payload and the description "Boot Notification" |
| CanBridge.Bridge.SendStatusNotification | can_bridge.py:54-65 | sends id 0x101 with the Status payload and the description "Status: " + status |
| CanBridge.Bridge.SendStartTransaction | can_bridge.py:67-70 | sends id 0x102 with the StartTransaction payload and the description "Start: " + tag |
| CanBridge.Bridge.SendStopTransaction | can_bridge.py:72-75 | raises (nothing sent, nothing logged) exactly when the id does not fit 4 bytes; otherwise sends id 0x103 with the encoded payload and "Stop: " + the decimal id |
| CanBridge.Bridge.SendHeartbeat | can_bridge.py:77-79 | sends id 0x104 with the Heartbeat payload and "Heartbeat" |
| CanBridge.Bridge.Close | can_bridge.py:81-83 | calls shutdown once when a handle is held and does nothing otherwise; the handle itself is kept |
| Common.Decimal | can_bridge.py:75 | `str(n)` of a non-negative int: at least one digit, only digits, no leading zero |
| Common.DecimalRoundTrip | can_listener.py:39 | reading the digits of `str(n)` back gives `n` |
| Common.DecimalInjective | can_listener.py:39 | distinct numbers are rendered as distinct strings |
| CanListener.StatusLabel | can_listener.py:29-31 | the label is "Unknown" exactly for codes outside the table; each listed code maps to the bridge label that encodes to it |
| CanListener.Slice | can_listener.py:38 | Python's `data[1:5]` never fails: it is `data[lo:hi]` when both bounds are inside, `data[lo:]` when only `hi` is past the end, and empty when `lo ≥ hi` or `lo` is past the end |
| CanListener.DecodeMessage | can_listener.py:21-43 | it fails (IndexError) exactly for id 0x101 with fewer than 2 bytes or id 0x102 with fewer than 3; it reports UNKNOWN exactly for ids outside 0x100..0x104; 0x100 and 0x104 give BOOT and HEARTBEAT whatever the data; 0x101 reports connector `data[0]` and the label of `data[1]`; 0x102 reports connector `data[0]` and user `data[2]`; 0x103 reports the little-endian value of the clamped slice `data[1:5]`, which is below 2^32 |
| CanListener.UnlistedStatusIsUnknown | can_listener.py:31 | a status byte outside the table (0x00, 0x06..0xFE) reads as "Unknown" |
| CanListener.ShortStopFrameExample | can_listener.py:38 | a short StopTransaction frame decodes the bytes it has: `[0, 0x39]` gives 0x39 and an empty frame gives 0 |
| CanListener.StatusDecodeThenEncode | can_listener.py:27-32 | an 8-byte Status frame with a listed status byte and zero padding is rebuilt exactly by the bridge from its decoded connector and label |
| CanListener.StopDecodeThenEncode | can_listener.py:37-39 | an 8-byte StopTransaction frame with byte 0 and bytes 5..7 zero is rebuilt exactly by the bridge from the id it decodes to |
| CanListener.Text | can_listener.py:25-43 | the text is nonempty; it starts with 'U' exactly for UNKNOWN, 'B' exactly for BOOT NOTIFICATION and 'H' exactly for HEARTBEAT; among texts starting with 'S', the fourth letter is 'T' exactly for STATUS, 'R' for START TRANSACTION and 'P' for STOP TRANSACTION; a STOP text starts with "STOP TRANSACTION - ID: " |
| CanListener.TextInjective | can_listener.py:25-43 | two reports with the same text are the same report: the text carries the connector, label, user and transaction id in full |
| CanListener.StatusTextInjective | can_listener.py:32 | equal STATUS texts have equal connectors and equal labels |
| CanListener.StartTextInjective | can_listener.py:36 | equal START TRANSACTION texts have equal connectors and equal users |
| CanListener.DecimalThenNonDigit | can_listener.py:32-36 | `str(a) + x == str(b) + y`, with `x` and `y` starting with a non-digit, gives `a == b` and `x == y` |
| CanListener.PowMonotone | can_listener.py:38 | `256^j ≤ 256^k` for `j ≤ k`, so a slice of at most four bytes decodes below 2^32 |
| CanListener.StopTextRecoversId | can_listener.py:39 | the STOP text is the fixed prefix followed by digits that read back as the id |
| CanListener.ChargingExample | can_listener.py:27-32 | id 0x101 with byte 1 = 3 reports connector `data[0]` and "Charging", rendered as "STATUS - Connector 1: Charging" |
| CanListener.StatusTablesAgree | can_listener.py:29-31 | the listener's table inverts the bridge's: each of the six labels comes back, and any other status text comes back as "Unknown" |
| CanListener.BootRoundTrip | can_listener.py:25-26 | the bridge's Boot frame decodes as BOOT NOTIFICATION |
| CanListener.HeartbeatRoundTrip | can_listener.py:40-41 | the bridge's Heartbeat frame decodes as HEARTBEAT |
| CanListener.StatusRoundTrip | can_listener.py:27-32 | for every connector 0..255, the bridge's Status frame decodes to that connector and the same label (or "Unknown" for unlisted text) |
| CanListener.StartTransactionRoundTrip | can_listener.py:33-36 | for every connector 0..255, the bridge's StartTransaction frame decodes to that connector and the tag's digest as user |
| CanListener.StopTransactionRoundTrip | can_listener.py:37-39 | for every id in 0 .. 2^32-1, the bridge's StopTransaction frame decodes to that id |
| CanListener.StopTransactionExampleDecodes | can_listener.py:37-39 | `[0,0x39,0x30,0…]` decodes to id 12345 |
| MitmAttack.Length | mitm_attack.py:26 | `len` is defined exactly for arrays, strings and objects |
| MitmAttack.Index | mitm_attack.py:27-28 | array indexing returns the element exactly when in range; string indexing returns the one-character string exactly when in range; indexing an object by int is a KeyError |
| MitmAttack.Contains | mitm_attack.py:33 | `key in payload` is defined exactly for objects, arrays and strings; it is key membership for an object, element membership for an array, and substring occurrence for a string (true when the string starts with the key, false when it is shorter than the key) |
| MitmAttack.IsSubstring | mitm_attack.py:33 | a prefix of `s` occurs in `s`; a key that occurs in `s` is no longer than `s` |
| MitmAttack.SubstringAt | mitm_attack.py:33 | a key found at any position of `s` occurs in `s` |
| MitmAttack.SubstringIndex | mitm_attack.py:33 | conversely, a key that occurs in `s` is found at a position, and at no earlier position |
| MitmAttack.ReplaceIdTag | mitm_attack.py:38-41 | for an object payload: never fails, keeps the key set, changes no key except `id_tag`, and sets `id_tag` to "HACKER_TAG" when present; for any other payload: succeeds, unchanged, exactly when `"id_tag" in payload` is False |
| MitmAttack.HalveMeterStop | mitm_attack.py:44-47 | for an object payload: succeeds exactly when `meter_stop` is absent or a number or boolean; then keeps the key set, changes no key except `meter_stop`, and replaces it with its truncated half; for any other payload: succeeds, unchanged, exactly when `"meter_stop" in payload` is False |
| MitmAttack.ForceMaxCurrent | mitm_attack.py:32-35 | for an object payload: succeeds exactly when `charging_profile` is absent or an object, failing otherwise with AttributeError; on success the key set is kept, and the profile gets `max_current` = 64 (inserted if absent) with nothing else in it or the payload changed; for any other payload: succeeds, unchanged, exactly when `"charging_profile" in payload` is False |
| MitmAttack.RewritePayload | mitm_attack.py:32-48 | an action other than the three leaves the payload as it is; a successful rule keeps an object's top-level key set and leaves any other payload unchanged; for a number, boolean or null payload the result is a TypeError exactly when the action is one of the three |
| MitmAttack.Rewrite | mitm_attack.py:26-50 | a success is a four-element array made from an array or a string; scalars and null give a TypeError, objects always fail, and arrays of at most two elements give the short-envelope case; for an array of three or more elements, rewriting succeeds exactly when the rule does; the first three elements are kept and the fourth is the rewritten payload (`{}` when missing) |
| MitmAttack.StringEnvelopeExample | mitm_attack.py:26-51 | a JSON string is taken for an envelope: `"abcd"` becomes `["a","b","c","d"]`, `"abc"` becomes `["a","b","c",{}]`, and `"ab"` goes out verbatim |
| MitmAttack.Truncate | mitm_attack.py:47 | `int(x)` drops the fraction toward zero: `n ≤ x < n + 1` for `x ≥ 0` and `n - 1 < x ≤ n` for `x ≤ 0` |
| MitmAttack.HalfTowardZero | mitm_attack.py:47 | `int(n·0.5)` is `n/2` for `n ≥ 0` and `-((-n)/2)` below zero; twice it is within one of `n`; it lies between 0 and `n` |
| MitmAttack.HalfOf | mitm_attack.py:47 | `v·0.5` is defined exactly for numbers and booleans; for ints it is the truncated half |
| MitmAttack.ManipulateMessage | mitm_attack.py:22-56 | the output is the original text exactly when parsing failed or rewriting failed; otherwise it is the rewritten envelope |
| MitmAttack.UnactionableMessagesPassVerbatim | mitm_attack.py:23-56 | parse failures, objects, scalars and arrays of at most two elements return the exact original message |
| MitmAttack.EnvelopeShape | mitm_attack.py:26-50 | for three or more elements the output is `[d0, d1, action, payload']`: the first three are kept, a missing payload is `{}`, and elements beyond index 3 are dropped; a rule failure is passed on |
| MitmAttack.StartTransactionRule | mitm_attack.py:38-42 | `id_tag` becomes "HACKER_TAG" and no other key changes; without `id_tag` the payload is unchanged |
| MitmAttack.StopTransactionRule | mitm_attack.py:44-48 | an integer `meter_stop` is halved toward zero and no other key changes; without it the payload is unchanged |
| MitmAttack.NonNumericMeterStopIsVerbatim | mitm_attack.py:44-56 | a non-numeric `meter_stop` raises inside the rule, so the original message goes out |
| MitmAttack.RemoteStartTransactionRule | mitm_attack.py:32-36 | `charging_profile.max_current` becomes 64 (inserted if absent); nothing else in the profile or the payload changes; without `charging_profile` the payload is unchanged |
| MitmAttack.OtherActionsUnchanged | mitm_attack.py:32-50 | any other action leaves the payload unchanged |
| MitmAttack.RuleExamples | mitm_attack.py:38-50 | USER001 becomes HACKER_TAG, 1500 becomes 750, and a four-element Heartbeat envelope keeps its value |
| MitmAttack.RewriteIdempotent | mitm_attack.py:32-50 | rewriting a rewritten StartTransaction or RemoteStartTransaction envelope again changes nothing |
| MitmAttack.PayloadRuleIdempotent | mitm_attack.py:35-41 | the StartTransaction and RemoteStartTransaction payload rules are idempotent |
| MitmAttack.StopTransactionNotIdempotent | mitm_attack.py:47 | StopTransaction halves again on each pass: 1500, then 750, then 375 |
| MitmAttack.UpstreamUri | mitm_attack.py:81 | the upstream URI is "ws://localhost:9000" followed by the request path |
| MitmAttack.UpstreamUriInjective | mitm_attack.py:81 | distinct paths give distinct upstream URIs |
| MitmAttack.ForwardToServer | mitm_attack.py:63-67 | sends `manipulate_message(m)` for each client message, in arrival order, one for one |
| MitmAttack.ForwardToClient | mitm_attack.py:69-72 | sends every server message unmodified, in order |
| MitmAttack.HeartbeatSessionPreservesValues | mitm_attack.py:63-67 | a stream of four-element Heartbeat envelopes is forwarded upstream with every envelope's value unchanged |

## Left out

- WebSocket and asyncio machinery: `websockets.connect`/`serve`, the sub-protocol, `asyncio.gather`, and session setup and teardown are I/O. Each forwarding direction is modelled as an in-order map over a finite message sequence. The interleaving of the two directions is not modelled. Sessions share no state, so isolation holds by construction and has no lemma.
- JSON text: the input text and its parse arrive as two parameters, and the output is the value handed to `json.dumps`, not its text. Byte-for-byte equality with the input text is not modelled.
- Object key order: JSON objects are maps. The insertion order that `json.dumps` follows (keys kept in place, `max_current` appended) is not represented.
- Floating point: `n * 0.5` is computed on exact numbers. Ints at or above 2^53, where the float conversion loses precision, are out of scope. So is an `OverflowError` from a huge int, and are NaN and Infinity values. A float `meter_stop` is halved and truncated exactly in the reals.
- The python-can library: `can.interface.Bus`, `can.Message`, `bus.send`, `bus.shutdown` and `bus.recv`. They are abstracted as the `acquired` and `transportOk` parameters and the `wire` and `shutdowns` fields. A non-byte element in the data (a connector outside 0..255) is modelled as the `can.Message` rejection that the handler catches.
- Logging: timestamps, message texts, `print` and file output are not modelled. The bridge keeps abstract log entries. The relay's log lines "Intercepted", "Changed …" and "Error" are not recorded, and the original `max_current` read with default 32 only feeds that log.
- The listener's `main` receive loop (timeout, counter, KeyboardInterrupt) is I/O. So is the hex rendering of the data bytes it logs.
- charge_point.py and csms_server.py are not part of this model. The first forwards protocol calls to the bridge; the second holds the charging-station management server's library handlers.
- Python strings may hold lone surrogate code points, which a Dafny `char` cannot. Tags and texts are modelled over Unicode scalar values only.
