# ExitServerProtocol: coordinated shutdown, in Dafny

This project models `ExitServerProtocol`, a demo protocol of a peer-to-peer node. With it, one node tells every other node of its network map to shut down. It has three parts:

- **Arming gate.** The object-level flag `enabled` starts `false`. Registering the handler sets it to `true`, and nothing sets it back.
- **Broadcaster** (`Broadcast.call`). When the gate is off, it does nothing and returns `false`. When the gate is on, it walks the party nodes in order. It skips every node whose address is a mock placeholder and the node whose identity is the local one. It sends `ExitMessage(exitCode)` on `exit.topic`, session `0`, to each remaining node. It then sleeps one second and exits the process with the same code.
- **Handler.** The callback is registered on `exit.topic.0`. When the gate is off, it ignores inbound messages. When the gate is on, it decodes the `ExitMessage` and exits with its code.

The effects (sends, the sleep and the process exit) are recorded as an event trace (`Send`, `Sleep`, `Exit`). That way, each property of the protocol becomes a property of a sequence. An exit ends the process. So every method of the node object requires that the trace holds no `Exit` yet. The class invariant, which each of those methods keeps, says that an `Exit` is always the last event.

Files:

- `wire.dfy`, module `Int32Wire`: 32-bit and byte types, plus a four-byte two's-complement codec for the `Int` exit code. Its round trip is proved in both directions.
- `exit_server_protocol.dfy`, module `ExitServerProtocol`:
  - the constants, datatypes and eligibility predicate;
  - the broadcaster and the handler as functions of their inputs;
  - a pure state machine (`Step`, `Run`) with the arming lemmas;
  - the class `ExitServer`, holding the `enabled` flag, the handler registrations and the trace. Its methods `Register`, `Broadcast` and `OnMessage` are each proved equal to one `Step` of the state machine. `DoNextRecipient`, the per-recipient part of `Broadcast`, is proved to append exactly that recipient's share of `RecipientSends`.

## Model

| member | source | states |
|---|---|---|
| `Int32Wire.DecodeEncodeInt32` | src/main/kotlin/com/r3corda/demos/protocols/ExitServerProtocol.kt:20 | Decoding the encoding of any 32-bit exit code, including 0 and negative codes, gives back that code |
| `Int32Wire.EncodeDecodeInt32` | src/main/kotlin/com/r3corda/demos/protocols/ExitServerProtocol.kt:20 | Every four-byte payload decodes to the code whose encoding is exactly that payload, so the codec is a bijection |
| `Int32Wire.DecodeInt32` | src/main/kotlin/com/r3corda/demos/protocols/ExitServerProtocol.kt:28 | Decoding succeeds exactly on payloads of four bytes; anything else is malformed |
| `Int32Wire.Signed` | src/main/kotlin/com/r3corda/demos/protocols/ExitServerProtocol.kt:28 | The decoder's last step, reading a 32-bit pattern as a signed `Int`, is the inverse of taking the pattern of a signed value |
| `ExitServerProtocol.MessageRoundTrip` | src/main/kotlin/com/r3corda/demos/protocols/ExitServerProtocol.kt:20-28 | An `ExitMessage` that is serialised for the send and deserialised by the handler is the same message |
| `ExitServerProtocol.MessageDecodeIsInjective` | src/main/kotlin/com/r3corda/demos/protocols/ExitServerProtocol.kt:28 | A payload that deserialises is the serialisation of the message it yields |
| `ExitServerProtocol.SendTopicIsHandlerTopic` | src/main/kotlin/com/r3corda/demos/protocols/ExitServerProtocol.kt:15-25 | A send on `TOPIC` with session `0` lands on `"${TOPIC}.0"`, the topic the handler is registered on |
| `ExitServerProtocol.SessionTopic` | src/main/kotlin/com/r3corda/demos/protocols/ExitServerProtocol.kt:65 | The delivery topic of a send is the send's topic, then a dot, then the session id written in decimal |
| `ExitServerProtocol.DecimalValue` | src/main/kotlin/com/r3corda/demos/protocols/ExitServerProtocol.kt:65 | Reading back the decimal rendering of a session id gives that session id |
| `ExitServerProtocol.SessionTopicIsInjective` | src/main/kotlin/com/r3corda/demos/protocols/ExitServerProtocol.kt:65 | Two sessions of one topic share a delivery topic only if they are the same session |
| `ExitServerProtocol.RecipientSends` | src/main/kotlin/com/r3corda/demos/protocols/ExitServerProtocol.kt:48-50 | The loop issues at most one send per party node. Every send is on `TOPIC`, session `0`, carries the broadcast's message, and never goes to a mock address |
| `ExitServerProtocol.EligibleIndices` | src/main/kotlin/com/r3corda/demos/protocols/ExitServerProtocol.kt:59-67 | The positions of the eligible party nodes, ascending, with every eligible position present and no other |
| `ExitServerProtocol.SendsFollowEligibleRecipients` | src/main/kotlin/com/r3corda/demos/protocols/ExitServerProtocol.kt:45-50 | The k-th send goes to the k-th eligible party node. So each node that is neither mock nor self gets exactly one send, ineligible nodes get none, and sends follow the list order |
| `ExitServerProtocol.MockRecipientNeverReceives` | src/main/kotlin/com/r3corda/demos/protocols/ExitServerProtocol.kt:60-61 | No send is addressed to a mock placeholder address |
| `ExitServerProtocol.SelfNeverReceives` | src/main/kotlin/com/r3corda/demos/protocols/ExitServerProtocol.kt:63-65 | An address that the party nodes list only under the node's own identity receives no send |
| `ExitServerProtocol.BroadcastTrace` | src/main/kotlin/com/r3corda/demos/protocols/ExitServerProtocol.kt:43-55 | Unarmed, the broadcast has no effect. Armed, it does its sends, each carrying `exitCode`, then a 1-second sleep, then a single exit with `exitCode`, which is the last event |
| `ExitServerProtocol.Handle` | src/main/kotlin/com/r3corda/demos/protocols/ExitServerProtocol.kt:25-31 | Unarmed, a message is ignored. Armed, a message that does not decode aborts the callback, and one that decodes exits with the code whose encoding is the payload |
| `ExitServerProtocol.HandlerTrace` | src/main/kotlin/com/r3corda/demos/protocols/ExitServerProtocol.kt:27-29 | One callback ends the process exactly when the handler decided to exit, with the decided code, and has no other effect |
| `ExitServerProtocol.HandlerExitsWithSentCode` | src/main/kotlin/com/r3corda/demos/protocols/ExitServerProtocol.kt:27-29 | An armed handler given the serialised `ExitMessage(c)` exits with code `c` |
| `ExitServerProtocol.BroadcastStopsArmedReceivers` | src/main/kotlin/com/r3corda/demos/protocols/ExitServerProtocol.kt:25-29 | Every send of an armed broadcast lands on the handler's topic, and it makes an armed receiver exit with the broadcaster's own exit code |
| `ExitServerProtocol.Step` | src/main/kotlin/com/r3corda/demos/protocols/ExitServerProtocol.kt:18-55 | One operation (register, broadcast, or message delivery) never disarms the node and never removes effects. It is a no-op once the process has exited |
| `ExitServerProtocol.ArmingIsOneWay` | src/main/kotlin/com/r3corda/demos/protocols/ExitServerProtocol.kt:18-33 | Once armed, a node stays armed whatever operations follow; no path sets `enabled` back to `false` |
| `ExitServerProtocol.RegisterArms` | src/main/kotlin/com/r3corda/demos/protocols/ExitServerProtocol.kt:24-33 | After any run that registers the handler, once or repeatedly, the node is armed unless it has already exited |
| `ExitServerProtocol.UnarmedNodeHasNoEffect` | src/main/kotlin/com/r3corda/demos/protocols/ExitServerProtocol.kt:27-55 | A node that never registers its handler never sends, sleeps or exits, and stays unarmed, whatever broadcasts and messages it sees |
| `ExitServerProtocol.TraceOnlyGrows` | src/main/kotlin/com/r3corda/demos/protocols/ExitServerProtocol.kt:43-56 | Effects are never undone: the trace before a run is a prefix of the trace after it |
| `ExitServerProtocol.ExitIsFinal` | src/main/kotlin/com/r3corda/demos/protocols/ExitServerProtocol.kt:29 | After an exit, no operation changes anything |
| `ExitServerProtocol.ExitStaysLast` | src/main/kotlin/com/r3corda/demos/protocols/ExitServerProtocol.kt:52-53 | In every run, an exit is the last event of the trace |
| `ExitServerProtocol.ScenarioArmed` | src/main/kotlin/com/r3corda/demos/protocols/ExitServerProtocol.kt:43-67 | Party nodes are a real peer A, a mock peer B and the node itself, and the code is 0. Then the only send goes to A with code 0, followed by the sleep and an exit with 0 |
| `ExitServerProtocol.ScenarioUnarmed` | src/main/kotlin/com/r3corda/demos/protocols/ExitServerProtocol.kt:44-55 | Unarmed, a broadcast with code 17 has no effect |
| `ExitServerProtocol.ScenarioUnarmedBroadcast` | src/main/kotlin/com/r3corda/demos/protocols/ExitServerProtocol.kt:44-55 | A freshly started node that never registered its handler returns `false` from a broadcast with code 17, and has no effects |
| `ExitServerProtocol.ExitServer.constructor` | src/main/kotlin/com/r3corda/demos/protocols/ExitServerProtocol.kt:18 | The flag starts `false`, with no handler and no effects |
| `ExitServerProtocol.ExitServer.Register` | src/main/kotlin/com/r3corda/demos/protocols/ExitServerProtocol.kt:24-33 | Adds a handler on `"${TOPIC}.0"`, sets `enabled`, leaves the trace alone, and keeps the class invariant |
| `ExitServerProtocol.ExitServer.DoNextRecipient` | src/main/kotlin/com/r3corda/demos/protocols/ExitServerProtocol.kt:59-67 | Appends one send to the recipient's address if it is neither mock nor self, and nothing otherwise. The process stays alive and the class invariant holds |
| `ExitServerProtocol.ExitServer.Broadcast` | src/main/kotlin/com/r3corda/demos/protocols/ExitServerProtocol.kt:43-56 | Returns the flag as it was. Appends exactly `BroadcastTrace` of its inputs to the trace, keeps an exit last, and changes nothing else |
| `ExitServerProtocol.ExitServer.OnMessage` | src/main/kotlin/com/r3corda/demos/protocols/ExitServerProtocol.kt:25-31 | Returns what `Handle` says of the current flag and the payload. Appends an exit only when that outcome is an exit with the decoded code |

## Left out

- The transport's real codec (`deserialize`, Kryo) is not part of this model. In its place, `Int32Wire` fixes a four-byte two's-complement encoding. A payload of any other length stands for one that fails to deserialise.
- `System.exit` and `Strand.sleep` are not real effects here. They are the trace events `Exit(code)` and `Sleep(1)`. The operating system's truncation of exit codes to 8 bits is not modelled.
- The messaging service (`addMessageHandler`, `ProtocolLogic.send`) and the network map cache are inputs and outputs: a party-node sequence, the local identity, and the trace. ProtocolLogic builds the delivery topic as `topic.sessionId`; that code is not part of this model, so `SessionTopic` states this convention.
- `ExitServerProtocol.ExitServer.OnMessage` models one delivery of a message to the callback. If the handler is registered twice, the real service would call both callbacks; the model runs the callback once.
- Concurrency is not modelled: Quasar fibers, `@Suspendable`, resumption on another thread, and `@Volatile`. `Register` is atomic here. So the race in which a message arrives between `addMessageHandler` and `enabled = true` is left out. In the model, the unarmed path of the handler can only be reached through a delivery before registration.
- `Broadcast` returns the flag as read after the loop (`return enabled`). In the sequential model nothing can change it in between. Also, `System.exit` never returns, so the returned value is seen only by a caller that somehow survives the exit.
- The `Integer`-versus-`Int` constructor workaround is left out. It concerns the framework's reflective lookup, not behaviour. `exitCode` is an `int32` from the start.
- The `is MockNetworkMapCache.MockAddress` type test becomes the `MockAddress` variant of `Address`.
