# Verified model of the debugger tool chain

A Dafny model of the parts of the ArkTS/JS debugger backend whose behaviour is
not a direct call into the virtual machine, with proofs of what they promise.
`dafny verify dfyconfig.toml` checks all of it.

| files | what they model |
|---|---|
| `ServerModel`, `ServerInvariant`, `ServerProof`, `ServerTheorems`, `ServerCallbacks`, `ServerProvenance`, `ServerCalls`, `ServerLife` | the connection life cycle of the WebSocket server: any number of threads in `AcceptNewConnection`, `Decode`, `SendReply`, `CloseConnection` and `Close`, one step per atomic operation, lock operation or system call |
| `CommandQueue`, `CommandFlow` | the debug command queue, its re-entrant drain loop on the debugger thread, and the producers in `OnMessage` |
| `Bytes`, `Frames`, `FrameStream`, `FrameRoundTrip`, `FrameWire` | WebSocket frames (sections 5.2, 5.3, 5.5 and 5.7 of RFC 6455): builders, receive loops and `Decode` |
| `Base64`, `Base64RoundTrip` | base64 (section 4 of RFC 4648) with the original's output buffers and wrapping length counter |
| `Http`, `Handshake`, `HandshakeAgreement`, `HandshakeRules` | the opening handshake (sections 1.3, 4.1 and 4.2.2 of RFC 6455): both texts, both parsers, both checks |
| `Stepper` | the single stepper: bytecode ranges and stack depths against lines and activations |
| `ScriptIds`, `AsyncTraces`, `TraceMeaning`, `ScriptAnnouncements` | script ids of the static inspector, the paths that announce them, and the async stack trace |
| `RemoteObjects`, `RemoteObjectTables`, `RemoteObjectMeaning` | remote object ids, scope records and the clean-up of all handles |
| `Options`, `Selections` | values that may be missing; which elements of a sequence a filter keeps |

## How it is modelled

- The two concurrent protocols (server life cycle, command queue) and the
  script announcements are state machines. A run is a sequence of states; each
  theorem is about every state, or every pair of states, of every run. Atomics
  are sequentially consistent, which is the default that the source uses.
- Sockets are an environment that decides everything it may decide: which
  descriptor number `accept` returns, whether a call fails, is interrupted or
  moves one byte only. Other code of the process opens and closes its own
  descriptors at any step, so a stale descriptor number would reach a foreign
  socket; `misuse` counts such calls and is proved to stay 0.
- Objects that the source updates in place are classes; buffers that it fills
  are arrays (`Base64`, `ProtocolUpgradeBuilder`).
- SHA-1 is an unknown function with 20-byte results, the two origin regular
  expressions are an unknown test, and random keys are arbitrary keys.
- Bytes are the integers below 256. Unsigned wrap-around is written out where
  the code relies on it: the length counter of the base64 decoder, the shift
  count of `PushNumberPerByte`, the 64-bit register of `NetToHostLongLong`.

## What turned out not to hold as one might expect

- An empty masked TEXT or PING frame leaves its masking key in the stream, and
  a BINARY, CONTINUATION or PONG frame leaves its payload there.
  `FrameRoundTrip.ServerAlignment` and `FrameRoundTrip.ClientAlignment` say
  exactly after which frames the stream stays aligned, and
  `FrameRoundTrip.EmptyMessageBreaksStream` shows a stream that breaks.
- The base64 decoder accepts texts that the encoder never writes.
  `Base64RoundTrip.EncodeOfDecode` says exactly which texts survive a round trip
  through their bytes, and `Base64RoundTrip.NonCanonicalText` shows one that does
  not. The text of no bytes is empty, and the decoder rejects it.
- Without a post-task callback a message can stay in the command queue with
  nobody to look at it (`CommandQueue.PostTaskIsNeeded`). `CommandQueue.LostIff`
  says exactly which step of which run loses a message.
- A TEXT or PING message that consists of the word that `Decode` returns for a
  lost connection is reported as a disconnect while the connection lives on.
  `FrameStream.MistakenIff`, `FrameStream.Poll` and
  `FrameRoundTrip.ClientMessageMistaken` say that no other frame is.
- The flag that tells producers of a running dispatch goes down while an outer
  frame still dispatches, when a nested frame ends its drain
  (`CommandFlow.InnerDrainLowersFlag`). `CommandFlow.DispatchingIff` says for
  every run when it is up; the price is a posted task that is not needed.
- Messages can be dispatched out of order: a nested frame takes newer messages
  while an outer frame has older ones left. `CommandQueue.ArrivalOrderIff` says
  that this is the only way, on every run, and `CommandQueue.NestedOvertakes`
  shows it.
- A script is not always announced exactly once. The hybrid call frame builder
  takes the "new" flag and announces nothing, the module loader announces what
  is known already (`ScriptAnnouncements.NeverAnnounced`, `AnnouncedAgain`).
  `ScriptAnnouncements.AnnouncedOnceIff` gives the exact condition on the calls,
  for every interleaving and every mix of callers.
- A location can reach the front end before the announcement of its script,
  because the table is locked for the lookup only
  (`ScriptAnnouncements.LocationBeforeAnnouncement`).
  `ScriptAnnouncements.LocationKnownIff` and `LocationsKnownIff` say exactly when
  it does not, at the moment when the message with the location is sent; for
  callers that announce new scripts the condition is that no thread still owes
  the announcement then (`CheckedLocation`).
- Step over and step out compare depths, not activations. `Stepper.StepOverExactly`
  and `Stepper.StepOutExactly` say for every run when they keep their meaning,
  `Stepper.SkippedReturn` and `Stepper.SkippedReturnOut` show runs where they do
  not: one pauses in the wrong place, the other never pauses. At the largest
  32-bit offset no range matches (`Stepper.LargestOffset`).
- A variable is not always assigned in the scope object where it lives: an
  object that inherits its name, such as `toString`, can come first
  (`RemoteObjectTables.InheritedNameWins`).
  `RemoteObjectTables.AssignedWhereItLivesIff` says exactly when it is: if no
  scope object merely inherits the name in front of the first that owns it.

## Model

| member | source | states |
|---|---|---|
| ServerProof.RunInv | websocket/server/websocket_server.cpp:145-216 | every state reachable by any interleaving satisfies the invariant: lock, ownership, descriptors, the double check of `serverUp_` against `Close`, and which sockets are shut down |
| ServerProof.StepKeepsInv | websocket/server/websocket_server.cpp:424-485 | each atomic step of each thread, with every choice of the environment, keeps that invariant |
| ServerProof.ForeignKeepsInv | websocket/websocket_base.cpp:207-217 | other code that opens or closes its own descriptors, also numbers just freed, cannot break it |
| ServerTheorems.AcceptUsesOpenListener | websocket/server/websocket_server.cpp:145-196 | whoever is about to call `accept` or is blocked in it uses the listening socket, which nobody has closed, and the state is CONNECTING |
| ServerTheorems.QuietForEver | websocket/server/websocket_server.cpp:147-176 | once the server is down and nobody is past the second check, that is so for the rest of the run and no connection becomes OPEN |
| ServerTheorems.CloseIsFinal | websocket/server/websocket_server.cpp:453-485 | after the `Close` that stopped the server has returned the state is never OPEN again, the listening socket has been closed once, and a connection still alive is being closed by the owner of CLOSING |
| ServerTheorems.AtMostOneLateOpen | websocket/server/websocket_server.cpp:375-387 | after `serverUp_` went down at most one step from CONNECTING to OPEN is left in the whole run |
| ServerTheorems.LateOpenHasCloser | websocket/server/websocket_server.cpp:453-485 | a connection that is OPEN while the server is down has a thread inside `Close` that has not tried to close it yet and, if it has loaded the state, saw OPEN |
| ServerTheorems.SingleOwner | websocket/server/websocket_server.cpp:145-216 | CONNECTING and CLOSING have exactly one owning thread, of the matching kind, and no other state has one |
| ServerTheorems.OnlyListedEdges | websocket/websocket_base.cpp:197-254 | the state moves only along CLOSED to CONNECTING, CONNECTING to OPEN, CLOSING or CLOSED, OPEN to CLOSING, CLOSING to CLOSED |
| ServerTheorems.NoViolationBranch | websocket/server/websocket_server.cpp:168-211 | every unconditional exchange of an acceptor finds CONNECTING and the last compare-exchange of a close finds CLOSING, so the branches that log a violation after an exchange are dead |
| ServerTheorems.ConnectingIsAnothers | websocket/server/websocket_server.cpp:152-166 | the branch for a compare-exchange that meets CONNECTING is not dead: it is reached exactly while another thread owns that state |
| ServerTheorems.TwoAcceptorsMeet | websocket/server/websocket_server.cpp:160-162 | two acceptors on the way into that branch |
| ServerTheorems.DescriptorConservation | websocket/websocket_base.cpp:197-223 | no call ever reaches a foreign socket, nothing is closed twice, at most one accepted socket is not closed, and in CLOSED the field is -1 and every accepted socket has been closed exactly once |
| ServerCalls.EveryCallIsProper | websocket/websocket_base.cpp:197-223 | on every run each `accept`, transfer, `shutdown` and `close` that any thread may make next reaches no socket or an open one of the server, `accept` the listening socket, and `close` always reaches one |
| ServerCalls.MisuseCounts | websocket/websocket_base.cpp:208-216 | the counter of misuses goes up in exactly the steps whose call is not proper |
| ServerCalls.NumbersAreReused | websocket/websocket_base.cpp:208-216 | the environment is as hostile as the comment fears: at any moment any free number may come to name a foreign socket, and cease to |
| ServerCalls.EnabledIff | websocket/websocket_base.cpp:201-217 | a thread can go on unless it wants the lock: shared while another writes, exclusively while anybody holds it |
| ServerCalls.NoDeadlock | websocket/server/websocket_server.cpp:424-451 | in every reachable state a thread that cannot go on waits for a holder of the lock that can |
| ServerTheorems.NeverOverwritten | websocket/server/websocket_server.cpp:197-200 | a new descriptor is stored only over -1, and it is the only live connection |
| ServerTheorems.SharedSectionKeepsDescriptor | websocket/websocket_base.cpp:287-309 | from any point to any later point of one shared critical section the descriptor is -1 or names the same open socket |
| ServerTheorems.WriterWaitsForNoOpenTransfer | websocket/websocket_base.cpp:201-217 | while a thread waits for the exclusive lock every transfer in flight is on no socket or on one that `shutdown` was called on |
| ServerTheorems.WaitingCloseInterrupts | websocket/server/websocket_server.cpp:424-451 | while `Close` waits, `shutdown` was called on the listening socket, and after a successful look also on the connection's socket, and nobody is in `accept` |
| ServerCallbacks.RunCalls | websocket/websocket_base.cpp:184-223 | in every reachable state the recorded callbacks and every thread's position agree |
| ServerCallbacks.CallbackOrder | websocket/server/websocket_server.cpp:106-216 | the callbacks of every run are a word of `([validate] fail / validate open close)*` and the start of one more round, complete when CLOSED, with `validate`, `open` and `fail` of a round on one thread |
| ServerCallbacks.AcceptedCallsSplit | websocket/server/websocket_server.cpp:375-387 | the monitor that watches the callbacks accepts nothing but such words |
| ServerCallbacks.DebuggerEvents.OnValidate | tooling/static/inspector.cpp:124-128 | takes the events lock for the calling thread |
| ServerCallbacks.DebuggerEvents.OnOpen | tooling/static/inspector.cpp:129-133 | releases it, on the thread that took it |
| ServerCallbacks.DebuggerEvents.OnFail | tooling/static/inspector.cpp:134-139 | releases it exactly if it is held |
| ServerCallbacks.RunCallbacks | tooling/static/inspector.cpp:124-139 | run in the order of any server run, the three callbacks meet both assertions, the lock is held exactly between `validate` and `open` or `fail`, and locks and unlocks balance when CLOSED |
| ServerProvenance.MovesIff | websocket/server/websocket_server.cpp:106-216 | for all pairs of positions, a thread can step from one to the other if and only if the listed branch condition holds, and every listed answer of the environment leads where the list says |
| ServerProvenance.WhyHere | websocket/server/websocket_server.cpp:106-216 | on every run a thread inside a call came to where it stands by an earlier step whose branch condition held, and has not moved since |
| ServerProvenance.OpensAfterHandshake | websocket/server/websocket_server.cpp:202-215 | a thread that runs the open callback has received a request, asked the validate callback and sent the whole upgrade reply, in this order and with nothing in between |
| ServerProvenance.OpenMeansHandshake | websocket/server/websocket_server.cpp:375-387 | whenever the state becomes OPEN, the thread that sets it has completed that handshake |
| ServerProvenance.FailsForAReason | websocket/server/websocket_server.cpp:117-142 | a handshake that is given up after validation was refused by the callback, answered with an error or not replied to completely; one given up before was not received or not parsed |
| ServerLife.LifeSucceeds | websocket/server/websocket_server.cpp:180-216 | for all descriptor numbers a run in which every call succeeds, the connection opens and a `Close` then closes both sockets and returns |
| CommandQueue.RunInv | tooling/dynamic/protocol_handler.cpp:19-82 | the invariant of flags, frames, queues and producers holds in every reachable state |
| CommandQueue.NoLostWakeup | inspector/inspector.cpp:349-381 | once `OnMessage` is over its message has left the queue, or a frame is live, or a posted task is pending; and nobody sleeps un-notified over a non-empty queue |
| CommandQueue.FrameReturnsEmptyHanded | tooling/dynamic/protocol_handler.cpp:51-64 | a `ProcessCommand` frame returns only after it found the queue empty, with its own batch empty and nobody waiting |
| CommandQueue.RestMeansDispatched | tooling/dynamic/protocol_handler.cpp:51-82 | when nothing can move the queue is empty, and without live frames every message has been dispatched |
| CommandQueue.DispatchedAtMostOnce | tooling/dynamic/protocol_handler.cpp:64-79 | under any nesting every received message is dispatched or pending, never both, and dispatched at most once |
| CommandQueue.ArrivalOrder | tooling/dynamic/protocol_handler.cpp:30-36 | as long as no frame was entered on top of another, dispatch order is arrival order |
| CommandQueue.ArrivalOrderIff | tooling/dynamic/protocol_handler.cpp:51-82 | on every run dispatch order is arrival order if and only if no frame dispatches while a frame below it has messages left |
| CommandQueue.NestedOvertakes | tooling/dynamic/protocol_handler.cpp:70-78 | a nested frame that dispatches the third message before the second |
| CommandQueue.LostIff | inspector/inspector.cpp:357-380 | on every run a message becomes lost in a step if and only if its own call returns from the missing callback in that step, with the message in the queue, no frame live and no task pending |
| CommandQueue.PostTaskIsNeeded | inspector/inspector.cpp:358-381 | a run without a post-task callback that strands a message |
| CommandFlow.WaitsUntilReleased | tooling/dynamic/protocol_handler.cpp:19-28 | from `WaitForDebugger` until the next `RunIfWaitingForDebugger` the flag is up and the stack is deeper than it was |
| CommandFlow.WaitingIff | tooling/dynamic/protocol_handler.cpp:19-28 | on every run the flag is up exactly while a `WaitForDebugger` has not been released |
| CommandFlow.ReturnsIff | tooling/dynamic/protocol_handler.cpp:57-61 | a frame that continues returns if and only if it checks an empty queue while no wait is outstanding |
| CommandFlow.BlocksIff | tooling/dynamic/protocol_handler.cpp:58-62 | it goes to sleep if and only if it checks an empty queue while one is |
| CommandFlow.ReleasedFrameReturns | tooling/dynamic/protocol_handler.cpp:25-28 | after a release, until the next wait, every frame that checks an empty queue returns |
| CommandFlow.NotifiedIff | tooling/dynamic/protocol_handler.cpp:30-36 | a sleeping frame has been notified exactly if the queue holds messages |
| CommandFlow.DispatchingIff | tooling/dynamic/protocol_handler.cpp:67-80 | the dispatching flag is up exactly if a drain has begun and none, of whatever frame, has ended since |
| CommandFlow.FlagWithoutNesting | tooling/dynamic/protocol_handler.cpp:67-80 | without nesting the flag says exactly whether the frame drains |
| CommandFlow.InnerDrainLowersFlag | tooling/dynamic/protocol_handler.cpp:76-80 | with nesting the inner drain lowers it while the outer frame dispatches |
| CommandFlow.NestedIff | tooling/dynamic/protocol_handler.cpp:51-82 | frames count as nested exactly if some state so far had two |
| CommandFlow.WhyThere | inspector/inspector.cpp:349-381 | on every run each position inside `OnMessage` was reached by the check that leads there, in the state in which that check answers so |
| CommandFlow.PostsWhenIdleTwice | inspector/inspector.cpp:349-357 | a task is posted only by a call that has found the dispatching flag down, nobody waiting and the queue not empty, in this order, twice |
| CommandFlow.ReturnsForAReason | inspector/inspector.cpp:349-355 | a call ends without a task only if one of these checks found the debugger busy or the queue empty |
| CommandFlow.NextMessageIsDispatched | inspector/inspector.cpp:356-366 | every run at rest without live frames, from any producer and with any message, can go on such that exactly this message is dispatched and all is at rest again |
| Bytes.XorByteTwice | websocket/server/websocket_server.cpp:76-79 | unmasking a byte twice gives it back |
| Bytes.XorBit | websocket/server/websocket_server.cpp:76-79 | a bit of the exclusive or is set exactly where the two numbers differ, at every width |
| Bytes.XorByteBit | websocket/server/websocket_server.cpp:76-79 | the same for the eight bits of a byte |
| Bytes.XorByteSum | websocket/server/websocket_server.cpp:76-79 | the exclusive or of two bytes is the sum of the values of the bits in which they differ |
| Bytes.PushNumberPerByte | websocket/frame_builder.h:25-34 | appends the bytes of the number, most significant first, for every width up to eight |
| Bytes.ValueOfBigEndian | websocket/network.cpp:75-88 | those bytes denote the number, for every width |
| Bytes.NetToHostLongLong | websocket/network.cpp:75-88 | computes what the bytes denote, modulo 2^64 |
| Frames.ServerFrameBuilder.Build | websocket/frame_builder.cpp:49-105 | writes header, length and payload of the server's frame |
| Frames.ClientFrameBuilder.Build | websocket/frame_builder.cpp:122-146 | patches the mask bit in and writes key and masked payload of the client's frame |
| Frames.CreateServerFrame | websocket/server/websocket_server.cpp:412-416 | the frame of a payload is the server's frame of section 5.2 |
| Frames.CreateClientFrame | websocket/client/websocket_client.cpp:291-295 | the frame of a payload is the client's masked frame for the key drawn |
| Frames.MaskTwice | websocket/frame_builder.cpp:132-139 | masking with one key twice is the identity |
| Frames.HeaderRoundTrip | websocket/web_socket_frame.h:62-68 | reading a built header gives back final bit, opcode and length field, mask bit 0 from a server and 1 from a client |
| Frames.LengthForm | websocket/frame_builder.cpp:57-76 | the length form is minimal at 125/126 and 65535/65536, in both directions, and denotes the length |
| FrameStream.Socket.Recv | websocket/network.cpp:33-49 | under any segmentation and interruption delivers exactly the next bytes, and without errors succeeds exactly if there are enough |
| FrameStream.Wire.Send | websocket/network.cpp:61-73 | under any partial transfers sends exactly the bytes, or fails with the peer holding a proper prefix; fails only if a call does |
| FrameStream.WebSocket.DecodeMaskedMessage | websocket/server/websocket_server.cpp:56-82 | reads key and payload and unmasks in place, or fails exactly when the stream is short |
| FrameStream.WebSocket.DecodePlainMessage | websocket/client/websocket_client.cpp:241-257 | reads an unmasked payload, or fails exactly when the stream is short |
| FrameStream.WebSocket.ReadFramePayload | websocket/websocket_base.cpp:88-106 | reads the length form and the payload that the stream denotes |
| FrameStream.WebSocket.CloseConnection | websocket/websocket_base.cpp:241-254 | closes once, with one close frame that carries the status |
| FrameStream.WebSocket.Decode | websocket/websocket_base.cpp:137-167 | for every stream and segmentation returns the payload, answers a ping, obeys a close, or disconnects with the right status |
| FrameStream.MistakenIff | websocket/websocket_base.cpp:312-315 | on any stream the answer looks like a disconnect with the connection alive exactly if the frame read is TEXT or PING and its payload is that word |
| FrameStream.Poll | inspector/ws_server.cpp:96-105 | the loop's caller is told of a disconnect on a live connection exactly for such a frame, otherwise exactly when the stream broke, and gets every other payload as a message |
| FrameRoundTrip.ServerDecodes | websocket/websocket_base.cpp:108-167 | what the server makes of any frame of a client: payload, rest of the stream, reply |
| FrameRoundTrip.ClientDecodes | websocket/client/websocket_client.cpp:241-257 | what the client makes of any frame of a server, empty payloads included |
| FrameRoundTrip.ServerAlignment | websocket/server/websocket_server.cpp:56-62 | the server stays aligned with the stream exactly after TEXT and PING frames with a payload |
| FrameRoundTrip.ClientAlignment | websocket/websocket_base.cpp:108-135 | the client stays aligned exactly after frames whose payload it reads and empty frames other than CLOSE |
| FrameRoundTrip.EmptyMessageBreaksStream | websocket/server/websocket_server.cpp:59-62 | an empty message after which the next one is not delivered |
| FrameRoundTrip.ReceiveFromClient | websocket/websocket_base.cpp:137-167 | for any list of non-empty TEXT messages, any keys and any segmentation, repeated `Decode` returns exactly the payloads in order and consumes exactly the bytes |
| FrameRoundTrip.ReceiveFromServer | websocket/client/websocket_client.cpp:241-257 | the same from server to client, empty payloads included |
| FrameRoundTrip.ClientMessageMistaken | websocket/websocket_base.cpp:137-167 | a built client frame is mistaken for a disconnect exactly if it is TEXT or PING and carries that word |
| FrameRoundTrip.SendTexts | websocket/network.cpp:61-73 | building and sending a list of messages leaves exactly the frames sent completely and a part of the next one on the wire, and all of them if no call fails |
| FrameRoundTrip.ClientToServer | websocket/websocket_base.cpp:88-167 | from payloads to payloads: however sending and receiving cut the stream, the server receives exactly the messages whose frames were sent completely |
| FrameRoundTrip.SendReplies | websocket/websocket_base.cpp:50-64 | the same as `SendTexts` from the server |
| FrameRoundTrip.ServerToClient | websocket/client/websocket_client.cpp:241-257 | the same as `ClientToServer` in the other direction, empty messages included |
| FrameWire.MaskBits | websocket/frame_builder.cpp:132-139 | every bit of every masked byte is the exclusive or with the bit of key byte i mod 4 |
| FrameWire.SmallExamples | websocket/frame_builder.cpp:78-105 | the builders write the unmasked, masked, fragmented, ping and pong examples of section 5.7 of RFC 6455, and a close frame |
| FrameWire.LongExamples | websocket/frame_builder.cpp:57-76 | the same for its messages of 256 and 65536 bytes, for all payloads |
| FrameWire.Farewells | websocket/websocket_base.h:26-37 | the word for a lost connection and the payloads of the status codes 1002 and 1011 |
| FrameWire.PayloadRead | websocket/websocket_base.cpp:88-106 | a payload is read exactly if all of it has arrived, and then byte by byte from where it begins |
| FrameWire.DecodeCases | websocket/websocket_base.cpp:137-167 | which bytes of a stream lead to which answer, as an exact condition for each: short header, frame of the wrong side, cut payload, close, payload, skipped frame |
| FrameWire.CutClientFrame | websocket/server/websocket_server.cpp:64-74 | a text frame that is cut anywhere disconnects the server, with 1011 inside the header and 1002 behind it |
| FrameWire.CutServerFrame | websocket/client/websocket_client.cpp:241-257 | the same for the client, empty frames included |
| FrameWire.OwnFrameRefused | websocket/websocket_base.cpp:150-155 | each side disconnects on every frame of its own kind |
| Base64.TablesInverse | tooling/dynamic/base/pt_base64.cpp:19-42 | the two tables are inverse to each other, and `=` is in neither |
| Base64.Alphabet | tooling/dynamic/base/pt_base64.cpp:37-41 | the encoder's table is the alphabet of RFC 4648 |
| Base64.EncodedLength | tooling/dynamic/base/pt_base64.h:33-36 | the text of n bytes has `EncodedSize(n)` characters |
| Base64.GroupShifts | tooling/dynamic/base/pt_base64.cpp:99-106 | the encoder's shifts and masks pick the sextets of the 24-bit number |
| Base64.OctetShifts | tooling/dynamic/base/pt_base64.cpp:62-65 | the decoder's shifts and masks pick the bytes of the 24-bit number |
| Base64.Encode | tooling/dynamic/base/pt_base64.cpp:91-127 | writes exactly the text of the input, `EncodedSize` characters, and nothing behind it |
| Base64.AcceptanceByScan | tooling/dynamic/base/pt_base64.cpp:81-86 | what the scan leaves over decides exactly the texts of alphabet characters and at most two `=` |
| Base64.Decode | tooling/dynamic/base/pt_base64.cpp:44-89 | for any input writes the bytes of the longest alphabet prefix, never more than `DecodedSize`, touches nothing else, and reports success exactly for base64 text |
| Base64RoundTrip.DecodeOfEncode | tooling/dynamic/base/pt_base64.cpp:44-127 | the text of every non-empty byte string is accepted and decodes to it |
| Base64RoundTrip.EmptyIsNotAccepted | tooling/dynamic/base/pt_base64.cpp:46-48 | the text of no bytes is rejected |
| Base64RoundTrip.DecodedLength | tooling/dynamic/base/pt_base64.h:28-31 | on success the output is three quarters of the text less the number of `=` |
| Base64RoundTrip.EncodeOfDecode | tooling/dynamic/base/pt_base64.cpp:70-86 | an accepted text is the text of its bytes exactly when the unused bits of its last character are zero |
| Base64RoundTrip.NonCanonicalText | tooling/dynamic/base/pt_base64.cpp:70-86 | a text that is accepted and is not |
| Base64RoundTrip.TestVectors | tooling/dynamic/base/pt_base64.cpp:91-127 | the examples of section 10 of RFC 4648 for up to three bytes |
| Http.HttpRequest.Decode | websocket/http.cpp:79-94 | rejects a text without `GET`; otherwise the version stands between the second space and the end of the line of the first `GET`, each header value between the first occurrence of its name and the next line end, and the answer is the origin test |
| Http.HttpResponse.Decode | websocket/http.cpp:129-145 | rejects a text without `HTTP`; otherwise the version is the word at the first `HTTP`, the status the word behind the spaces after it, and the header values are as above |
| Http.HeaderUnique | websocket/http.cpp:43-54 | that description of a header value leaves exactly the value that the parser returns |
| Http.ThirdWordUnique | websocket/http.cpp:57-75 | the same for the version of a request |
| Http.FirstWordUnique | websocket/http.cpp:98-108 | the same for the version of a reply |
| Http.WordAfterUnique | websocket/http.cpp:111-125 | the same for the status of a reply |
| Http.FindByAnchor | websocket/http.cpp:43-47 | a name is found behind any text that lacks one of its characters |
| Http.HeaderValue | websocket/http.cpp:43-54 | a header whose name is found yields its value up to the line end, whatever surrounds it |
| Http.HeaderAtEnd | websocket/http.cpp:48-53 | without a line end behind it the value goes to the end of the text |
| Http.ToLowerCase | websocket/string_utils.h:42-45 | maps every character to lower case |
| Http.Trim | websocket/string_utils.h:36-40 | removes white space at both ends and nothing else |
| Handshake.EncodeKeyAgrees | websocket/handshake_helper.cpp:42-78 | two accept values are equal exactly when the digests are |
| Handshake.EncodeKeyShape | websocket/handshake_helper.cpp:64-78 | an accept value has 28 base64 characters |
| Handshake.ProtocolUpgradeBuilder.constructor | websocket/handshake_helper.h:65-85 | the running index meets the key gap and the message length, and the buffer holds the reply and a terminator |
| Handshake.ProtocolUpgradeBuilder.SetKey | websocket/handshake_helper.h:87-90 | writes the key into the gap and leaves the rest |
| HandshakeAgreement.HttpHandShake | websocket/server/websocket_server.cpp:106-143 | drops, rejects or upgrades what was received, hands exactly the matching reply to `send`, and goes on exactly if an upgrade was encoded and sent |
| HandshakeAgreement.ValidateServerHandShake | websocket/client/websocket_client.cpp:25-60 | accepts exactly status 101, the two header values in any case, and the expected accept value up to surrounding white space, provided that value could be computed |
| HandshakeAgreement.WebSocketClient.ClientSendWSUpgradeReq | websocket/client/websocket_client.cpp:169-195 | does nothing unless CONNECTING; otherwise sends the request for the key of a fresh nonce, and closes if that fails |
| HandshakeAgreement.WebSocketClient.ClientRecvWSUpgradeRsp | websocket/client/websocket_client.cpp:197-234 | does nothing unless CONNECTING; otherwise opens exactly for a received reply that parses to valid values, and closes for anything else |
| HandshakeAgreement.RequestIsUpgraded | websocket/client/websocket_client.cpp:185-186 | the request for any key of base64 characters is upgraded for exactly that key, whatever the origin test is |
| HandshakeAgreement.ReplyIsAccepted | websocket/server/websocket_server.cpp:84-98 | a reply made for one key is accepted by a client with another exactly when the digests of the two keys agree |
| HandshakeAgreement.HandshakeSucceeds | websocket/client/websocket_client.cpp:169-234 | for every 16-byte nonce the handshake of client and server succeeds, and the request fits the receive buffer |
| HandshakeAgreement.BadRequestIsRejected | websocket/server/websocket_server.cpp:100-104 | no client accepts the reply to an invalid request |
| HandshakeRules.MentionsIff | websocket/server/websocket_server.cpp:34-44 | the search in the lower-cased value finds a word exactly if it stands there in any case |
| HandshakeRules.AnswerIff | websocket/server/websocket_server.cpp:106-143 | a request is upgraded, for the key in its header, exactly if it has a method, an allowed origin and the callback's consent, its `Connection` mentions "upgrade", its `Upgrade` mentions "websocket" and its line names HTTP/1.1; it gets the error reply exactly if the first three hold and one of the last three does not |
| HandshakeRules.OutcomeIff | websocket/server/websocket_server.cpp:117-142 | the same when receiving and encoding may fail: they turn an answer into none and change nothing else |
| HandshakeRules.RequestNamesVersion | websocket/client/websocket_client.h:76-85 | the client's request names protocol version 13 |
| HandshakeRules.AcceptValue | websocket/handshake_helper.h:30 | the accept value is made with the identifier of section 1.3 of RFC 6455 |
| HandshakeRules.AcceptsIff | websocket/client/websocket_client.cpp:25-60 | a reply is accepted exactly if the word behind its version is 101, its two headers spell "websocket" and "upgrade" in any case, and its accept value is the expected one up to white space |
| HandshakeRules.WhiteSpace | websocket/string_utils.h:25-34 | the white space that is trimmed is the six characters of the C locale |
| Stepper.GetStepRanges | tooling/dynamic/backend/js_single_stepper.cpp:89-106 | collects the ranges of the entries that have the starting line |
| Stepper.InStepRange | tooling/dynamic/backend/js_single_stepper.cpp:27-35 | finds a range that holds the offset, if there is one |
| Stepper.LineOfMeaning | tooling/dynamic/backend/js_single_stepper.cpp:103-105 | the line of an offset is the one that the last entry at or before it has, and 0 without one |
| Stepper.RangesMeanLine | tooling/dynamic/backend/js_single_stepper.cpp:89-106 | in a sorted table the ranges hold exactly the offsets whose last entry at or before them has the line, the largest offset apart |
| Stepper.LargestOffset | tooling/dynamic/backend/js_single_stepper.cpp:98 | at the largest offset no range matches although the line does |
| Stepper.DebuggerImpl.GetStepper | tooling/dynamic/backend/js_single_stepper.cpp:108-128 | records method, ranges and depth of the current event, or nothing without debug information |
| Stepper.DebuggerImpl.StepIsComplete | tooling/dynamic/backend/js_single_stepper.cpp:37-72 | decides completion for the three kinds of step |
| Stepper.DebuggerImpl.NotifySingleStep | tooling/dynamic/agent/debugger_impl.cpp:250-281 | answers and changes the state as the step function says, whose runs the following rows describe |
| Stepper.RunPausesOnce | tooling/dynamic/agent/debugger_impl.cpp:261-280 | over any run a stepper pauses exactly once, at the first event that completes it in a known file and on a line other than -1 |
| Stepper.PauseRequest | tooling/dynamic/agent/debugger_impl.cpp:252-259 | a pause request is answered at the first event in a known file and on a line other than -1, and the stepper survives it |
| Stepper.PausesAreVisible | tooling/dynamic/agent/debugger_impl.cpp:283-308 | whatever is stepping, no run ever pauses in an unknown file or on line -1 |
| Stepper.StepOverMeaning | tooling/dynamic/backend/js_single_stepper.cpp:51-58 | on a well-nested run with a visible return, step over pauses exactly at the first event that is in an outer activation or on another line of the starting one |
| Stepper.StepOverExactly | tooling/dynamic/backend/js_single_stepper.cpp:51-58 | on any run it does so if and only if a target comes before every event of another activation at the same depth outside the ranges |
| Stepper.StepOutExactly | tooling/dynamic/backend/js_single_stepper.cpp:60-65 | on any run step out pauses exactly at the first event after the starting activation has ended if and only if a shallower visible event precedes every other such event |
| Stepper.StepOutMeaning | tooling/dynamic/backend/js_single_stepper.cpp:60-65 | a well-nested run with a visible return is one where it does |
| Stepper.SkippedReturnOut | tooling/dynamic/agent/debugger_impl.cpp:270-273 | a run whose return is skipped, on which step out never pauses |
| Stepper.StepIntoMeaning | tooling/dynamic/backend/js_single_stepper.cpp:43-50 | on any run step into pauses exactly at the first event on another line or in another method |
| Stepper.SkippedReturn | tooling/dynamic/agent/debugger_impl.cpp:270-273 | a run whose return is skipped, on which step over pauses at an event that is no target |
| ScriptIds.SourceManager.GetScriptId | tooling/static/source_manager.cpp:24-38 | gives a script its position in the table, appends it when it is new, and keeps the two maps inverse and the ids 0 to n-1 |
| ScriptIds.SourceManager.GetScript | tooling/static/source_manager.cpp:54-64 | returns the script with that id, or an empty one |
| ScriptIds.SourceManager.GetSourceFileName | tooling/static/source_manager.cpp:40-52 | returns its file name, or an empty one |
| ScriptIds.IdsAreForever | tooling/static/source_manager.cpp:24-64 | after any further lookups an id means the same script and no script has two ids |
| ScriptIds.IdsAreExact | tooling/static/source_manager.cpp:24-38 | the table holds exactly the scripts looked up |
| ScriptIds.AnnouncedOnce | tooling/static/inspector_server.cpp:149-161 | in a disciplined log every script has exactly one announcement, under its file name |
| AsyncTraces.InspectorServer.Locate | tooling/static/inspector_server.cpp:183-186 | looks up, announces exactly a new script, then names its id; the log stays disciplined |
| AsyncTraces.InspectorServer.AddCallFrameInfo | tooling/static/inspector_server.cpp:1163-1173 | the location of a call frame names its script, announced before |
| AsyncTraces.InspectorServer.AddLocations | tooling/static/inspector_server.cpp:1189-1200 | every location of a breakpoint names its script, announced before |
| AsyncTraces.InspectorServer.ResolveFrames | tooling/static/inspector_server.cpp:177-192 | the call frames of a segment are its resolvable frames in order |
| AsyncTraces.InspectorServer.CreateAsyncStackTrace | tooling/static/inspector_server.cpp:163-202 | the chain of parents shows the segments in order, without unresolved frames and empty segments, and every id in it is announced |
| AsyncTraces.ChainGrows | tooling/static/inspector_server.cpp:196-198 | scripts that become known later change nothing in a chain |
| TraceMeaning.FramesShown | tooling/static/inspector_server.cpp:177-192 | exactly the frames with a source line are shown, in order, each with its function, file, script and line |
| TraceMeaning.SegmentsShown | tooling/static/inspector_server.cpp:169-198 | exactly the segments with such a frame are shown, in order, each with its description |
| TraceMeaning.TraceOfSnapshot | tooling/static/inspector_server.cpp:163-202 | a trace with the promised chain has one link for each such segment and one call frame for each such frame, and its ids name their scripts |
| ScriptAnnouncements.RunInv | tooling/static/inspector_server.cpp:183-186 | the count below holds in every state of every run, whatever the callers |
| ScriptAnnouncements.AnnouncementsAddUp | tooling/static/inspector.cpp:240-252 | in every interleaving of any callers, announcements of a script so far plus threads that owe one are what its lookups call for: the first unless it is the hybrid builder's, and every later one of the module loader |
| ScriptAnnouncements.AnnouncedOnceIff | tooling/static/inspector.cpp:1129-1132 | between calls a script has exactly one announcement if and only if its first lookup makes it and the module loader makes no later one, or its first does not and the module loader makes one later |
| ScriptAnnouncements.AnnouncedAtMostOnce | tooling/static/inspector_server.cpp:1192-1198 | on the paths that announce new scripts no interleaving announces one twice, and each goes under its own name |
| ScriptAnnouncements.AnnouncementIsOwed | tooling/static/inspector_server.cpp:1163-1168 | there a script lacks its announcement exactly while one thread owes it; between calls none is missing |
| ScriptAnnouncements.LocationKnownIff | tooling/static/inspector_server.cpp:183-190 | on every run a location, when the message with it is sent, names a script announced before if and only if not every announcement due is still owed at that moment |
| ScriptAnnouncements.LocationsKnownIff | tooling/static/inspector_server.cpp:163-202 | all locations sent in a run do if and only if that holds at each step that sends one |
| ScriptAnnouncements.CheckedLocation | tooling/static/inspector_server.cpp:1163-1173 | on the paths that announce new scripts the condition is that nobody owes the announcement when the location is sent |
| ScriptAnnouncements.LocationBeforeAnnouncement | tooling/static/inspector_server.cpp:183-190 | two threads, and a location that comes before the announcement |
| ScriptAnnouncements.NeverAnnounced | tooling/static/inspector.cpp:1129-1132 | one lookup by the hybrid call frame builder, and a script is never announced |
| ScriptAnnouncements.AnnouncedAgain | tooling/static/inspector.cpp:240-252 | the module loader announces a known script once more |
| RemoteObjects.AllocAllKeepsInv | tooling/dynamic/agent/runtime_impl.cpp:328-346 | new ids continue the row, stand for their values and change no older id |
| RemoteObjects.RecordKeepsInv | tooling/dynamic/agent/debugger_impl.cpp:2272-2281 | recording a scope keeps every recorded id live |
| RemoteObjects.CleanUpKeepsInv | tooling/dynamic/agent/debugger_impl.cpp:1854-1873 | clean-up frees every live handle once and creates none |
| RemoteObjects.HandlesConserved | tooling/dynamic/agent/debugger_impl.cpp:1861-1873 | after any run of operations every handle ever created is either live or freed, and freed once |
| RemoteObjects.ScopeIdsAreLive | tooling/dynamic/agent/debugger_impl.cpp:2506-2518 | after any run every id recorded for a scope is a live key |
| RemoteObjects.CleanUpFreesAll | tooling/dynamic/agent/debugger_impl.cpp:1854-1873 | after a clean-up every handle created so far is freed and the tables are empty |
| RemoteObjectMeaning.RecordMeaning | tooling/dynamic/agent/debugger_impl.cpp:2272-2281 | a recorded scope object is the last of its own list and stands for its value, and no other list changes |
| RemoteObjectMeaning.TouchMeaning | tooling/dynamic/agent/debugger_impl.cpp:2516 | looking a scope list up changes no list, id or handle |
| RemoteObjectMeaning.TableOfRun | tooling/dynamic/agent/runtime_impl.cpp:450-456 | after any run of operations the table holds exactly the values handed out since the last clean-up, in order from id 0, and every scope list exactly the ids recorded for it since |
| RemoteObjectTables.RuntimeImpl.CacheObjectIfNeeded | tooling/dynamic/agent/runtime_impl.cpp:450-456 | gives an object an id that stands for it, and other values none |
| RemoteObjectTables.RuntimeImpl.DescribeProperty | tooling/dynamic/agent/runtime_impl.cpp:328-346 | the ids of one property stand for its getter, setter, object value and symbol |
| RemoteObjectTables.RuntimeImpl.StoreEntries | tooling/dynamic/agent/runtime_impl.cpp:531-549 | every entry of a collection gets an id that stands for it, object or not |
| RemoteObjectTables.RuntimeImpl.GetProtoOrProtoType | tooling/dynamic/agent/runtime_impl.cpp:458-490 | the prototypes that the request may show get ids that stand for them, exactly if they are objects |
| RemoteObjectTables.RuntimeImpl.GetProperties | tooling/dynamic/agent/runtime_impl.cpp:185-352 | an unknown id or a value that is no object is refused and changes nothing; otherwise entries, the requested window of own properties and prototypes get consecutive ids, and every id reported stands for the value it was given to |
| RemoteObjectMeaning.WindowMeaning | tooling/dynamic/agent/runtime_impl.cpp:356-378 | a property is in the window exactly if it is in the requested range, or any property if the range begins behind the last |
| RemoteObjectMeaning.OwnPropertiesListed | tooling/dynamic/agent/runtime_impl.cpp:314-326 | exactly the properties of the window are reported, in order, and only accessors if the request asks for those |
| RemoteObjectMeaning.AnswerMeaning | tooling/dynamic/agent/runtime_impl.cpp:185-352 | which ids an answer has and what each stands for: entries, accessors, symbols, values that are objects, and the prototypes that the request shows |
| RemoteObjectMeaning.EveryIdIsReported | tooling/dynamic/agent/runtime_impl.cpp:185-352 | an answer creates exactly as many ids as it reports |
| RemoteObjectTables.DebuggerImpl.AddScopeObject | tooling/dynamic/agent/debugger_impl.cpp:2272-2281 | the new scope object has a live id that is recorded for its frame |
| RemoteObjectTables.DebuggerImpl.UpdateScopeObject | tooling/dynamic/agent/debugger_impl.cpp:2506-2527 | assigns in the first scope object that has the variable, own or inherited, in no other, and adds no entry to the id table |
| RemoteObjectTables.AssignedWhereItLivesIff | tooling/dynamic/agent/debugger_impl.cpp:2516-2525 | the object found is the first that has the variable as its own if and only if every object that merely inherits the name has an owner before it |
| RemoteObjectTables.InheritedNameWins | tooling/dynamic/agent/debugger_impl.cpp:2519 | an inherited name is assigned in the first scope object although a later one owns it |
| RemoteObjectMeaning.UpdateMeaning | tooling/dynamic/agent/debugger_impl.cpp:2516-2525 | after an update the variable has the new value in the first scope object that has its name, and every other name of every object its old value |
| RemoteObjectMeaning.NoOwnerNoUpdate | tooling/dynamic/agent/debugger_impl.cpp:2516-2527 | without such an object nothing changes |
| RemoteObjectTables.DebuggerImpl.CleanUpRuntimeProperties | tooling/dynamic/agent/debugger_impl.cpp:1861-1873 | frees the handles from the last id down to 0 and resets the table |
| RemoteObjectTables.DebuggerImpl.CleanUpOnPaused | tooling/dynamic/agent/debugger_impl.cpp:1854-1859 | does that and forgets all scopes and frames |

## Left out

- Liveness: the theorems say that there is no deadlock and that nobody is left waiting on a socket that is not shut down or on a message nobody will look at, not that a thread is scheduled. A close sends its close frame before it shuts the socket down, so it can be held up by a peer that does not read.
- The server life cycle and the command queue are state machines on values, because their subject is the interleaving; the fields that they update in place are the fields of the state.
- Socketpair mode, a second `Init`, bind, listen and the failure paths of `Init`: a second socketpair attempt works on descriptor -1.
- The client's connection set-up and `CloseOnInitFailure`: they may close from CLOSED, so the ownership results are for the server only.
- Callbacks are taken to be set, to be wired straight through by the unseen `Server` class, and not to throw.
- ServerTheorems.WriterWaitsForNoOpenTransfer: speaks of sockets that `shutdown` was called on. The source logs a failed call and goes on; that a successful one ends blocked transfers is a fact about the kernel.
- ServerTheorems.WaitingCloseInterrupts: the same.
- HandshakeAgreement.HttpHandShake: takes what one `recv` delivered, as the code does; a request or reply that arrives in several pieces is not put together by either side.
- The server does not check `Sec-WebSocket-Version` or extensions, and neither does the model.
- FrameRoundTrip.ReceiveFromClient: needs non-empty payloads; `ServerAlignment` says why.
- CommandQueue.NoLostWakeup: the post-task callback is set and runs its task on the debugger thread; a task on another thread only logs an error, and then `CommandQueue.PostTaskIsNeeded` applies.
- Fragmented messages: the decoder does not join them, and neither does the model.
- Stepper.StepOverMeaning: the line of an offset is the last table entry at or before it, 0 before the first entry, and the stack depth is the number of frames; both are assumptions about the virtual machine.
- The id counter of remote objects is a 32-bit integer in the source and unbounded here; script ids are unbounded as well.
- RemoteObjectTables.RuntimeImpl.GetProperties: which entries a kind of object shows, its own properties and its prototypes are parameters; how the virtual machine finds them is not modelled.
- RemoteObjectTables.DebuggerImpl.UpdateScopeObject: which names an object inherits is a parameter, because `Has` belongs to the virtual machine; with no inherited names it is an own-name test.
- Stepper.StepOutMeaning: is the case of a visible return; `Stepper.StepOutExactly` covers every run.
- Hybrid frame merging, the JSON wrapper, protocol parameter and result types, dispatcher tables, the DOM, CSS, page and animation agents, profilers, tracing, logging and heap snapshots would add only field copying or calls into code that is not part of this model.
