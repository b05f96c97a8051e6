# video-call-app registry model

A Dafny model of the bookkeeping at the heart of a mediasoup/socket.io video-call app. It has four parts:

- **The server's room registry** (`server.dfy`, module `Server`). The state is a round-robin worker index plus the ordered map `roomId → Room`. Each room holds the ordered map `peerId → Peer`, and each peer holds its transports, producers and consumers. Every socket handler is modelled as a pure transition. It takes a state and a request and returns the new state, the acknowledgement sent back, and the events emitted. Each event goes either to the other members of a room (`socket.to`) or to one socket (`socket.emit`).
- **The browser session** (`client.dfy`, module `Client`). This covers the consumer registry keyed by producer id, the producer → peer and peer → username maps, and the camera/microphone flags. The model includes every socket event handler, plus `consume`, `getExistingProducers`, the toggles, `leaveRoom` and `getPeerIdByProducerId`. Each returns the new session and the effects it causes, in order.
- **The page** (`presentation.dfy`, module `Presentation`). This covers:
  - the join form's validation;
  - one video slot per remote peer, holding that peer's tracks;
  - the participant count.
- **The integer pixel filters** (`filters.dfy`, module `Filters`): `invert`, `brightness`, `blackwhite` (with its grey level as a parameter) and `none`. Each is written as a loop over the pixels of an `ImageData` buffer.

Two support modules underpin these:

- `ordered_maps.dfy` models JavaScript's `Map` as a sequence of key/value pairs in insertion order. Several handlers stop at the *first* match, so the order matters.
- `options.dfy` holds `Option` and `Engine`. `Engine` is the success-or-exception outcome of a call into mediasoup or the browser. The model does not see those calls, so every such outcome arrives as a parameter: router, transport, producer and consumer creation, `connect` and `resume`. The router's `canConsume` verdict (a plain boolean) and the socket id (a `PeerId`) arrive as parameters too.

The handlers are only ever applied to states that JavaScript's `Map` guarantees, distinct keys and each record stored under its own id, and with at least one worker (`Server.WellFormed`). The source does not guarantee the last: it starts one worker per entry of `os.cpus()` (server/server.js:30), which may be empty, and `getWorker` then computes an index modulo zero. The model assumes a non-empty pool. The stronger `Server.Invariant` additionally requires that every registered room has at least one peer and a valid worker, and every handler is proved to preserve it.

## Model

| member | source | states |
|---|---|---|
| `Server.Message` | server/server.js:133-324 | an engine failure's own message is passed through; every refusal the handlers throw ("Room not found", "Transport not found", "Cannot consume", "Receive transport not found", "Consumer not found") carries a fixed non-empty text |
| `Server.MessagesDistinct` | server/server.js:244-260 | two different refusals never carry the same text |
| `Server.GetWorker` | server/server.js:52-56 | the returned worker index is below the pool size, and the next index is the following one modulo the size, so it stays in range |
| `Server.RoundRobin` | server/server.js:52-56 | the i-th of n successive calls returns worker (start + i) mod M, i.e. 0, 1, …, M-1, 0, … from index 0 |
| `Server.AssignmentAt` | server/server.js:52-56 | one call at a time: call i of a run of n gets worker (start + i) mod M |
| `Server.GetOrCreateRoom` | server/server.js:59-85 | an existing room is returned unchanged with the state untouched; otherwise exactly one room with an empty peer map is appended under roomId and placed on the next worker, or nothing is registered when router creation fails; the worker index advances in both cases and other rooms are unchanged |
| `Server.JoinRoom` | server/server.js:92-126 | the caller is registered under its own id with empty transport, producer and consumer maps; other peers and rooms are unchanged; peer-joined goes to the room except the caller; the reply carries the room's worker; the only failure is router creation for a new room |
| `Server.FirstRoomOf` | server/server.js:168-171 | the room located for the caller is a registered room that contains it and no earlier room does; none is found exactly when no room contains it |
| `Server.CreateTransport` | server/server.js:129-164 | an unknown room, a failed engine call and a missing peer are reported in that order and leave the state unchanged; on success only the caller's transport map gains the id with its direction; any number of transports per direction is accepted |
| `Server.ConnectTransport` | server/server.js:167-190 | never changes the registry; fails with "Room not found" or "Transport not found" when the caller or its transport is unknown |
| `Server.Produce` | server/server.js:193-237 | fails with "Transport not found" unless the id is in the caller's own transport map; on success only the caller's producer map gains the producer and new-producer goes to the others in the room only |
| `Server.ProducerTransportClosed` | server/server.js:216-220 | the producer leaves its owner's map and nothing else changes |
| `Server.Consume` | server/server.js:240-310 | no room, canConsume false and no recv transport each fail with the source's message and leave the state unchanged; on success exactly one paused consumer is added to the caller and the reply carries its id, the producer id and the kind |
| `Server.ProducerOwner` | server/server.js:293-303 | the reported peer is the id of the first peer in join order whose producer map has the producer, and it is null exactly when no peer has it |
| `Server.ConsumerClosedByEngine` | server/server.js:273-282 | the consumer leaves its owner's map; consumer-closed goes to the owner's own socket only when the producer closed |
| `Server.ResumeConsumer` | server/server.js:313-336 | succeeds exactly when the caller's own consumer map has the id and the engine resumes it; then only that consumer becomes unpaused, and resuming an active one changes nothing |
| `Server.ResumeIdempotent` | server/server.js:313-336 | resuming the same consumer a second time succeeds and leaves the state unchanged |
| `Server.Collect` | server/server.js:341-359 | the snapshot holds exactly the producers of peers other than the caller, each tagged with its owner's id, and as many entries as those peers hold producers |
| `Server.CollectOrder` | server/server.js:347-357 | with distinct peer and producer ids, every producer is listed once, peers in join order and each peer's producers in creation order |
| `Server.GetProducers` | server/server.js:339-365 | empty for an unknown room, otherwise exactly the other peers' producers, each once, as many as they hold, in join order and then creation order; never changes the state |
| `Server.Disconnect` | server/server.js:368-395 | removes only the caller from the first room containing it; peer-left goes to the others; the room is deleted iff it had only the caller; other rooms and peers are untouched |
| `Server.RejoinAfterLastLeaveStartsEmpty` | server/server.js:388-393 | after the last peer leaves, a join under the same id builds a fresh room whose only peer is the joiner |
| `Server.ProducedIsListedForOthers` | server/server.js:222-227 | a produced producer appears, tagged with its owner, in every other member's get-producers snapshot and never in the owner's own |
| `Client.NewSession` | client/src/sfuClient.js:7-37 | a new session has no consumers, no recorded owners or usernames, no transports or producers, and camera and microphone enabled |
| `Client.StartConsume` | client/src/sfuClient.js:510-513 | a producer already in the registry gives back its consumer with no request; otherwise exactly one consume request goes out and the registry is left alone |
| `Client.ResolvePeerId` | client/src/sfuClient.js:535 | the recorded owner if non-empty, else the reply's non-empty peerId, else 'unknown'; never empty |
| `Client.FinishConsume` | client/src/sfuClient.js:515-565 | a rejected reply or failed browser consume changes nothing; on success exactly one entry keyed by the producer id is written with the resolved peer, other entries are unchanged, then resume is requested and the page told |
| `Client.OnPeerJoined` | client/src/sfuClient.js:154-168 | an event about this client changes nothing; otherwise the username is stored only when non-empty and the page is told |
| `Client.OnPeerLeft` | client/src/sfuClient.js:171-187 | removes at most one consumer, the first whose peer is the leaver, and closes it; all other entries keep their order and content |
| `Client.PeerLeftKeepsSecondConsumer` | client/src/sfuClient.js:176-182 | an illustration of the `OnPeerLeft` contract on one concrete registry: a leaving peer with two consumers keeps its second one registered until consumer-closed for it arrives |
| `Client.OnNewProducer` | client/src/sfuClient.js:190-213 | the producer → peer mapping is recorded first even for this client's own producers; a consume request follows unless the peer is this client or the producer is already consumed |
| `Client.OnConsumerClosed` | client/src/sfuClient.js:216-226 | removes at most one entry, the first whose consumer id matches; other entries are unchanged |
| `Client.Record` | client/src/sfuClient.js:595-601 | a snapshot entry records its mapping only when both producer id and peer id are present |
| `Client.ListedPeerWins` | client/src/sfuClient.js:595-604 | because the mapping is recorded before consuming, the consume of a listed producer resolves to the listed peer whatever the reply says |
| `Client.ExistingProducers` | client/src/sfuClient.js:588-611 | no producer is requested twice and none already consumed is requested; every request is for a listed producer; earlier entries are kept; a sweep that completes has every listed producer consumed, and one that aborts left some listed producer unconsumed |
| `Client.SweepAttribution` | client/src/sfuClient.js:595-604 | every consumer the sweep registers for the first listing of a not-yet-consumed producer whose entry names a peer carries that peer |
| `Client.SweepRecordsOwners` | client/src/sfuClient.js:595-601 | owners known before are kept; every new or changed owner is a (producer id, peer id) pair of the snapshot with both present; a completed sweep has recorded an owner for every such pair |
| `Client.SweepAnnounces` | client/src/sfuClient.js:553-556 | every consumer the sweep adds to the registry was announced to the page with its consumer id and producer id |
| `Client.SweepKeepsRest` | client/src/sfuClient.js:588-611 | the sweep changes only the registry and the producer-owner map |
| `Client.JoinRoom` | client/src/sfuClient.js:244-276 | with createTransports (294-302), startLocalMedia (399-443) and getExistingProducers (588-611) inlined: a set-up failure rejects with its message and leaves exactly the transports and producers created before it; a finished set-up holds both transports and both producers; the promise resolves only when a snapshot arrived and every listed producer got consumed, and never settles otherwise; every new consumer is announced and attributed to its listed peer |
| `Client.Toggle` | client/src/sfuClient.js:617-642 | the flag flips iff that producer exists, the producer is paused or resumed accordingly, and the flag now in force is returned; the other kind's flag is untouched |
| `Client.ToggleTwice` | client/src/sfuClient.js:617-642 | two toggles restore the session and return the original flag |
| `Client.CloseAll` | client/src/sfuClient.js:669 | one close per registry entry, in registry order |
| `Client.LeaveRoom` | client/src/sfuClient.js:654-686 | the registry is emptied and the rest of the session kept; the effects are the producer closes, one close per consumer, the transport closes and the disconnect, one per object held |
| `Client.CloseProducers` | client/src/sfuClient.js:659-665 | the camera producer then the microphone producer is closed, each exactly when held |
| `Client.CloseTransports` | client/src/sfuClient.js:671-677 | the send transport then the receive transport is closed, each exactly when held |
| `Client.LeaveRoomOrder` | client/src/sfuClient.js:659-686 | producers close before consumers, consumers before transports, and the socket disconnects last |
| `Client.LeaveRoomCloses` | client/src/sfuClient.js:659-677 | a producer or transport is closed exactly when the session holds it |
| `Client.LeaveRoomConsumers` | client/src/sfuClient.js:667-669 | right after the producer closes, the consumers are closed one per registry entry in registry order |
| `Client.PeerIdOf` | client/src/sfuClient.js:693-695 | the recorded owner of a producer, with a missing or empty one read as null |
| `Presentation.Trim` | client/src/main.js:82-83 | the result is a slice of the input, only white space was cut from either end, it neither starts nor ends with white space, and it is empty exactly when the input held only white space |
| `Presentation.ValidateJoin` | client/src/main.js:82-93 | join is accepted iff both fields hold non-space text; a blank room id is reported before a blank username |
| `Presentation.JoinRoom` | client/src/main.js:81-131 | a refused join creates no session; otherwise the page holds the session joinRoom leaves, every registered consumer with a known owner plays in its owner's slot, earlier slots are kept, new slots belong to owners and carry their caption, a set-up failure leaves the slots as they were, and the room and username are recorded only when joinRoom resolves |
| `Presentation.Caption` | client/src/main.js:327-331 | the label is a prefix of the stored non-empty username or, failing that, of the peer id, of length the smaller of 8 and that name's length |
| `Presentation.CaptionAfterJoin` | client/src/main.js:327-331 | after peer-joined announces a non-empty username, the caption is that username cut to 8 characters |
| `Presentation.OnConsumerCreated` | client/src/main.js:286-312 | with no resolved peer nothing changes; otherwise the peer's slot exists afterwards (created with its label only if absent), holds the track exactly once, keeps its earlier tracks, and no other slot changes |
| `Presentation.ShowCreated` | client/src/main.js:286-312 | after a run of consumer-created callbacks every announced consumer with a known owner is in its owner's slot, earlier slots keep their captions and tracks, and every new slot belongs to an owner and carries its caption |
| `Presentation.OnPeerLeft` | client/src/main.js:241-252 | removes that peer's slot if present and leaves the other slots as they were |
| `Presentation.LeaveRoom` | client/src/main.js:136-168 | without a session nothing happens; after a successful leave the page is blank with no slots and no session |
| `Presentation.Peers` | client/src/main.js:361-369 | exactly the non-empty peer ids that some registry entry is attributed to |
| `Presentation.ParticipantCount` | client/src/main.js:355-372 | 0 iff there is no session, otherwise 1 plus the number of distinct attributed peers |
| `Presentation.CountBounds` | client/src/main.js:361-371 | with a session the count is at least 1 and at most 1 plus the number of consumers |
| `Presentation.CountAfterConsume` | client/src/main.js:361-371 | a new consumer from a peer already counted (an audio+video pair) leaves the count unchanged; one from a new peer raises it by one |
| `Presentation.CountAfterAppend` | client/src/main.js:361-371 | appending a registry entry whose peer is already counted leaves the count unchanged, and one whose peer is new raises it by exactly one |
| `Filters.PixelsOfBytes` | client/src/filters.js:5-6 | reading the pixels of a frame's buffer gives the frame back |
| `Filters.BytesOfPixels` | client/src/filters.js:5-6 | writing the pixels of a buffer gives the buffer back |
| `Filters.ByteAt` | client/src/filters.js:51-55 | byte 4k+c of the buffer is channel c of pixel k, so the bytes with index 3 mod 4 are the alpha bytes |
| `Filters.InvertPixel` | client/src/filters.js:52-54 | each colour byte and its inverse sum to 255; alpha is kept |
| `Filters.Invert` | client/src/filters.js:47-58 | every pixel of the frame is inverted and the frame keeps its size |
| `Filters.InvertInvolution` | client/src/filters.js:51-55 | inverting twice restores the pixel |
| `Filters.BrightenPixel` | client/src/filters.js:64-70 | each colour byte becomes min(255, x + 50), never below its input; alpha is kept |
| `Filters.Brighten` | client/src/filters.js:61-73 | every pixel of the frame is brightened and the frame keeps its size |
| `Filters.BrightenTimes` | client/src/filters.js:66-70 | n passes of brightness give min(255, x + 50 n) for each colour byte |
| `Filters.BrightnessSaturates` | client/src/filters.js:66-70 | an illustration of `BrightenTimes` for n = 6: six passes of brightness turn every colour byte to 255 |
| `Filters.GrayPixel` | client/src/filters.js:8-15 | red, green and blue all take the pixel's grey level; alpha is kept |
| `Filters.BlackWhite` | client/src/filters.js:4-18 | every pixel of the frame is greyed from its own original bytes and the frame keeps its size |
| `Filters.BlackWhiteIdempotent` | client/src/filters.js:8-15 | when a grey pixel's grey is its own level, applying blackwhite twice equals applying it once |
| `Filters.Apply` | client/src/filters.js:123-125 | none returns the frame unchanged; every filter keeps each pixel's alpha and the frame's size |

## Left out

- Media engine and socket transport. mediasoup workers, routers and transports, socket.io, express and cors are outside the model. Their outcomes are parameters, and their ids are opaque strings.
- Asynchrony. Two races are not modelled, because every handler runs to completion here:
  - concurrent `getOrCreateRoom` calls racing across the router `await` (server/server.js:79-85);
  - the check-then-insert window in `consume` (client/src/sfuClient.js:510 and 537).
- Process, timer and DTLS lifecycle. This covers `createWorkers`, the worker-died exit (server/server.js:41-44), `server.listen`, and the transport `dtlsstatechange` handler (server/server.js:146-151). They have no registry effect.
- `Server.Disconnect`: the transport closes it triggers (server/server.js:378) are not followed inside it. Those closes cascade to the leaver's producers, and each producer's close in turn closes the consumers other members hold of it and sends them consumer-closed (server/server.js:278-282). That cascade is modelled separately, one consumer at a time, as `Server.ConsumerClosedByEngine`.
- `Server.ProducerTransportClosed` and `Server.ConsumerClosedByEngine` look the owner up by room and peer id. The source's callbacks instead edit the peer object captured when the producer or consumer was created. The two differ only when that peer has re-joined in the meantime, which this model does not track.
- Producer `pause` and `resume`, and the producer, consumer and transport closes and the socket disconnect of `Client.LeaveRoom`, are effects. What the browser and the engine then do with them is not modelled.
- `videoProcessor.js`, `loadDevice` and `connect` on the client are not part of this model. They are browser and socket glue. `createTransports` and `startLocalMedia` enter only through how many transports and producers they created (`Client.Setup`); `getUserMedia`, the local video element and the stopping of the local stream in `leaveRoom` are not modelled.
- `setFilter` and `handleFilterChange` are not modelled: they only forward a name to the video processor.
- The DOM is reduced to the slot map. Status messages, button states and timers in main.js are not modelled.
- `Presentation.JoinRoom`: a failed `connect`, an error reply to join-room and a failure in the set-up are one outcome, `Client.SetupFailed`, and the session's socket id is a parameter. The page's consumer-created callbacks read the owners of the session as the sweep leaves it rather than as it stands at each callback; the two differ only when a snapshot lists the same producer id twice with different peers. Socket events arriving while joinRoom is still running are not interleaved with it.
- Floating-point filters are not modelled: `sepia`, the `edge` Sobel filter with `Math.sqrt`, and the canvas `blur`.
- `Filters.BlackWhite` and `Filters.GrayPixel` take the grey level as a function parameter instead of the rounded float formula `0.299 r + 0.587 g + 0.114 b`. They state only that the three colour bytes become equal and alpha is kept.
- `Filters.Invert`, `Filters.Brighten` and `Filters.BlackWhite` walk a sequence of pixels rather than stepping the byte index by four. `Filters.ByteAt`, `Filters.PixelsOfBytes` and `Filters.BytesOfPixels` relate the two layouts.
- `Presentation.Caption` counts characters, while JavaScript's `substring` counts UTF-16 code units. The two differ for names outside the Basic Multilingual Plane. The caption is also written into `innerHTML` (client/src/main.js:330-333), so a username containing markup is displayed as interpreted HTML, not as the text modelled here.
- `server/config.js` is static configuration and is not part of this model.
- The consume registry entry is written only after the server reply and the browser-side consume both succeed (`Client.FinishConsume`). A failed consume therefore has no entry to undo.
