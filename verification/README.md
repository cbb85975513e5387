# Sign-language video call: signalling and detection control, modelled in Dafny

The application pairs two browsers in a WebRTC video call and, beside the
call, classifies still frames of the local camera as signs. This project
models the parts that carry decidable logic:

- the Flask-SocketIO server's **room registry and relay** (`app.py`): a map
  from room id to `{creator, peers}` changed by `create_room`, `join_room`
  and `disconnect`, and read by the `offer` / `answer` / `ice_candidate`
  relays (`server_rooms.dfy`, module `ServerRooms`);
- the server's **detection path** (`app.py`): the data-URL prefix strip, the
  centre crop of `preprocess_image`, the ordered error checks of
  `detect_sign` and the choice between answering the room or the sender
  (`server_detect.dfy`, module `ServerDetect`);
- the detection page's **controller** (`static/detection.js`): connection
  flag, `isDetecting`, the capture timer, the start/stop buttons, the
  ten-entry history and the frames sent (`detection_client.dfy`, module
  `DetectionClient`);
- the call page's **signalling client** (`static/webrtc.js`), abstracted to
  room id, local-stream flag, current peer (an opaque fresh id with a
  callbacks-installed flag, a remote-description flag and an
  applied-candidate count), remote-video
  binding and the messages sent (`signal_client.dfy`, module `SignalClient`).

`sequences.dfy` gives Python's `list.remove` and `str.split` their meaning
(first occurrence only; at least one piece), `wrappers.dfy` holds `Option`,
and `scenario.dfy` walks one two-party call through server and clients.

Every handler is a pure function from state to state (plus, on the server,
the list of emits with a symbolic target: back to the sender, or to a
socket.io room minus an optional skipped session). Two loops of the source
are also written as methods and proved equal to those functions: the
`disconnect` loop over `list(rooms.keys())` and the history trimming loop.

Parameters stand for what cannot be seen: the new room id (a `uuid4`
prefix), the dictionary's key order, the decoder (`decode` returns the
image size or None), the classifier (`predict` returns an index and a
score), whether the camera was granted, whether each asynchronous
RTCPeerConnection step succeeded, and whether a captured frame encoded.

Python's `//` on the non-negative image sizes agrees with Dafny's `/`;
`1000 / FPS` is 500 exactly, so the JavaScript float division is exact.
JavaScript and Python truthiness is modelled where the code relies on it:
an empty `roomId` string does not route a result to a room, and an empty
frame string is not sent.

## Model

| member | source | states |
|---|---|---|
| `Sequences.RemoveFirst` | app.py:98 | `list.remove` drops exactly the first occurrence: the result is the list with the element at the first index of `x` cut out, one shorter |
| `Sequences.RemoveFirstMultiset` | app.py:98 | removal takes exactly one copy of the session id out of the bag of peers |
| `Sequences.Split` | app.py:111 | `str.split` yields at least one piece, none holding the separator, exactly one iff the separator is absent; the first piece is the text before the first separator |
| `Sequences.JoinSplit` | app.py:111 | joining the pieces of a split with the separator gives the original string back |
| `Sequences.SplitJoin` | app.py:111 | splitting a join of separator-free pieces gives the pieces back |
| `ServerRooms.CreateRoom` | app.py:52-61 | afterwards the new id maps to a room whose creator is the caller and whose peers are exactly `[caller]`; every other room is unchanged; `room_created(id)` goes to the caller |
| `ServerRooms.JoinRoom` | app.py:63-71 | for an existing room the caller is appended to its peers (duplicates allowed), no other room changes and `room_joined` goes to the caller; for a missing room the registry is unchanged and only a "Room not found" error is emitted |
| `ServerRooms.Forward` | app.py:73-92 | an offer, answer or candidate is relayed, with its body, to the named room minus the sender exactly when the message names a registered room; otherwise nothing is emitted |
| `ServerRooms.Handle` | app.py:52-104 | the relay handlers never change the registry and emit at most once; no handler creates a room with an empty peer list when none existed |
| `ServerRooms.DisconnectEffect` | app.py:94-104 | on disconnect, rooms without the session are untouched, a room whose only peer was the session is deleted, and any other room holding it loses one occurrence and keeps its creator; no room becomes empty |
| `ServerRooms.NoticesExactly` | app.py:99-102 | `peer_disconnected` is sent, skipping the leaver, to exactly the rooms that held it and still have peers, and nothing else is emitted |
| `ServerRooms.LeaveInPlace` | app.py:97-102 | one loop pass at a key leaves that room as `Leave` says (untouched, one occurrence removed, or deleted when emptied), touches no other key, and appends a notice exactly when the room held the session and keeps other peers |
| `ServerRooms.DisconnectLoop` | app.py:94-104 | the mutating loop over the key list computes the same registry and emits as the room-by-room definition |
| `ServerRooms.JoinThenDisconnect` | app.py:63-104 | for a session in no room, in a registry without empty rooms (which every handler keeps, `ServerRooms.Handle`), joining then disconnecting restores the registry |
| `ServerRooms.CreateThenDisconnect` | app.py:52-104 | for a session in no room and a fresh id, creating then disconnecting restores the registry |
| `ServerRooms.DuplicateJoinSurvivesDisconnect` | app.py:63-100 | a session that joined a room twice is still listed there, and the room still exists, after one disconnect |
| `ServerDetect.StripDataUrl` | app.py:109-111 | with a comma, the result is the comma-free segment that starts right after the first comma and ends at the next comma or the end; without one, the input |
| `ServerDetect.CentreCrop` | app.py:124-134 | the crop lies inside the image, is square, its side is the largest even number not above the smaller dimension, and it is centred to within one pixel |
| `ServerDetect.Preprocess` | app.py:107-148 | preprocessing fails exactly when decoding fails or the smaller dimension is below 2 (an empty crop makes the resize raise); on success the crop handed to the classifier is the `CentreCrop` of the decoded size, of side at least 2 |
| `ServerDetect.Classify` | app.py:152-183 | the reported failure is the first failing check in the order model loaded, image present, preprocessing, class index below the number of classes; otherwise the label is the predicted class's name |
| `ServerDetect.Route` | app.py:185-190 | a result goes to the request's room exactly when it names a registered, non-empty room id; otherwise to the sender |
| `ServerDetect.DetectSign` | app.py:150-196 | the handler emits an error, with the check's message, to the sender exactly when a check fails; when the checks pass it emits exactly one `detection_result` carrying the predicted class's name and its confidence, sent where `Route` says |
| `ServerDetect.FrameRequestAnsweredToSender` | app.py:186-190 | a request shaped like the detection page's `{image}` (no room id) is always answered to the sender alone |
| `DetectionClient.EnableControls` | static/detection.js:141-148 | start is usable iff enabled and not detecting, stop iff enabled and detecting, so never both |
| `DetectionClient.StartDetection` | static/detection.js:166-180 | already detecting or no video element: nothing changes, no second timer; otherwise detecting, exactly one timer with period 500 ms, start disabled and stop enabled, with connection, video flag, history and sent frames kept |
| `DetectionClient.StopDetection` | static/detection.js:182-192 | afterwards not detecting, no timer, start usable and stop disabled; connection, history and sent frames untouched |
| `DetectionClient.StopIdempotent` | static/detection.js:182-192 | stopping twice equals stopping once |
| `DetectionClient.OnConnect` | static/detection.js:80-84 | connect marks the page connected and enables the controls: start usable iff not detecting, stop usable iff detecting; detection, timer, video flag, history and sent frames are kept |
| `DetectionClient.OnDisconnect` | static/detection.js:86-91 | disconnect as written: not connected, not detecting, no timer, start usable and stop disabled; video flag, history and sent frames kept |
| `DetectionClient.OnDisconnectIntended` | static/detection.js:86-91 | corrected disconnect: not connected, not detecting, no timer, both buttons disabled, history and sent frames kept |
| `DetectionClient.DisconnectLeavesStartUsable` | static/detection.js:86-91 | with the handler as written, connect, disconnect, click start ends detecting with a timer while disconnected |
| `DetectionClient.CaptureFrame` | static/detection.js:151-164 | no frame without a video element or while the video width is 0; otherwise the encoding outcome |
| `DetectionClient.Tick` | static/detection.js:174-179 | a timer firing sends one frame exactly when a timer is installed and the capture is present and non-empty, and changes nothing else |
| `DetectionClient.AddToHistory` | static/detection.js:194-215 | the new entry is at index 0, the previous entries follow in order, and the length is `min(old + 1, 10)`, so only the oldest are dropped |
| `DetectionClient.TrimHistory` | static/detection.js:209-214 | insert-at-front then remove-last-while-over-ten yields `AddToHistory` |
| `DetectionClient.StepConsistent` | static/detection.js:80-192 | with the corrected disconnect handler of the Findings table, each page event keeps the controller consistent: timer iff detecting, a usable button matches the detection state, nothing usable or detecting while disconnected, history within 10 |
| `DetectionClient.RunConsistent` | static/detection.js:80-192 | with the corrected disconnect handler, every event sequence from a consistent controller ends consistent |
| `DetectionClient.PageLoadConsistent` | static/detection.js:217-230 | with the corrected disconnect handler, every controller reached from page load (both buttons disabled, not detecting) by any event sequence is consistent |
| `DetectionClient.QuietUntilReconnect` | static/detection.js:86-91 | with the corrected disconnect handler (the source's handler does not keep this; see Findings), after a disconnect and until the next connect detection stays off and no frame is sent |
| `DetectionClient.StepAsWrittenCoherent` | static/detection.js:80-192 | with the disconnect handler as written, each page event keeps the timer installed exactly while detecting, a usable button matching the detection state, and the history within 10 |
| `DetectionClient.RunAsWrittenCoherent` | static/detection.js:80-192 | the page as written keeps that invariant over every event sequence |
| `DetectionClient.PageLoadCoherentAsWritten` | static/detection.js:217-230 | every controller the page as written reaches from page load is coherent |
| `SignalClient.InitializeMedia` | static/webrtc.js:15-37 | a granted camera request records a local stream; a refused one changes nothing |
| `SignalClient.CreateRoom` | static/webrtc.js:87-93 | without a local stream nothing is sent; with one, exactly one `create_room` is appended |
| `SignalClient.JoinRoom` | static/webrtc.js:95-101 | without a local stream nothing is sent; with one, exactly one `join_room(id)` is appended |
| `SignalClient.NewPeer` | static/webrtc.js:105-132 | constructing a peer installs a fresh id, different from the current one, with no description and no candidates; its callbacks are installed exactly when a local stream exists (without one, reading its tracks throws first) |
| `SignalClient.InitiateCall` | static/webrtc.js:103-145 | a call always replaces the peer with a fresh one, with no remote description, no applied candidates, and callbacks installed exactly when a local stream exists; room, stream and remote binding are kept; an offer tagged with the current room is sent only when a local stream exists and the offer steps succeed |
| `SignalClient.OnRoomCreated` | static/webrtc.js:44-48 | `room_created(r)` sets the room to `r` and changes nothing else, the peer included |
| `SignalClient.OnRoomJoined` | static/webrtc.js:50-55 | `room_joined(r)` sets the room to `r` and installs a fresh peer replacing any existing one, clean (no remote description, no applied candidates) and with callbacks exactly when a local stream exists; stream and remote binding are kept; the offer it may send names `r` |
| `SignalClient.HandleOffer` | static/webrtc.js:147-189 | an offer reuses the existing peer, whose state is kept: on failure nothing changes, on success only the remote description is set and one answer tagged with the current room is sent; with no peer it creates a clean one, which without a local stream throws before answering |
| `SignalClient.StreamlessPeerSilent` | static/webrtc.js:149-174 | a peer built for an offer while no local stream exists sends no candidate and binds no remote video under any later offers, answers, candidates and tracks |
| `SignalClient.HandleAnswer` | static/webrtc.js:191-199 | without a peer, or if the library rejects it, an answer changes nothing; otherwise it becomes the peer's remote description |
| `SignalClient.HandleIceCandidate` | static/webrtc.js:201-209 | without a peer, or if the library rejects it, a candidate changes nothing (it is not queued); otherwise one more candidate is applied |
| `SignalClient.OnLocalCandidate` | static/webrtc.js:125-132 | a local candidate is sent, tagged with the current room, only by a current peer whose callbacks were installed; nothing else changes |
| `SignalClient.OnTrack` | static/webrtc.js:116-122 | a track event carrying a stream binds the remote video only on a current peer whose callbacks were installed; nothing else changes |
| `SignalClient.HandlePeerDisconnection` | static/webrtc.js:211-221 | afterwards there is no peer and no remote binding; room, stream and sent messages are kept |
| `SignalClient.PeerDisconnectionIdempotent` | static/webrtc.js:211-221 | handling a peer disconnection twice equals handling it once |
| `SignalClient.StepTags` | static/webrtc.js:44-85 | each event appends at most one message, keeps the earlier ones, and any offer, answer or candidate it appends names the room held at send time; only the room messages change the room |
| `SignalClient.RunKeepsRoomTag` | static/webrtc.js:125-140 | once in a room, until another room message, every offer, answer and candidate sent names that room |
| `Scenario.TwoPartyCall` | static/webrtc.js:44-55 | creator and joiner hold the server's room id, the joiner's offer and the creator's answer name it and are relayed to the other party only, and the creator's departure leaves the joiner alone and notified |

## Findings

| source | as written | input that shows it | evidently intended | confidence | as-written member | corrected member |
|---|---|---|---|---|---|---|
| static/detection.js:86-91 | the disconnect handler calls `enableControls(false)` and then `stopDetection()`, whose `enableControls(true)` re-enables the start button | page connected, then disconnected, then start clicked: detection runs with a capture timer while disconnected | both buttons stay disabled until the socket reconnects | medium; not executed | `DetectionClient.OnDisconnect` (with `DetectionClient.DisconnectLeavesStartUsable`) | `DetectionClient.OnDisconnectIntended` (used by `DetectionClient.Step`; `DetectionClient.QuietUntilReconnect`) |

## Left out

- Media and transport internals: `getUserMedia`, SDP contents, ICE gathering, STUN, socket.io transport and reconnection. Their outcomes are boolean parameters; the peer is an opaque fresh id.
- socket.io room membership (`join_room` / `leave_room` on the server) is not tracked; emits carry a symbolic room target, so who actually receives a room emit is not modelled.
- DOM rendering (status texts, `innerHTML`, alerts, `srcObject` beyond the remote-bound flag) and the presence checks on buttons, status, history and remote-video elements, which are taken as present. The video element's presence is a fixed flag.
- Floating point: confidence formatting, `/255.0` normalisation and `argmax`; the prediction is an abstract index and score.
- TensorFlow and imaging: model loading and `predict`, `base64` and PIL decoding, `cvtColor` and `resize`; a failed decode is a None from the `decode` parameter. Exceptions raised by `predict` (caught by `detect_sign`'s outer handler) and non-string `image` values are not modelled.
- Room id generation (`uuid4()[:8]`): the id is a parameter.
- Concurrency: the threaded server and the interleaving of awaited steps inside the async client handlers; every handler is one atomic transition.
- `SignalClient.HandleOffer`: one `answerOk` flag stands for the three awaited steps, so a failure after `setRemoteDescription` succeeded (remote description set, no answer sent) is not distinguished.
- `SignalClient.OnTrack`, `SignalClient.OnLocalCandidate`: callbacks of earlier, replaced peers (which `initiateCall` does not close) are not modelled; only the current peer's callbacks are.
- `WebRTCConnection.disconnect()` in static/webrtc.js is never called by the page, so it is not modelled; neither is the join button's `trim()` of the typed room id (the id is taken as typed and non-empty).
- The detection page's `loadModel` (TensorFlow.js, never called) and `initializeCamera` (camera I/O) are not modelled; `detection_error` only changes the DOM.
- `DetectionClient.Step`: follows the corrected disconnect handler of the Findings table; the as-written handler is `DetectionClient.OnDisconnect`.
- The scripts under `scripts/` and `convert_model.py` (webcam capture, dataset preparation, training, model conversion) are not part of this model.
