/**
 The call page's signalling client, abstracted to the state its handlers
 test and set: the current room id, whether a local media stream was
 obtained, the current peer connection (an opaque id, fresh each time one
 is constructed), whether its `ontrack` / `onicecandidate` callbacks were
 installed, whether that peer has a remote description and how many
 remote ICE candidates it accepted, whether a remote stream is bound to the remote video,
 and the messages sent so far. Whether the library's asynchronous SDP
 steps succeed is a boolean parameter of the handler that awaits them.
 Each handler runs as one atomic transition.
 */
module SignalClient {
  import opened Wrappers

  type PeerId = nat

  /** Messages the client emits; negotiation messages carry the room id current when sent. */
  datatype Outgoing =
    | CreateRoomMsg
    | JoinRoomMsg(room: string)
    | OfferMsg(roomId: Option<string>)
    | AnswerMsg(roomId: Option<string>)
    | IceMsg(roomId: Option<string>)

  predicate IsNegotiation(m: Outgoing)
  {
    m.OfferMsg? || m.AnswerMsg? || m.IceMsg?
  }

  datatype Client = Client(
    roomId: Option<string>,
    hasLocalStream: bool,
    peer: Option<PeerId>,
    wired: bool,
    remoteSet: bool,
    applied: nat,
    nextPeer: PeerId,
    remoteBound: bool,
    outbox: seq<Outgoing>)

  /**
   Events reaching the client: media set-up, the two buttons' calls, the
   server's messages, and the current peer's own callbacks.
   */
  datatype Event =
    | Initialize(granted: bool)
    | CallCreateRoom
    | CallJoinRoom(room: string)
    | RoomCreatedMsg(room: string)
    | RoomJoinedMsg(room: string, offerOk: bool)
    | OfferIn(answerOk: bool)
    | AnswerIn(applyOk: bool)
    | IceIn(applyOk: bool)
    | LocalCandidate(present: bool)
    | Track(hasStream: bool)
    | PeerDisconnectedMsg

  /** A freshly constructed client: no room, no stream, no peer. */
  function Initial(): Client
  {
    Client(None, false, None, false, false, 0, 0, false, [])
  }

  /**
   Peer ids in use are below the next fresh one, and without a peer there
   are no callbacks, no remote description and no applied candidate.
   */
  predicate Wf(c: Client)
  {
    && (c.peer.Some? ==> c.peer.value < c.nextPeer)
    && (c.peer.None? ==> !c.wired && !c.remoteSet && c.applied == 0)
  }

  /** `initialize`: a granted media request stores the stream; a refused one changes nothing. */
  function InitializeMedia(c: Client, granted: bool): (r: Client)
    ensures r.hasLocalStream == (c.hasLocalStream || granted)
    ensures r.(hasLocalStream := c.hasLocalStream) == c
  {
    if granted then c.(hasLocalStream := true) else c
  }

  /** `createRoom`: one `create_room` when a local stream exists, otherwise nothing. */
  function CreateRoom(c: Client): (r: Client)
    ensures !c.hasLocalStream ==> r == c
    ensures c.hasLocalStream ==> r == c.(outbox := c.outbox + [CreateRoomMsg])
  {
    if !c.hasLocalStream then c else c.(outbox := c.outbox + [CreateRoomMsg])
  }

  /** `joinRoom(room)`: one `join_room(room)` when a local stream exists, otherwise nothing. */
  function JoinRoom(c: Client, room: string): (r: Client)
    ensures !c.hasLocalStream ==> r == c
    ensures c.hasLocalStream ==> r == c.(outbox := c.outbox + [JoinRoomMsg(room)])
  {
    if !c.hasLocalStream then c else c.(outbox := c.outbox + [JoinRoomMsg(room)])
  }

  /**
   Construct a new peer connection, with no descriptions or candidates, in
   place of the current one. Its callbacks are installed only when a local
   stream exists: without one, reading the stream's tracks throws before
   they are assigned.
   */
  function NewPeer(c: Client): (r: Client)
    requires Wf(c)
    ensures Wf(r) && r.peer == Some(c.nextPeer) && r.peer != c.peer
    ensures r.wired == c.hasLocalStream
    ensures !r.remoteSet && r.applied == 0
    ensures r.(peer := c.peer, wired := c.wired, nextPeer := c.nextPeer, remoteSet := c.remoteSet, applied := c.applied) == c
  {
    c.(peer := Some(c.nextPeer), wired := c.hasLocalStream, nextPeer := c.nextPeer + 1, remoteSet := false, applied := 0)
  }

  /**
   `initiateCall`: always installs a new peer (the old one is not closed);
   the offer is sent only when the local stream's tracks could be added
   and the offer was created and set, tagged with the current room.
   */
  function InitiateCall(c: Client, offerOk: bool): (r: Client)
    requires Wf(c)
    ensures Wf(r) && r.peer == Some(c.nextPeer) && r.peer != c.peer
    ensures r.wired == c.hasLocalStream && !r.remoteSet && r.applied == 0
    ensures r.roomId == c.roomId && r.hasLocalStream == c.hasLocalStream && r.remoteBound == c.remoteBound
    ensures r.outbox == c.outbox + (if c.hasLocalStream && offerOk then [OfferMsg(c.roomId)] else [])
  {
    var c1 := NewPeer(c);
    if c1.hasLocalStream && offerOk then c1.(outbox := c1.outbox + [OfferMsg(c1.roomId)]) else c1
  }

  /** `room_created`: records the room; the peer and everything else stay. */
  function OnRoomCreated(c: Client, room: string): (r: Client)
    ensures r.roomId == Some(room)
    ensures r.(roomId := c.roomId) == c
  {
    c.(roomId := Some(room))
  }

  /** `room_joined`: records the room, then starts a call with a fresh peer. */
  function OnRoomJoined(c: Client, room: string, offerOk: bool): (r: Client)
    requires Wf(c)
    ensures r.roomId == Some(room)
    ensures Wf(r) && r.peer == Some(c.nextPeer) && r.peer != c.peer
    ensures r.wired == c.hasLocalStream && !r.remoteSet && r.applied == 0
    ensures r.hasLocalStream == c.hasLocalStream && r.remoteBound == c.remoteBound
    ensures r.outbox == c.outbox + (if c.hasLocalStream && offerOk then [OfferMsg(Some(room))] else [])
  {
    InitiateCall(c.(roomId := Some(room)), offerOk)
  }

  /**
   `handleOffer`: reuses the current peer or, when there is none,
   constructs one (and then throws if there is no local stream); when the
   remote description, answer and local description all succeed
   (`answerOk`) exactly one answer tagged with the current room is sent.
   */
  function HandleOffer(c: Client, answerOk: bool): (r: Client)
    requires Wf(c)
    ensures Wf(r) && r.peer.Some?
    ensures c.peer.Some? ==> r.peer == c.peer && r.nextPeer == c.nextPeer && r.wired == c.wired
    ensures c.peer.None? ==> r.peer == Some(c.nextPeer) && r.wired == c.hasLocalStream
    ensures c.peer.None? ==> r.applied == 0 && r.remoteSet == (c.hasLocalStream && answerOk)
    ensures c.peer.Some? && !answerOk ==> r == c
    ensures c.peer.Some? && answerOk ==> r == c.(remoteSet := true, outbox := c.outbox + [AnswerMsg(c.roomId)])
    ensures r.roomId == c.roomId && r.remoteBound == c.remoteBound && r.hasLocalStream == c.hasLocalStream
    ensures r.outbox == c.outbox + (if (c.peer.Some? || c.hasLocalStream) && answerOk then [AnswerMsg(c.roomId)] else [])
    ensures r.outbox != c.outbox ==> r.remoteSet
  {
    if c.peer.None? && !c.hasLocalStream then NewPeer(c)
    else
      var c1 := if c.peer.None? then NewPeer(c) else c;
      if answerOk then c1.(remoteSet := true, outbox := c1.outbox + [AnswerMsg(c1.roomId)]) else c1
  }

  /**
   `handleAnswer`: without a peer nothing happens; with one, an answer the
   library accepts (`applyOk`) becomes its remote description.
   */
  function HandleAnswer(c: Client, applyOk: bool): (r: Client)
    ensures c.peer.None? || !applyOk ==> r == c
    ensures c.peer.Some? && applyOk ==> r == c.(remoteSet := true)
  {
    if c.peer.Some? && applyOk then c.(remoteSet := true) else c
  }

  /**
   `handleIceCandidate`: without a peer nothing happens; with one, a
   candidate the library accepts is applied, and one it rejects (one that
   arrives before the remote description, say) is dropped, not queued.
   */
  function HandleIceCandidate(c: Client, applyOk: bool): (r: Client)
    ensures c.peer.None? || !applyOk ==> r == c
    ensures c.peer.Some? && applyOk ==> r == c.(applied := c.applied + 1)
  {
    if c.peer.Some? && applyOk then c.(applied := c.applied + 1) else c
  }

  /**
   The current peer's `onicecandidate`: a real candidate is sent tagged
   with the current room, and only by a peer whose callbacks were installed.
   */
  function OnLocalCandidate(c: Client, present: bool): (r: Client)
    ensures r.outbox == c.outbox + (if c.peer.Some? && c.wired && present then [IceMsg(c.roomId)] else [])
    ensures r.(outbox := c.outbox) == c
  {
    if c.peer.Some? && c.wired && present then c.(outbox := c.outbox + [IceMsg(c.roomId)]) else c
  }

  /**
   The current peer's `ontrack`: a track event with a stream binds the
   remote video, and only on a peer whose callbacks were installed.
   */
  function OnTrack(c: Client, hasStream: bool): (r: Client)
    ensures r.remoteBound == (c.remoteBound || (c.peer.Some? && c.wired && hasStream))
    ensures r.(remoteBound := c.remoteBound) == c
  {
    if c.peer.Some? && c.wired && hasStream then c.(remoteBound := true) else c
  }

  /** `handlePeerDisconnection`: remote video unbound and the peer, with its state, closed and dropped. */
  function HandlePeerDisconnection(c: Client): (r: Client)
    ensures r.peer.None? && !r.remoteBound && Wf(r)
    ensures r.roomId == c.roomId && r.outbox == c.outbox && r.hasLocalStream == c.hasLocalStream
  {
    c.(peer := None, wired := false, remoteSet := false, applied := 0, remoteBound := false)
  }

  function Step(c: Client, e: Event): Client
    requires Wf(c)
  {
    match e
    case Initialize(granted) => InitializeMedia(c, granted)
    case CallCreateRoom => CreateRoom(c)
    case CallJoinRoom(room) => JoinRoom(c, room)
    case RoomCreatedMsg(room) => OnRoomCreated(c, room)
    case RoomJoinedMsg(room, ok) => OnRoomJoined(c, room, ok)
    case OfferIn(ok) => HandleOffer(c, ok)
    case AnswerIn(ok) => HandleAnswer(c, ok)
    case IceIn(ok) => HandleIceCandidate(c, ok)
    case LocalCandidate(present) => OnLocalCandidate(c, present)
    case Track(hasStream) => OnTrack(c, hasStream)
    case PeerDisconnectedMsg => HandlePeerDisconnection(c)
  }

  /** Whether `d` holds only negotiation messages tagged `room` (and any room messages). */
  predicate TaggedWith(d: seq<Outgoing>, room: Option<string>)
  {
    forall i :: 0 <= i < |d| && IsNegotiation(d[i]) ==> d[i].roomId == room
  }

  /**
   Each event appends at most one message, and any negotiation message it
   appends carries the room id the client holds once the event is handled
   (the room id at send time); only the two room messages change the room.
   */
  lemma StepTags(c: Client, e: Event)
    requires Wf(c)
    ensures Wf(Step(c, e))
    ensures var r := Step(c, e);
      && |c.outbox| <= |r.outbox| <= |c.outbox| + 1
      && r.outbox[..|c.outbox|] == c.outbox
      && TaggedWith(r.outbox[|c.outbox|..], r.roomId)
    ensures !e.RoomCreatedMsg? && !e.RoomJoinedMsg? ==> Step(c, e).roomId == c.roomId
  {
    match e {
      case CallCreateRoom => AppendTagged(c.outbox, if c.hasLocalStream then [CreateRoomMsg] else [], c.roomId);
      case CallJoinRoom(room) => AppendTagged(c.outbox, if c.hasLocalStream then [JoinRoomMsg(room)] else [], c.roomId);
      case RoomJoinedMsg(room, ok) =>
        AppendTagged(c.outbox, if c.hasLocalStream && ok then [OfferMsg(Some(room))] else [], Some(room));
      case OfferIn(ok) =>
        AppendTagged(c.outbox, if (c.peer.Some? || c.hasLocalStream) && ok then [AnswerMsg(c.roomId)] else [], c.roomId);
      case LocalCandidate(present) =>
        AppendTagged(c.outbox, if c.peer.Some? && c.wired && present then [IceMsg(c.roomId)] else [], c.roomId);
      case _ => AppendTagged(c.outbox, [], Step(c, e).roomId);
    }
  }

  /** Appending at most one tagged message keeps the prefix and tags the new part. */
  lemma AppendTagged(before: seq<Outgoing>, extra: seq<Outgoing>, room: Option<string>)
    requires |extra| <= 1 && TaggedWith(extra, room)
    ensures var after := before + extra;
      && |before| <= |after| <= |before| + 1
      && after[..|before|] == before
      && TaggedWith(after[|before|..], room)
  {
    assert (before + extra)[|before|..] == extra;
  }

  function Run(c: Client, evs: seq<Event>): Client
    requires Wf(c)
    decreases |evs|
  {
    if |evs| == 0 then c
    else
      StepTags(c, evs[0]);
      Run(Step(c, evs[0]), evs[1..])
  }

  /**
   Once in a room, and as long as no further room message arrives, every
   offer, answer and candidate the client sends names that room.
   */
  lemma {:induction false} RunKeepsRoomTag(c: Client, evs: seq<Event>)
    requires Wf(c)
    requires forall i :: 0 <= i < |evs| ==> !evs[i].RoomCreatedMsg? && !evs[i].RoomJoinedMsg?
    ensures Wf(Run(c, evs))
    ensures |c.outbox| <= |Run(c, evs).outbox| && Run(c, evs).outbox[..|c.outbox|] == c.outbox
    ensures Run(c, evs).roomId == c.roomId
    ensures TaggedWith(Run(c, evs).outbox[|c.outbox|..], c.roomId)
    decreases |evs|
  {
    if |evs| > 0 {
      var c1 := Step(c, evs[0]);
      StepTags(c, evs[0]);
      RunKeepsRoomTag(c1, evs[1..]);
      var r := Run(c1, evs[1..]);
      assert r == Run(c, evs);
      var d := r.outbox[|c.outbox|..];
      assert d == c1.outbox[|c.outbox|..] + r.outbox[|c1.outbox|..];
      forall i | 0 <= i < |d| && IsNegotiation(d[i])
        ensures d[i].roomId == c.roomId
      {
        if i < |c1.outbox| - |c.outbox| {
          assert d[i] == c1.outbox[|c.outbox|..][i];
        } else {
          assert d[i] == r.outbox[|c1.outbox|..][i - (|c1.outbox| - |c.outbox|)];
        }
      }
    }
  }

  /**
   A peer built in answer to an offer while no local stream exists has no
   callbacks: whatever offers, answers, candidates and tracks follow, it
   sends no candidate and binds no remote video, although a later offer
   to it is still answered.
   */
  lemma {:induction false} StreamlessPeerSilent(c: Client, evs: seq<Event>)
    requires Wf(c) && c.peer.None? && !c.hasLocalStream
    requires forall i :: 0 <= i < |evs| ==> evs[i].LocalCandidate? || evs[i].Track? || evs[i].OfferIn? || evs[i].AnswerIn? || evs[i].IceIn?
    ensures var r := Run(HandleOffer(c, true), evs);
      && |r.outbox| >= |c.outbox|
      && (forall i :: |c.outbox| <= i < |r.outbox| ==> !r.outbox[i].IceMsg?)
      && r.remoteBound == c.remoteBound
    decreases |evs|
  {
    var c1 := HandleOffer(c, true);
    assert !c1.wired && c1.outbox == c.outbox;
    StreamlessStays(c1, evs);
  }

  lemma {:induction false} StreamlessStays(c: Client, evs: seq<Event>)
    requires Wf(c) && c.peer.Some? && !c.wired
    requires forall i :: 0 <= i < |evs| ==> evs[i].LocalCandidate? || evs[i].Track? || evs[i].OfferIn? || evs[i].AnswerIn? || evs[i].IceIn?
    ensures var r := Run(c, evs);
      && |r.outbox| >= |c.outbox| && r.outbox[..|c.outbox|] == c.outbox
      && (forall i :: |c.outbox| <= i < |r.outbox| ==> !r.outbox[i].IceMsg?)
      && r.remoteBound == c.remoteBound
    decreases |evs|
  {
    if |evs| > 0 {
      var c1 := Step(c, evs[0]);
      assert c1.peer.Some? && !c1.wired && c1.remoteBound == c.remoteBound;
      assert c1.outbox == c.outbox || (c1.outbox == c.outbox + [AnswerMsg(c.roomId)]);
      StreamlessStays(c1, evs[1..]);
      var r := Run(c1, evs[1..]);
      assert r == Run(c, evs);
      forall i | |c.outbox| <= i < |r.outbox|
        ensures !r.outbox[i].IceMsg?
      {
        if i >= |c1.outbox| {
        } else {
          assert r.outbox[i] == c1.outbox[i];
        }
      }
    }
  }

  /** Dropping the peer twice is dropping it once. */
  lemma PeerDisconnectionIdempotent(c: Client)
    ensures HandlePeerDisconnection(HandlePeerDisconnection(c)) == HandlePeerDisconnection(c)
  {
  }
}
