/**
 The signalling server's room registry: a map from room id to the room's
 creator and its list of peer session ids, changed by the socket handlers
 `create_room`, `join_room` and `disconnect`, and read by the relay handlers
 `offer`, `answer` and `ice_candidate`. Each handler is one atomic step that
 returns the new registry and the messages it emits.
 */
module ServerRooms {
  import opened Wrappers
  import opened Sequences

  /** A socket session id (`request.sid`). */
  type Sid = string
  type RoomId = string
  /** An SDP description or ICE candidate, relayed unread. */
  type Blob = string

  datatype Room = Room(creator: Sid, peers: seq<Sid>)

  type Rooms = map<RoomId, Room>

  /** The three relayed negotiation messages. */
  datatype Negotiation = OfferKind | AnswerKind | IceKind

  /** Events the server emits. */
  datatype Event =
    | RoomCreated(roomId: RoomId)
    | RoomJoined(roomId: RoomId)
    | RoomError(message: string)
    | Forwarded(kind: Negotiation, body: Option<Blob>)
    | PeerDisconnected
    | DetectionResult(sign: string, confidence: real)
    | DetectionError(message: string)

  /**
   Where an emit goes: back to the requesting session, or to the socket.io
   room `room`, leaving out `skip` when one is given.
   */
  datatype Target = ToSender | ToRoom(room: RoomId, skip: Option<Sid>)

  datatype Emit = Emit(event: Event, to: Target)

  /** Result of one handler: the registry afterwards and what was emitted, in order. */
  datatype Step = Step(rooms: Rooms, out: seq<Emit>)

  /**
   Body of an inbound `offer` / `answer` / `ice_candidate`; both fields are
   read with `data.get`, so either may be missing.
   */
  datatype Relay = Relay(roomId: Option<RoomId>, body: Option<Blob>)

  /** Inbound socket events from session `sid`. */
  datatype Inbound =
    | CreateRoomReq(newId: RoomId)
    | JoinRoomReq(roomId: RoomId)
    | RelayReq(kind: Negotiation, data: Relay)
    | DisconnectReq(order: seq<RoomId>)

  const NotFound: string := "Room not found"

  function Get(rooms: Rooms, k: RoomId): Option<Room>
  {
    if k in rooms then Some(rooms[k]) else None
  }

  /** No room in the registry has an empty peer list. */
  ghost predicate NoEmptyRooms(rooms: Rooms)
  {
    forall k :: k in rooms ==> |rooms[k].peers| > 0
  }

  /**
   `order` is an iteration order of the registry's keys: every key exactly
   once (the order of `list(rooms.keys())`).
   */
  ghost predicate KeyOrder(rooms: Rooms, order: seq<RoomId>)
  {
    && (forall k :: k in rooms <==> k in order)
    && (forall i, j :: 0 <= i < j < |order| ==> order[i] != order[j])
  }

  /**
   `create_room`: the fresh id (a uuid prefix in the source, a parameter
   here) maps to a room created by, and holding only, the caller; an
   existing entry under that id would be replaced.
   */
  function CreateRoom(rooms: Rooms, sid: Sid, roomId: RoomId): (r: Step)
    ensures roomId in r.rooms && r.rooms[roomId].creator == sid && r.rooms[roomId].peers == [sid]
    ensures r.rooms.Keys == rooms.Keys + {roomId}
    ensures forall k :: k in rooms && k != roomId ==> r.rooms[k] == rooms[k]
    ensures r.out == [Emit(RoomCreated(roomId), ToSender)]
  {
    Step(rooms[roomId := Room(sid, [sid])], [Emit(RoomCreated(roomId), ToSender)])
  }

  /**
   `join_room`: when the room exists the caller is appended to its peers
   (again, if already there) and told `room_joined`; otherwise the
   registry is untouched and the caller gets an error.
   */
  function JoinRoom(rooms: Rooms, sid: Sid, roomId: RoomId): (r: Step)
    ensures roomId in rooms ==>
      && r.rooms.Keys == rooms.Keys
      && r.rooms[roomId].creator == rooms[roomId].creator
      && r.rooms[roomId].peers == rooms[roomId].peers + [sid]
      && r.out == [Emit(RoomJoined(roomId), ToSender)]
    ensures roomId !in rooms ==> r.rooms == rooms && r.out == [Emit(RoomError(NotFound), ToSender)]
    ensures forall k :: k in rooms && k != roomId ==> k in r.rooms && r.rooms[k] == rooms[k]
  {
    if roomId in rooms then
      var room := rooms[roomId];
      Step(rooms[roomId := room.(peers := room.peers + [sid])], [Emit(RoomJoined(roomId), ToSender)])
    else
      Step(rooms, [Emit(RoomError(NotFound), ToSender)])
  }

  /**
   `offer` / `answer` / `ice_candidate`: forwarded to the named room, minus
   the sender, exactly when the message names a registered room; otherwise
   nothing is emitted. The registry is only read.
   */
  function Forward(rooms: Rooms, sid: Sid, kind: Negotiation, data: Relay): (out: seq<Emit>)
    ensures |out| <= 1
    ensures out != [] <==> data.roomId.Some? && data.roomId.value in rooms
    ensures out != [] ==> out[0] == Emit(Forwarded(kind, data.body), ToRoom(data.roomId.value, Some(sid)))
  {
    match data.roomId
    case Some(k) =>
      if k in rooms then [Emit(Forwarded(kind, data.body), ToRoom(k, Some(sid)))] else []
    case None => []
  }

  /**
   What `disconnect` does to one room: a room without `sid` is kept as is;
   otherwise one occurrence of `sid` is removed, and the room disappears
   (None) when that leaves no peers.
   */
  function Leave(room: Room, sid: Sid): (r: Option<Room>)
  {
    if sid !in room.peers then Some(room)
    else
      var rest := RemoveFirst(room.peers, sid);
      if |rest| == 0 then None else Some(room.(peers := rest))
  }

  /** Whether `disconnect` announces `peer_disconnected` in room `k`. */
  predicate Notifies(rooms: Rooms, sid: Sid, k: RoomId)
  {
    k in rooms && sid in rooms[k].peers && rooms[k].peers != [sid]
  }

  /** The registry after `disconnect` of `sid`, room by room. */
  function DisconnectRooms(rooms: Rooms, sid: Sid): Rooms
  {
    map k | k in rooms && Leave(rooms[k], sid).Some? :: Leave(rooms[k], sid).value
  }

  /** The `peer_disconnected` emits of `disconnect`, in key order. */
  function Notices(rooms: Rooms, sid: Sid, order: seq<RoomId>): seq<Emit>
  {
    if |order| == 0 then []
    else
      var k := order[|order| - 1];
      Notices(rooms, sid, order[..|order| - 1])
        + (if Notifies(rooms, sid, k) then [Emit(PeerDisconnected, ToRoom(k, Some(sid)))] else [])
  }

  /** `disconnect` of `sid`, with the keys visited in `order`. */
  function Disconnect(rooms: Rooms, sid: Sid, order: seq<RoomId>): Step
    requires KeyOrder(rooms, order)
  {
    Step(DisconnectRooms(rooms, sid), Notices(rooms, sid, order))
  }

  /** One socket event from session `sid`. */
  function Handle(rooms: Rooms, sid: Sid, msg: Inbound): (r: Step)
    requires msg.DisconnectReq? ==> KeyOrder(rooms, msg.order)
    ensures msg.RelayReq? ==> r.rooms == rooms && |r.out| <= 1
    ensures NoEmptyRooms(rooms) ==> NoEmptyRooms(r.rooms)
  {
    match msg
    case CreateRoomReq(k) => CreateRoom(rooms, sid, k)
    case JoinRoomReq(k) => JoinRoom(rooms, sid, k)
    case RelayReq(kind, data) => Step(rooms, Forward(rooms, sid, kind, data))
    case DisconnectReq(order) =>
      DisconnectEffect(rooms, sid);
      Disconnect(rooms, sid, order)
  }

  /**
   The per-room outcome of `disconnect`: rooms without `sid` are untouched,
   a room whose only peer is `sid` is deleted, and any other room loses one
   occurrence of `sid` and keeps its creator.
   */
  lemma DisconnectEffect(rooms: Rooms, sid: Sid)
    ensures DisconnectRooms(rooms, sid).Keys <= rooms.Keys
    ensures forall k :: k in rooms && sid !in rooms[k].peers ==>
      k in DisconnectRooms(rooms, sid) && DisconnectRooms(rooms, sid)[k] == rooms[k]
    ensures forall k :: k in rooms && sid in rooms[k].peers ==>
      (k !in DisconnectRooms(rooms, sid) <==> rooms[k].peers == [sid])
    ensures forall k :: k in DisconnectRooms(rooms, sid) && sid in rooms[k].peers ==>
      && DisconnectRooms(rooms, sid)[k].creator == rooms[k].creator
      && DisconnectRooms(rooms, sid)[k].peers == RemoveFirst(rooms[k].peers, sid)
      && |DisconnectRooms(rooms, sid)[k].peers| == |rooms[k].peers| - 1
    ensures forall k :: k in DisconnectRooms(rooms, sid) && |DisconnectRooms(rooms, sid)[k].peers| == 0 ==>
      k in rooms && rooms[k].peers == []
  {
  }

  /**
   `peer_disconnected` goes to exactly the rooms that held `sid` and still
   have peers after it left, never to the leaver, and is the only thing
   `disconnect` emits.
   */
  lemma {:induction false} NoticesExactly(rooms: Rooms, sid: Sid, order: seq<RoomId>, k: RoomId)
    ensures Emit(PeerDisconnected, ToRoom(k, Some(sid))) in Notices(rooms, sid, order)
      <==> k in order && Notifies(rooms, sid, k)
    ensures forall e :: e in Notices(rooms, sid, order) ==>
      e.event == PeerDisconnected && e.to.ToRoom? && e.to.skip == Some(sid) && e.to.room in order
    ensures |Notices(rooms, sid, order)| <= |order|
  {
    if |order| > 0 {
      var init := order[..|order| - 1];
      NoticesExactly(rooms, sid, init, k);
      assert order == init + [order[|order| - 1]];
    }
  }

  /**
   The `for` loop of the source's `on_disconnect`, over the keys in
   `order`, mutating a copy of the registry in place; it computes exactly
   `Disconnect`.
   */
  method DisconnectLoop(rooms: Rooms, sid: Sid, order: seq<RoomId>) returns (rooms': Rooms, out: seq<Emit>)
    requires KeyOrder(rooms, order)
    ensures Step(rooms', out) == Disconnect(rooms, sid, order)
  {
    rooms', out := rooms, [];
    for i := 0 to |order|
      invariant rooms'.Keys <= rooms.Keys
      invariant forall j :: 0 <= j < i ==> Get(rooms', order[j]) == Leave(rooms[order[j]], sid)
      invariant forall j :: i <= j < |order| ==> order[j] in rooms' && rooms'[order[j]] == rooms[order[j]]
      invariant out == Notices(rooms, sid, order[..i])
    {
      var k := order[i];
      ghost var before := rooms';
      rooms', out := LeaveInPlace(rooms', out, sid, k);
      NoticesSnoc(rooms, sid, order, i);
      LeftOneMore(rooms, sid, order, i, before, rooms');
    }
    assert order[..|order|] == order;
    AllKeysLeft(rooms, sid, order, rooms');
  }

  /**
   One pass of the `disconnect` loop body at key `k`: the room at `k` is
   left as `Leave` says, every other key is untouched, and a notice is
   appended exactly when the room held `sid` and keeps other peers.
   */
  method LeaveInPlace(m: Rooms, out: seq<Emit>, sid: Sid, k: RoomId) returns (m': Rooms, out': seq<Emit>)
    requires k in m
    ensures m'.Keys <= m.Keys
    ensures Get(m', k) == Leave(m[k], sid)
    ensures forall x :: x != k ==> Get(m', x) == Get(m, x)
    ensures out' == out + (if sid in m[k].peers && m[k].peers != [sid] then [Emit(PeerDisconnected, ToRoom(k, Some(sid)))] else [])
  {
    m', out' := m, out;
    if sid in m'[k].peers {
      var peers := RemoveFirst(m'[k].peers, sid);
      if |peers| == 0 {
        m' := m' - {k};
      } else {
        m' := m'[k := m'[k].(peers := peers)];
        out' := out' + [Emit(PeerDisconnected, ToRoom(k, Some(sid)))];
      }
    }
  }

  lemma NoticesSnoc(rooms: Rooms, sid: Sid, order: seq<RoomId>, i: nat)
    requires i < |order|
    ensures Notices(rooms, sid, order[..i + 1]) == Notices(rooms, sid, order[..i])
      + (if Notifies(rooms, sid, order[i]) then [Emit(PeerDisconnected, ToRoom(order[i], Some(sid)))] else [])
  {
    assert order[..i + 1][..i] == order[..i];
  }

  /** One more pass of the `disconnect` loop keeps its invariant. */
  lemma LeftOneMore(rooms: Rooms, sid: Sid, order: seq<RoomId>, i: nat, before: Rooms, after: Rooms)
    requires KeyOrder(rooms, order) && i < |order|
    requires before.Keys <= rooms.Keys
    requires forall j :: 0 <= j < i ==> Get(before, order[j]) == Leave(rooms[order[j]], sid)
    requires forall j :: i <= j < |order| ==> order[j] in before && before[order[j]] == rooms[order[j]]
    requires after.Keys <= before.Keys
    requires Get(after, order[i]) == Leave(rooms[order[i]], sid)
    requires forall k :: k != order[i] ==> Get(after, k) == Get(before, k)
    ensures forall j :: 0 <= j < i + 1 ==> Get(after, order[j]) == Leave(rooms[order[j]], sid)
    ensures forall j :: i + 1 <= j < |order| ==> order[j] in after && after[order[j]] == rooms[order[j]]
  {
    forall j | i + 1 <= j < |order|
      ensures order[j] in after && after[order[j]] == rooms[order[j]]
    {
      assert order[j] != order[i];
      assert Get(after, order[j]) == Get(before, order[j]);
    }
  }

  /** A registry that agrees with `Leave` at every key in `order` is the registry after `disconnect`. */
  lemma AllKeysLeft(rooms: Rooms, sid: Sid, order: seq<RoomId>, m: Rooms)
    requires KeyOrder(rooms, order)
    requires m.Keys <= rooms.Keys
    requires forall j :: 0 <= j < |order| ==> Get(m, order[j]) == Leave(rooms[order[j]], sid)
    ensures m == DisconnectRooms(rooms, sid)
  {
  }

  /**
   Joining a room and then disconnecting undoes the join, for a session
   that was in no room before.
   */
  lemma JoinThenDisconnect(rooms: Rooms, sid: Sid, k: RoomId)
    requires NoEmptyRooms(rooms)
    requires forall r :: r in rooms ==> sid !in rooms[r].peers
    ensures DisconnectRooms(JoinRoom(rooms, sid, k).rooms, sid) == rooms
  {
    var joined := JoinRoom(rooms, sid, k).rooms;
    DisconnectEffect(joined, sid);
    if k in rooms {
      var p := rooms[k].peers;
      assert joined[k].peers == p + [sid];
      assert p + [sid] + [] == p + [sid];
      FirstIndexAfter(p, sid, []);
      assert (p + [sid])[..|p|] == p;
      assert RemoveFirst(p + [sid], sid) == p;
      assert k in DisconnectRooms(joined, sid);
    }
    var after := DisconnectRooms(joined, sid);
    assert after.Keys == rooms.Keys;
    forall r | r in rooms
      ensures after[r] == rooms[r]
    {
    }
  }

  /**
   Creating a room under a fresh id and then disconnecting removes the room
   again, for a session that was in no room before.
   */
  lemma CreateThenDisconnect(rooms: Rooms, sid: Sid, k: RoomId)
    requires k !in rooms
    requires forall r :: r in rooms ==> sid !in rooms[r].peers
    ensures DisconnectRooms(CreateRoom(rooms, sid, k).rooms, sid) == rooms
  {
  }

  /**
   A session that joined the same room twice is still listed in it after
   one disconnect (`list.remove` takes only the first copy), and the room
   survives.
   */
  lemma DuplicateJoinSurvivesDisconnect(rooms: Rooms, sid: Sid, k: RoomId)
    requires k in rooms
    ensures var twice := JoinRoom(JoinRoom(rooms, sid, k).rooms, sid, k).rooms;
      && k in DisconnectRooms(twice, sid)
      && sid in DisconnectRooms(twice, sid)[k].peers
  {
    var p := rooms[k].peers;
    var twice := JoinRoom(JoinRoom(rooms, sid, k).rooms, sid, k).rooms;
    assert twice[k].peers == p + [sid] + [sid];
    DisconnectEffect(twice, sid);
    var rest := RemoveFirst(twice[k].peers, sid);
    RemoveFirstMultiset(twice[k].peers, sid);
    assert multiset(twice[k].peers)[sid] >= 2;
    assert sid in multiset(rest);
  }
}
