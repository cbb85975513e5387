/**
 A two-party call walked through the server and both clients: A creates a
 room, B joins it, B offers, A answers, then A leaves.
 */
module Scenario {
  import opened Wrappers
  import ServerRooms
  import SignalClient

  const RoomName: string := "xyz123"

  /**
   The room id the server hands out is the one both clients hold, the
   offer and answer name it and are relayed to the other party only, and
   A's departure leaves B alone in the room and tells it so.
   */
  lemma TwoPartyCall()
    ensures
      var a := SignalClient.OnRoomCreated(SignalClient.CreateRoom(SignalClient.InitializeMedia(SignalClient.Initial(), true)), RoomName);
      var created := ServerRooms.CreateRoom(map[], "A", RoomName);
      var joined := ServerRooms.JoinRoom(created.rooms, "B", RoomName);
      var b := SignalClient.OnRoomJoined(SignalClient.JoinRoom(SignalClient.InitializeMedia(SignalClient.Initial(), true), RoomName), RoomName, true);
      var offer := ServerRooms.Forward(joined.rooms, "B", ServerRooms.OfferKind, ServerRooms.Relay(Some(RoomName), Some("offer")));
      var a' := SignalClient.HandleOffer(a, true);
      var answer := ServerRooms.Forward(joined.rooms, "A", ServerRooms.AnswerKind, ServerRooms.Relay(Some(RoomName), Some("answer")));
      var b' := SignalClient.HandleAnswer(b, true);
      var left := ServerRooms.Disconnect(joined.rooms, "A", [RoomName]);
      && created.out == [ServerRooms.Emit(ServerRooms.RoomCreated(RoomName), ServerRooms.ToSender)]
      && a.roomId == Some(RoomName) && b.roomId == Some(RoomName)
      && joined.rooms[RoomName].peers == ["A", "B"]
      && b.outbox == [SignalClient.JoinRoomMsg(RoomName), SignalClient.OfferMsg(Some(RoomName))]
      && offer == [ServerRooms.Emit(ServerRooms.Forwarded(ServerRooms.OfferKind, Some("offer")), ServerRooms.ToRoom(RoomName, Some("B")))]
      && a'.outbox == [SignalClient.CreateRoomMsg, SignalClient.AnswerMsg(Some(RoomName))]
      && answer == [ServerRooms.Emit(ServerRooms.Forwarded(ServerRooms.AnswerKind, Some("answer")), ServerRooms.ToRoom(RoomName, Some("A")))]
      && a'.peer.Some? && a'.remoteSet && b'.peer.Some? && b'.remoteSet
      && left.rooms == map[RoomName := ServerRooms.Room("A", ["B"])]
      && left.out == [ServerRooms.Emit(ServerRooms.PeerDisconnected, ServerRooms.ToRoom(RoomName, Some("A")))]
  {
    var a := SignalClient.OnRoomCreated(SignalClient.CreateRoom(SignalClient.InitializeMedia(SignalClient.Initial(), true)), RoomName);
    var created := ServerRooms.CreateRoom(map[], "A", RoomName);
    var joined := ServerRooms.JoinRoom(created.rooms, "B", RoomName);
    var b := SignalClient.OnRoomJoined(SignalClient.JoinRoom(SignalClient.InitializeMedia(SignalClient.Initial(), true), RoomName), RoomName, true);
    var a' := SignalClient.HandleOffer(a, true);
    var b' := SignalClient.HandleAnswer(b, true);
    var left := ServerRooms.Disconnect(joined.rooms, "A", [RoomName]);
    assert a.roomId == Some(RoomName) && b.roomId == Some(RoomName);
    assert joined.rooms[RoomName].peers == ["A", "B"];
    assert b.outbox == [SignalClient.JoinRoomMsg(RoomName), SignalClient.OfferMsg(Some(RoomName))];
    assert a'.outbox == [SignalClient.CreateRoomMsg, SignalClient.AnswerMsg(Some(RoomName))];
    assert a'.peer.Some? && a'.remoteSet && b'.peer.Some? && b'.remoteSet;
    ServerRooms.DisconnectEffect(joined.rooms, "A");
    assert ["A", "B"][1..] == ["B"];
    assert left.rooms == map[RoomName := ServerRooms.Room("A", ["B"])];
    assert ServerRooms.Notifies(joined.rooms, "A", RoomName);
    assert [RoomName][..0] == [];
    assert ServerRooms.Notices(joined.rooms, "A", []) == [];
    assert left.out == [ServerRooms.Emit(ServerRooms.PeerDisconnected, ServerRooms.ToRoom(RoomName, Some("A")))];
  }
}
