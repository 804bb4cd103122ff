/**
 * The server's room registry as a mutable object, with one method per socket
 * event. Each method updates the registry in place and returns the events it
 * sends, and each is proved to perform the transition that Handlers
 * specifies, so every property proved there holds of these methods.
 */
module Lobby {
  import opened Rooms
  import opened Handlers

  class RoomRegistry {
    /** The rooms, keyed, in the order their keys were first stored. */
    var rooms: seq<Entry>

    ghost predicate Valid()
      reads this
    {
      RegistryOk(rooms)
    }

    /** The registry starts empty when the process starts. */
    constructor ()
      ensures Valid() && rooms == []
    {
      rooms := [];
    }

    /** `connection`: a newly connected client gets the listing, and only it does. */
    method Connect() returns (out: seq<Emit>)
      requires Valid()
      ensures |out| == 1 && out[0].to == Sender && out[0].msg == ServerList(rooms)
    {
      out := [Emit(Sender, ServerList(rooms))];
    }

    /** `hostServer`; `pick` stands for the random palette draw. */
    method HostServer(conn: ConnId, username: string, pick: nat) returns (out: seq<Emit>)
      requires Valid()
      modifies this
      ensures Valid()
      ensures Outcome(rooms, out) == AfterHost(old(rooms), conn, username, pick)
    {
      HostKeepsRegistryOk(rooms, conn, username, pick);
      var roomId := RoomKey(conn);
      var playerColor := PALETTE[pick % |PALETTE|];
      var room := Room(roomId, username, conn, [Player(conn, username, playerColor)], Waiting);
      rooms := Put(rooms, roomId, room);
      out := [Emit(Sender, RoomJoined(room)), Emit(Everyone, ServerList(rooms))];
    }

    /** `joinServer`; `pick` stands for the random draw over the candidate colours. */
    method JoinServer(conn: ConnId, roomId: string, username: string, pick: nat) returns (out: seq<Emit>)
      requires Valid()
      modifies this
      ensures Valid()
      ensures Outcome(rooms, out) == AfterJoin(old(rooms), conn, roomId, username, pick)
    {
      JoinKeepsRegistryOk(rooms, conn, roomId, username, pick);
      var room := Lookup(rooms, roomId);
      if room.Some? && |room.value.players| < CAPACITY && room.value.status == Waiting {
        var candidates := ColorCandidates(room.value.players);
        var playerColor := candidates[pick % |candidates|];
        var updated := room.value.(players := room.value.players + [Player(conn, username, playerColor)]);
        rooms := Put(rooms, roomId, updated);
        out := [Emit(RoomMembers(roomId), RoomUpdated(updated)), Emit(Everyone, ServerList(rooms))];
      } else {
        out := [Emit(Sender, Error(JOIN_REFUSED))];
      }
    }

    /** `startGame`: silently ignored unless the caller hosts a room of at least two players. */
    method StartGame(conn: ConnId, roomId: string) returns (out: seq<Emit>)
      requires Valid()
      modifies this
      ensures Valid()
      ensures Outcome(rooms, out) == AfterStart(old(rooms), conn, roomId)
    {
      StartKeepsRegistryOk(rooms, conn, roomId);
      var room := Lookup(rooms, roomId);
      if room.Some? && room.value.hostId == conn && |room.value.players| >= MIN_PLAYERS_TO_START {
        var started := room.value.(status := Playing);
        rooms := Put(rooms, roomId, started);
        out := [Emit(RoomMembers(roomId), GameStarted(started)), Emit(Everyone, ServerList(rooms))];
      } else {
        out := [];
      }
    }

    /** `disconnect`: scan the rooms in order and clean up the first one holding `conn`. */
    method Disconnect(conn: ConnId) returns (out: seq<Emit>)
      requires Valid()
      modifies this
      ensures Valid()
      ensures Outcome(rooms, out) == AfterDisconnect(old(rooms), conn)
    {
      DisconnectKeepsRegistryOk(rooms, conn);
      out := [];
      var i := 0;
      while i < |rooms|
        invariant 0 <= i <= |rooms|
        invariant rooms == old(rooms)
        invariant forall j :: 0 <= j < i ==> !Holds(rooms[j].room, conn)
      {
        var room := rooms[i].room;
        var playerIndex := PlayerIndex(room.players, conn);
        if playerIndex.Some? {
          FirstRoomWithIs(rooms, conn, i);
          var roomId := rooms[i].key;
          room := room.(players := RemoveAt(room.players, playerIndex.value));
          if |room.players| == 0 || room.hostId == conn {
            rooms := RemoveAt(rooms, i);
          } else {
            rooms := rooms[i := Entry(roomId, room)];
            out := [Emit(RoomMembers(roomId), RoomUpdated(room))];
          }
          out := out + [Emit(Everyone, ServerList(rooms))];
          break;
        }
        i := i + 1;
      }
    }
  }
}
