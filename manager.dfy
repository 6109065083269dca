/** The room manager: an object holding the two dictionaries of the lobby,
    updated in place by create_room, join_room and start_game. Each method
    is proved to produce the reply and the new dictionaries that the
    corresponding LobbySpec function gives, and to keep the lobby invariant. */
module Manager {
  import opened Rooms
  import opened LobbySpec

  class RoomManager {
    /** Every live room, by id. */
    var rooms: map<RoomId, Room>
    /** The room each seated player is in. */
    var playerToRoom: map<PlayerId, RoomId>

    function Snapshot(): Lobby
      reads this
    {
      Lobby(rooms, playerToRoom)
    }

    ghost predicate Valid()
      reads this
    {
      Consistent(Snapshot())
    }

    constructor ()
      ensures Valid()
      ensures rooms == map[] && playerToRoom == map[]
    {
      rooms := map[];
      playerToRoom := map[];
      EmptyConsistent();
    }

    /** _generate_unique_room_id: draws a four-digit code no live room uses.
        Which code is drawn is left open. */
    method GenerateUniqueRoomId() returns (id: RoomId)
      requires |rooms| < RoomCodeCount
      ensures IsRoomCode(id) && id !in rooms
    {
      FreeCodeExists(rooms.Keys);
      id :| FirstRoomCode <= id <= LastRoomCode && id !in rooms;
    }

    /** create_room. The fresh id is the allocator's draw; the source's draw
        never returns once all 9000 codes are live, hence the precondition. */
    method CreateRoom(host: PlayerId) returns (r: Result<Room>)
      requires Valid()
      requires host in playerToRoom || |rooms| < RoomCodeCount
      modifies this
      ensures Valid()
      ensures r.Err? ==>
        && host in old(playerToRoom)
        && (Snapshot(), r) == (old(Snapshot()), Err(AlreadyInRoom(old(playerToRoom)[host])))
      ensures r.Ok? ==>
        && FreshId(old(Snapshot()), r.value.id)
        && (Snapshot(), r) == Create(old(Snapshot()), host, r.value.id)
    {
      if host in playerToRoom {
        return Err(AlreadyInRoom(playerToRoom[host]));
      }
      ghost var before := Snapshot();
      var newRoomId := GenerateUniqueRoomId();
      var newRoom := NewRoom(newRoomId, host);
      rooms := rooms[newRoomId := newRoom];
      playerToRoom := playerToRoom[host := newRoomId];
      CreateKeepsConsistent(before, host, newRoomId);
      return Ok(newRoom);
    }

    /** join_room. */
    method JoinRoom(roomId: RoomId, player: PlayerId) returns (r: Result<Room>)
      requires Valid()
      modifies this
      ensures Valid()
      ensures (Snapshot(), r) == Join(old(Snapshot()), roomId, player)
    {
      if player in playerToRoom {
        return Err(AlreadyInRoom(playerToRoom[player]));
      }
      if roomId !in rooms {
        return Err(RoomNotFound);
      }
      var room := rooms[roomId];
      if room.state != Waiting {
        return Err(InvalidState(room.state));
      }
      if room.IsFull() {
        return Err(RoomFull);
      }
      ghost var before := Snapshot();
      room := room.(players := room.players + [player]);
      rooms := rooms[roomId := room];
      playerToRoom := playerToRoom[player := roomId];
      if room.IsFull() {
        room := room.(state := Full);
        rooms := rooms[roomId := room];
      }
      assert room == Admit(before.rooms[roomId], player);
      assert Snapshot() == Join(before, roomId, player).0;
      JoinKeepsConsistent(before, roomId, player);
      return Ok(room);
    }

    /** start_game. */
    method StartGame(roomId: RoomId, initiator: PlayerId) returns (r: Outcome)
      requires Valid()
      modifies this
      ensures Valid()
      ensures (Snapshot(), r) == Start(old(Snapshot()), roomId, initiator)
    {
      if roomId !in rooms {
        return Fail(RoomNotFound);
      }
      var room := rooms[roomId];
      if initiator != room.host {
        return Fail(NotHost);
      }
      if !room.IsFull() {
        return Fail(NotFull(room.maxPlayers, room.PlayerCount()));
      }
      if room.state == InGame {
        return Fail(AlreadyInGame);
      }
      ghost var before := Snapshot();
      rooms := rooms[roomId := room.(state := InGame)];
      StartKeepsConsistent(before, roomId, initiator);
      return Pass;
    }
  }

  /** The source's demonstration, replayed against the manager: Alice's room
      cannot start with one player, Bob cannot start it, David fills it,
      Alice starts it, and Eve can no longer join. */
  method Demo() returns (manager: RoomManager, roomId: RoomId)
    ensures manager.Valid()
    ensures manager.Snapshot() == Lobby(
      map[roomId := Room(roomId, "Alice", MaxPlayers, ["Alice", "Bob", "Charlie", "David"], InGame)],
      map["Alice" := roomId, "Bob" := roomId, "Charlie" := roomId, "David" := roomId])
  {
    var tooEarly, notHost, started, eve;
    manager, roomId, tooEarly := DemoOpen();
    notHost := DemoCharlie(manager, roomId);
    DemoFill(manager, roomId);
    started, eve := DemoPlay(manager, roomId);
  }

  /** Alice creates a room, cannot start it alone, and Bob joins. */
  method DemoOpen() returns (manager: RoomManager, roomId: RoomId, tooEarly: Outcome)
    ensures fresh(manager) && manager.Valid()
    ensures tooEarly == Fail(NotFull(4, 1))
    ensures manager.Snapshot() == Lobby(
      map[roomId := Room(roomId, "Alice", MaxPlayers, ["Alice", "Bob"], Waiting)],
      map["Alice" := roomId, "Bob" := roomId])
  {
    manager := new RoomManager();
    var created := manager.CreateRoom("Alice");
    assert created.Ok?;
    roomId := created.value.id;
    ghost var room := NewRoom(roomId, "Alice");
    assert manager.Snapshot() == Lobby(map[roomId := room], map["Alice" := roomId]);

    tooEarly := manager.StartGame(roomId, "Alice");

    ghost var l := manager.Snapshot();
    assert l == Lobby(map[roomId := room], map["Alice" := roomId]);
    var bob := manager.JoinRoom(roomId, "Bob");
    assert "Bob" !in l.index && ["Alice"] + ["Bob"] == ["Alice", "Bob"];
    assert bob.Ok?;
  }

  /** Charlie joins; Bob, who is not the host, cannot start. */
  method DemoCharlie(manager: RoomManager, roomId: RoomId) returns (notHost: Outcome)
    requires manager.Valid()
    requires manager.Snapshot() == Lobby(
      map[roomId := Room(roomId, "Alice", MaxPlayers, ["Alice", "Bob"], Waiting)],
      map["Alice" := roomId, "Bob" := roomId])
    modifies manager
    ensures manager.Valid()
    ensures manager.Snapshot() == Lobby(
      map[roomId := Room(roomId, "Alice", MaxPlayers, ["Alice", "Bob", "Charlie"], Waiting)],
      map["Alice" := roomId, "Bob" := roomId, "Charlie" := roomId])
    ensures notHost == Fail(NotHost)
  {
    var charlie := manager.JoinRoom(roomId, "Charlie");
    assert ["Alice", "Bob"] + ["Charlie"] == ["Alice", "Bob", "Charlie"];
    assert charlie.Ok? && charlie.value.state == Waiting;

    notHost := manager.StartGame(roomId, "Bob");
  }

  /** David takes the last seat and the room turns FULL. */
  method DemoFill(manager: RoomManager, roomId: RoomId)
    requires manager.Valid()
    requires manager.Snapshot() == Lobby(
      map[roomId := Room(roomId, "Alice", MaxPlayers, ["Alice", "Bob", "Charlie"], Waiting)],
      map["Alice" := roomId, "Bob" := roomId, "Charlie" := roomId])
    modifies manager
    ensures manager.Valid()
    ensures manager.Snapshot() == Lobby(
      map[roomId := Room(roomId, "Alice", MaxPlayers, ["Alice", "Bob", "Charlie", "David"], Full)],
      map["Alice" := roomId, "Bob" := roomId, "Charlie" := roomId, "David" := roomId])
  {
    var david := manager.JoinRoom(roomId, "David");
    assert ["Alice", "Bob", "Charlie"] + ["David"] == ["Alice", "Bob", "Charlie", "David"];
    assert david.Ok? && david.value.state == Full;
  }

  /** Alice starts the full room and Eve's join is refused. */
  method DemoPlay(manager: RoomManager, roomId: RoomId) returns (started: Outcome, eve: Result<Room>)
    requires manager.Valid()
    requires manager.Snapshot() == Lobby(
      map[roomId := Room(roomId, "Alice", MaxPlayers, ["Alice", "Bob", "Charlie", "David"], Full)],
      map["Alice" := roomId, "Bob" := roomId, "Charlie" := roomId, "David" := roomId])
    modifies manager
    ensures manager.Valid()
    ensures manager.Snapshot() == Lobby(
      map[roomId := Room(roomId, "Alice", MaxPlayers, ["Alice", "Bob", "Charlie", "David"], InGame)],
      map["Alice" := roomId, "Bob" := roomId, "Charlie" := roomId, "David" := roomId])
    ensures started == Pass
    ensures eve == Err(InvalidState(InGame))
  {
    started := manager.StartGame(roomId, "Alice");
    eve := manager.JoinRoom(roomId, "Eve");
  }
}
