/** One game room: its identity, host, capacity, ordered roster and lifecycle
    state, the two queries on it, and the two in-place changes the lobby makes
    to a room (admitting a player, starting the game). */
module Rooms {

  type PlayerId = string

  /** Room ids are the decimal strings of the numbers 1000..9999; the model
      keys rooms by that number. */
  type RoomId = int

  /** Every room is created with this capacity. */
  const MaxPlayers: nat := 4

  const FirstRoomCode: int := 1000
  const LastRoomCode: int := 9999
  /** How many distinct room ids the allocator can draw. */
  const RoomCodeCount: nat := 9000

  predicate IsRoomCode(id: RoomId) {
    FirstRoomCode <= id <= LastRoomCode
  }

  datatype RoomState = Waiting | Full | InGame | Closed

  datatype Room = Room(id: RoomId, host: PlayerId, maxPlayers: nat, players: seq<PlayerId>, state: RoomState)
  {
    /** The number of players seated. In a well-formed room the host is
        always counted and at most four are seated. */
    function PlayerCount(): (n: nat)
      ensures WellFormed(this) ==> 1 <= n <= MaxPlayers && players[0] == host
    {
      |players|
    }

    /** In a well-formed room, full means the room is no longer waiting for
        players. */
    predicate IsFull()
      ensures WellFormed(this) ==> (IsFull() <==> state != Waiting)
    {
      PlayerCount() == maxPlayers
    }
  }

  predicate NoDuplicates(s: seq<PlayerId>) {
    forall i, j :: 0 <= i < j < |s| ==> s[i] != s[j]
  }

  /** The invariant of one room in every reachable configuration: capacity 4,
      a roster of one to four distinct players with the host first, never
      closed, and waiting exactly while a seat is free. */
  ghost predicate WellFormed(r: Room) {
    && r.maxPlayers == MaxPlayers
    && 1 <= |r.players| <= r.maxPlayers
    && r.players[0] == r.host
    && NoDuplicates(r.players)
    && r.state != Closed
    && (r.state == Waiting <==> |r.players| < r.maxPlayers)
  }

  /** A new room: the host alone, waiting for players. */
  function NewRoom(id: RoomId, host: PlayerId): (r: Room)
    ensures WellFormed(r)
    ensures r.id == id && r.host == host && r.players == [host] && r.state == Waiting
    ensures !r.IsFull()
  {
    Room(id, host, MaxPlayers, [host], Waiting)
  }

  /** A player takes the next seat; the room turns FULL when that seat was
      the last one. */
  function Admit(r: Room, p: PlayerId): (r': Room)
    ensures r'.id == r.id && r'.host == r.host && r'.maxPlayers == r.maxPlayers
    ensures r'.players == r.players + [p] && r'.PlayerCount() == r.PlayerCount() + 1
    ensures r'.state == Full <==> r'.IsFull() || r.state == Full
    ensures r'.state != Full ==> r'.state == r.state
  {
    var grown := r.(players := r.players + [p]);
    if grown.IsFull() then grown.(state := Full) else grown
  }

  /** The game in a room begins; nothing but the state changes. */
  function Launch(r: Room): (r': Room)
    ensures r'.state == InGame
    ensures r'.id == r.id && r'.host == r.host && r'.maxPlayers == r.maxPlayers && r'.players == r.players
  {
    r.(state := InGame)
  }

  /** In a well-formed room, FULL is exactly "at capacity and not started",
      and a room is full exactly when it is no longer waiting. */
  lemma FullIffAtCapacity(r: Room)
    requires WellFormed(r)
    ensures r.state == Full <==> r.IsFull() && r.state != InGame
    ensures r.IsFull() <==> r.state in {Full, InGame}
    ensures r.PlayerCount() <= MaxPlayers
  {
  }

  /** Admitting a player who is not yet seated into a waiting room with a
      free seat keeps the room well-formed. */
  lemma AdmitKeepsWellFormed(r: Room, p: PlayerId)
    requires WellFormed(r) && r.state == Waiting && !r.IsFull() && p !in r.players
    ensures WellFormed(Admit(r, p))
  {
  }

  /** Starting a full room keeps it well-formed. */
  lemma LaunchKeepsWellFormed(r: Room)
    requires WellFormed(r) && r.IsFull()
    ensures WellFormed(Launch(r))
  {
  }
}
