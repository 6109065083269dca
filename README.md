# Room lobby of majspirit, in Dafny

This project models the game-room lobby of `game_lobby_manager.py`. A `Room` has an
id, a host, a fixed capacity of 4, an ordered roster that starts with the host, and a
lifecycle state (`WAITING`, `FULL`, `IN_GAME`, `CLOSED`). A `RoomManager` owns two
dictionaries: `rooms` (room id to room) and `player_to_room` (player to the id of
their room). It offers three operations. Each one returns a success or failure reply
and never raises:

- `create_room`: the host must not be seated anywhere. The manager draws an unused
  four-digit id and registers a new waiting room holding only the host.
- `join_room`: checks, in this order, that the player is not seated, that the room
  exists, that it is waiting, and that it has a free seat. It then appends the player,
  indexes them, and turns the room `FULL` when the last seat is taken.
- `start_game`: checks, in this order, that the room exists, that the initiator is the
  host, that the room is full, and that it has not started yet. It then sets the state
  to `IN_GAME`.

The model has three modules:

- `Rooms` (rooms.dfy) holds the room record, its queries `PlayerCount` and `IsFull`,
  the per-room invariant `WellFormed`, and the two in-place changes to a room: `Admit`
  (append a player, maybe turn FULL) and `Launch` (start the game).
- `LobbySpec` (lobby_spec.dfy) treats the two dictionaries as one value, `Lobby`. It
  defines the lobby invariant `Consistent`, the three operations as functions from one
  `Lobby` to the next plus a reply, and the lemmas: failure order, preservation of the
  invariant, reachability, and the existence of a free room id.
- `Manager` (manager.dfy) holds the class `RoomManager`. Its fields `rooms` and
  `playerToRoom` are maps that its methods reassign, following the source's order of
  checks and updates. Each method is proved to give exactly the reply and the new maps
  that the matching `LobbySpec` function gives, and to keep the invariant. The
  `DemoOpen`, `DemoCharlie`, `DemoFill` and `DemoPlay` methods (called in turn by
  `Demo`) replay the demonstration under `__main__` against the class.

The failure replies are the kinds `AlreadyInRoom(room)`, `RoomNotFound`,
`InvalidState(state)`, `RoomFull`, `NotHost`, `NotFull(required, current)` and
`AlreadyInGame`. They replace the source's message strings. Each kind carries the data
its message reports.

Notes on the code:

- A second `start_game` on a started room fails with "game already in progress". The
  model calls this failure `AlreadyInGame`.
- `start_game` rejects only the `IN_GAME` state. A full `CLOSED` room would start, but no
  operation ever closes a room.
- `_generate_unique_room_id` retries forever. It has no bound on attempts and no
  exhaustion error.
- `is_full` tests `len(players) == max_players`, not `>=`. Since a roster never exceeds
  capacity (`Consistent` proves this), the test is never wrong in a reachable state.
- The `is_full` check in `join_room` (lines 85-86) never fires in a reachable state. A
  waiting room always has a free seat, and a FULL room is refused one check earlier,
  with an invalid-state failure naming FULL. `JoinNeverReportsRoomFull` and
  `JoinFullRoomIsInvalidState` prove this.

## Model

| member | source | states |
|---|---|---|
| `Rooms.Room.PlayerCount` | game_lobby_manager.py:24-26 | In a well-formed room the count includes the host (the roster starts with the host) and lies between 1 and 4. |
| `Rooms.Room.IsFull` | game_lobby_manager.py:28-30 | In a well-formed room, `is_full` holds exactly when the room is no longer WAITING, that is, when it is FULL or IN_GAME. |
| `Rooms.NewRoom` | game_lobby_manager.py:17-22 | A new room holds only its host, is WAITING, has the given id and host, is not full, and satisfies the room invariant (capacity 4, host first, no duplicates). |
| `Rooms.Admit` | game_lobby_manager.py:89-95 | The player is appended at the end of the roster and the count grows by one. The state becomes FULL exactly when the new count reaches capacity (or it was FULL already); otherwise it is unchanged. Id, host and capacity are kept. |
| `Rooms.Launch` | game_lobby_manager.py:118 | The state becomes IN_GAME and nothing else about the room changes. |
| `Rooms.FullIffAtCapacity` | game_lobby_manager.py:28-30 | In a well-formed room, the state is FULL exactly when `is_full` holds and the game has not started. `is_full` holds exactly when the state is FULL or IN_GAME. The count never exceeds 4. |
| `Rooms.AdmitKeepsWellFormed` | game_lobby_manager.py:82-95 | Admitting an unseated player into a waiting room with a free seat keeps the roster within capacity, duplicate-free and host-first, and keeps WAITING exactly while a seat is free. |
| `Rooms.LaunchKeepsWellFormed` | game_lobby_manager.py:111-118 | Starting a full room keeps the room invariant. |
| `LobbySpec.Create` | game_lobby_manager.py:58-70 | Fails, with the host's current room and no change, exactly when the host is already indexed. On success the new room `NewRoom(id, host)` is added under the fresh id and returned, the host is mapped to that id, and every other room and index entry is unchanged. |
| `LobbySpec.Join` | game_lobby_manager.py:73-99 | Every failure leaves both maps unchanged. It succeeds exactly when the player is unindexed and the room exists, is WAITING and is not full. On success the returned room is the stored one, its roster is the old roster plus the player at the end, and its state is FULL exactly when the count equals capacity (else WAITING). The player is mapped to the room, and every other room and index entry is unchanged. |
| `LobbySpec.Start` | game_lobby_manager.py:102-122 | Every failure leaves both maps unchanged. It succeeds exactly when the room exists, the initiator is its host, it is full and not IN_GAME. On success only that room's state changes, to IN_GAME. Rosters, ids and the index are untouched. |
| `LobbySpec.JoinFailureOrder` | game_lobby_manager.py:75-86 | The reported failure is the first that applies, in order: already in a room (naming it), room not found, invalid state (naming it), room full. |
| `LobbySpec.JoinNeverReportsRoomFull` | game_lobby_manager.py:82-86 | In a consistent lobby, `join_room` never fails with room-full. A room that passes the WAITING check always has a free seat. |
| `LobbySpec.JoinFullRoomIsInvalidState` | game_lobby_manager.py:82-83 | In a consistent lobby, an unseated player's join to a FULL room fails with invalid state FULL, before the capacity check. |
| `LobbySpec.StartFailureOrder` | game_lobby_manager.py:104-115 | The reported failure is the first that applies, in order: room not found, not host, not full (with capacity and current count), already in game. |
| `LobbySpec.EmptyConsistent` | game_lobby_manager.py:44-48 | The empty lobby satisfies the lobby invariant. |
| `LobbySpec.CreateKeepsConsistent` | game_lobby_manager.py:58-70 | `create_room` with a fresh id keeps the invariant. Every room is well-formed and stored under its own four-digit id, and `player_to_room[p] == r` holds exactly when `p` is on room `r`'s roster. |
| `LobbySpec.JoinKeepsConsistent` | game_lobby_manager.py:73-99 | `join_room` keeps the lobby invariant, for every input. |
| `LobbySpec.StartKeepsConsistent` | game_lobby_manager.py:102-122 | `start_game` keeps the lobby invariant, for every input. |
| `LobbySpec.PlayerInAtMostOneRoom` | game_lobby_manager.py:47-48 | Under the invariant, a player on the rosters of two rooms means the two rooms are the same. |
| `LobbySpec.StartedRoomRejects` | game_lobby_manager.py:82-83 | For every lobby, after a successful start, the host's second start fails with already-in-game, and an unseated player's join fails with invalid state IN_GAME. Neither changes anything. |
| `LobbySpec.RunKeepsConsistent` | game_lobby_manager.py:42-122 | Any sequence of create/join/start calls from a consistent lobby ends in a consistent lobby. Each create must draw a fresh id. |
| `LobbySpec.ReachableIsConsistent` | game_lobby_manager.py:94-95 | Every lobby reachable from the empty one is consistent. In it, every room's state is FULL exactly when its roster is at capacity and it is not IN_GAME. |
| `LobbySpec.FreeInRange` | game_lobby_manager.py:53-55 | Among the ids `lo .. hi-1`, one is missing from any set with fewer than `hi - lo` elements. |
| `LobbySpec.FreeCodeExists` | game_lobby_manager.py:50-55 | While fewer than 9000 rooms are live, some four-digit code 1000..9999 is unused, so the draw can return. |
| `Manager.RoomManager.constructor` | game_lobby_manager.py:44-48 | A new manager has two empty dictionaries and satisfies the invariant. |
| `Manager.RoomManager.GenerateUniqueRoomId` | game_lobby_manager.py:50-55 | Returns a code in 1000..9999 that is not a key of `rooms`. |
| `Manager.RoomManager.CreateRoom` | game_lobby_manager.py:58-70 | Keeps the invariant. A failure means the host was indexed, changes nothing, and names the host's room. A success uses a fresh four-digit id, and its reply and new maps are exactly those of `LobbySpec.Create`. |
| `Manager.RoomManager.JoinRoom` | game_lobby_manager.py:73-99 | Keeps the invariant. Its reply and new maps are exactly those of `LobbySpec.Join`. |
| `Manager.RoomManager.StartGame` | game_lobby_manager.py:102-122 | Keeps the invariant. Its reply and new maps are exactly those of `LobbySpec.Start`. |
| `Manager.DemoOpen` | game_lobby_manager.py:142-159 | Returns the reply to Alice's early start: not full, with 4 needed and 1 present. Alice has created a room and Bob has joined it, so the room is WAITING with roster [Alice, Bob] and both are indexed. |
| `Manager.DemoCharlie` | game_lobby_manager.py:160-167 | Returns the reply to Bob's start: not host. After Charlie joins, the room is still WAITING with three players, all indexed, and Bob's start changes nothing. |
| `Manager.DemoFill` | game_lobby_manager.py:171-174 | David joins and the room becomes FULL with four players. |
| `Manager.DemoPlay` | game_lobby_manager.py:177-186 | Returns the replies: Alice's start succeeds, and Eve's join fails with invalid state IN_GAME. The room ends IN_GAME with the four players, all indexed. |
| `Manager.Demo` | game_lobby_manager.py:128-186 | The whole demonstration, run on a new manager, ends with one IN_GAME room holding Alice, Bob, Charlie and David in join order, all four indexed to it, and the invariant intact. |

## Left out

- Console output: the `print` calls and `Room.__str__` have no effect on state.
- The demonstration under `__main__` is replayed by the `Demo` methods; its printing and its early `exit()` on a failed create are not modelled.
- Manager.RoomManager.GenerateUniqueRoomId: which code `random.randint` draws is not modelled. Any unused code may be returned.
- Manager.RoomManager.CreateRoom: once all 9000 codes are live, the source's `while True` draw never returns. The model does not describe that; it requires fewer than 9000 rooms whenever the host is not already seated.
- Room ids are the decimal strings of 1000..9999. The model keys rooms by the number, so a lookup with a string that is not such a code is simply a missing key.
- Rooms are values, not shared objects. `create_room` and `join_room` return a snapshot of the room; the source returns the live object, so a caller's later view of it is not modelled.
- The message strings of the replies are replaced by failure kinds carrying the same data.
- JWT.py (token signing, wall-clock expiry, HTTP errors) is not part of this model.
- server.py and client.py (asynchronous WebSocket echo transport) are not part of this model.
- Leave and close operations, any transition into `CLOSED`, per-room locking and concurrent joins do not exist in the source and are not modelled.
