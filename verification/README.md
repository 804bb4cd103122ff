# Room lifecycle of a realtime matchmaking lobby

This project models the server core of a small socket lobby. A client hosts a
room. Up to four other clients join it. The host starts the game, and the
room is cleaned up when its players disconnect.

The server keeps one process-wide registry `rooms`, mapping a room key to a
room record, and a fixed palette of five colours. Four socket events act on
the registry:

- `hostServer` files a new waiting room. Its key is the first five characters
  of the caller's connection id. Any room already under that key is replaced.
- `joinServer` appends the caller to a room. The room must exist, must hold
  fewer than five players and must still be waiting. A colour not yet worn in
  the room is preferred; the whole palette is the fallback. A refused join
  sends an error to the caller and changes nothing.
- `startGame` marks the room as playing. This happens only when the caller is
  the room's host and the room holds at least two players. Otherwise nothing
  happens and nothing is sent.
- `disconnect` scans the rooms in order and stops at the first room holding
  the connection. It removes the first record with that id. The room is then
  deleted if it is empty or if the connection was its host.

The project has three modules:

- `rooms.dfy` (module `Rooms`) holds the data model, the palette and the
  colour rule. It keeps the registry as a sequence of `Entry(key, room)` in
  key-insertion order, the order a JavaScript object enumerates string keys.
  `Put` models `rooms[key] = room`: an existing key keeps its place, and a new
  key goes last. The module also defines the registry invariant
  `RegistryOk`. Keys are unique, and each room is filed under its own id,
  which is the key derived from its host's id. Each room has 1 to 5 players,
  the host's record comes first, and every colour is a palette colour.
- `handlers.dfy` (module `Handlers`) gives each handler as a transition
  function, `AfterHost`, `AfterJoin`, `AfterStart` and `AfterDisconnect`.
  Each returns the new registry and the events it sends, in order. The
  module's lemmas prove each handler's guarantees and that every handler
  preserves `RegistryOk`.
- `lobby.dfy` (module `Lobby`) holds the class `RoomRegistry`. Its field
  `rooms` is updated in place by one method per socket event. Each method is
  proved to perform the matching transition and to preserve the invariant.
  `Disconnect` keeps the source's `for ... in` scan as a `while` loop that
  breaks at the first match.

Outgoing traffic is a list of `Emit(target, message)`, in sending order. The
target is the caller (`Sender`), the members of one room (`RoomMembers(key)`)
or everyone (`Everyone`). The message is `serverList`, `roomJoined`,
`roomUpdated`, `gameStarted` or `error`, with its payload taken as a
snapshot. The random draw `Math.floor(Math.random() * n)` becomes a parameter
`pick: nat`, and the index used is `pick % n`. Every index in `0 .. n-1` can
be chosen this way, and no call can fail.

The comments in `disconnect` (node.js:67 and node.js:76) say the handler
cleans up when a host or a player leaves, and destroys the room when its host
leaves. The loop acts only on the first room that holds the connection, which
does that only if a connection belongs to at most one room. `joinServer` does
not prevent a connection from being in several rooms: it does not check
whether the caller already hosts or has joined a room, so a connection may
join a room it already belongs to, or several rooms. The model follows the
code. `HostInEarlierRoomLeavesOwnRoom` shows what follows. Suppose a host
joins a room that comes earlier in the registry. When the host disconnects,
the scan stops at that earlier room. The host's own room stays listed, with
the departed connection as its host and as its first player. Starting it
requires that departed connection, so it can no longer be started. The host's
record is never removed, so the room never becomes empty. Only a new room
filed under the same key can replace it. When the host's own room is the first
room holding it, `DisconnectDeletesHostedRoom` gives the behaviour the comment
describes: the host's disconnect deletes its room.

## Model

| member | source | states |
|---|---|---|
| `Rooms.RoomKey` | node.js:23 | the room key is the prefix of the connection id of length min(5, length of the id) |
| `Rooms.UnusedColors` | node.js:43 | a colour is in the result exactly when it is in the palette and no player of the room wears it |
| `Rooms.ColorCandidates` | node.js:43-44 | the candidates are never empty and are all palette colours. While some palette colour is free, the candidates are exactly the free palette colours: none is worn in the room and every free one is included. When every palette colour is worn, the candidates are the whole palette |
| `Rooms.PickColor` | node.js:43-45 | a joining player's colour is a palette colour, and is one nobody in the room wears whenever such a colour exists |
| `Rooms.EveryCandidateDrawable` | node.js:45 | every candidate colour is the result of some draw, so the draw ranges over all the candidates |
| `Rooms.PlayerIndex` | node.js:70 | the first index whose player has the id, or none when no player has it (`findIndex`) |
| `Rooms.RemoveAt` | node.js:73 | `splice(i, 1)`: one element fewer. The elements before `i` stay in place and those after it move down by one. As a multiset, the result plus the removed element equals the original |
| `Rooms.Lookup` | node.js:40 | `rooms[key]` is absent exactly when the key is not in the registry, and is otherwise a room stored under that key |
| `Rooms.Put` | node.js:26-32 | `rooms[key] = room`: the key then yields `room` and every other key yields what it did before. The key order is unchanged when the key existed and gets the key appended otherwise |
| `Rooms.LookupAt` | node.js:40 | with unique keys, looking up an entry's key yields that entry's room |
| `Rooms.PutKeepsRegistryOk` | node.js:26-32 | storing a well-formed room preserves the registry invariant |
| `Rooms.RemoveKeepsRegistryOk` | node.js:76 | `delete rooms[key]` preserves the invariant, makes the key absent and leaves every other key's room as it was |
| `Handlers.HostFilesOneRoom` | node.js:22-37 | hosting stores exactly one room, under the first five characters of the caller's id. The room is waiting, the caller is its host (id and name) and its only player, and that player wears a palette colour. Every other key keeps its room and its position; a new key goes last. The caller gets `roomJoined` and then everyone gets `serverList` |
| `Handlers.HostKeepsRegistryOk` | node.js:26-32 | hosting preserves the registry invariant |
| `Handlers.JoinRefusedChangesNothing` | node.js:40-54 | a join to a missing room, a room with 5 or more players or a room that is not waiting leaves the registry unchanged. The only event is an `error` to the caller |
| `Handlers.JoinAppendsOnePlayer` | node.js:41-51 | an accepted join appends exactly one record, with the caller's id and name, at the end of the room's players. Earlier records keep their order and contents, and the room's other fields are unchanged. The count grows by one and stays at most 5. No other key changes. The room's members then get `roomUpdated` and everyone gets `serverList` |
| `Handlers.JoinColor` | node.js:43-45 | the joining player's colour is a palette colour. Whenever some palette colour is free in the room, it differs from every existing player's colour |
| `Handlers.JoinKeepsRegistryOk` | node.js:41-47 | joining preserves the registry invariant, including the bound of 5 players |
| `Handlers.SecondColorDiffers` | node.js:43-45 | the first player to join a fresh room never gets the host's colour |
| `Handlers.StartPlaysExactlyWhenAllowed` | node.js:57-64 | when the room exists, its host is the caller and it has at least 2 players, the room becomes playing, nothing else changes, and the members get `gameStarted` then everyone gets `serverList`. Otherwise the registry is unchanged and nothing is sent |
| `Handlers.StartTwice` | node.js:58-60 | repeating a successful start leaves the registry unchanged, since the status is not re-checked |
| `Handlers.PutTwice` | node.js:26 | storing the same room under the same key twice equals storing it once |
| `Handlers.StartKeepsRegistryOk` | node.js:59-60 | starting preserves the registry invariant |
| `Handlers.FirstRoomWith` | node.js:68-72 | the scan's stopping point: the first entry whose room holds the connection, or none when no room holds it |
| `Handlers.DisconnectUnknownIsNoOp` | node.js:68-72 | a connection held by no room disconnects with no change and no event |
| `Handlers.DisconnectActsOnFirstMatch` | node.js:68-81 | only the first room in scan order that holds the connection changes, and it loses only the first record with that id. The room is deleted exactly when that record was its last or the connection is its host; then everyone gets `serverList`. Otherwise the room keeps its key, position and status, has exactly one player fewer and every other entry is unchanged. Its members then get `roomUpdated` and everyone gets `serverList` |
| `Handlers.DisconnectDeletesHostedRoom` | node.js:75-76 | a host whose own room is the first room holding it deletes that room on disconnect, however many players remain. Every other key keeps its room |
| `Handlers.DisconnectKeepsRegistryOk` | node.js:73-79 | disconnecting preserves the invariant. In a surviving room the removed record is never the host's, because the host's record is first |
| `Handlers.HostWritesNoPlaying` | node.js:26-31 | after hosting, every playing room was already playing under the same key |
| `Handlers.JoinWritesNoPlaying` | node.js:41-47 | after a join, every playing room was already playing under the same key |
| `Handlers.DisconnectWritesNoPlaying` | node.js:73-79 | after a disconnect, every playing room was already playing under the same key, so `startGame` is the only handler that writes playing |
| `Handlers.Walkthrough` | node.js:22-84 | A hosts, then B joins with a colour different from A's. A starts the game: the room is playing and its members get `gameStarted`. B leaves and the room stays, playing, with A alone. A leaves, the registry is empty, and everyone gets the empty listing |
| `Handlers.HostInEarlierRoomLeavesOwnRoom` | node.js:39-47 | a host who also joined an earlier room and then disconnects leaves its own room listed. That room's host is the departed connection, and the connection is still in the room |
| `Lobby.RoomRegistry.constructor` | node.js:13 | the registry starts empty and valid |
| `Lobby.RoomRegistry.Connect` | node.js:20 | a new connection gets the current listing, and only it is sent anything |
| `Lobby.RoomRegistry.HostServer` | node.js:22-37 | updates `rooms` in place to exactly `AfterHost` of the old registry, returns its events and keeps the invariant |
| `Lobby.RoomRegistry.JoinServer` | node.js:39-55 | updates `rooms` in place to exactly `AfterJoin` of the old registry, returns its events and keeps the invariant |
| `Lobby.RoomRegistry.StartGame` | node.js:57-64 | updates `rooms` in place to exactly `AfterStart` of the old registry, returns its events and keeps the invariant |
| `Lobby.RoomRegistry.Disconnect` | node.js:66-84 | the in-order scan that stops at the first match updates `rooms` to exactly `AfterDisconnect` of the old registry, returns its events and keeps the invariant |

## Left out

- HTTP and socket server setup, static file serving, CORS and `server.listen`. These are process plumbing with no room logic.
- Delivery of events. `socket.emit`, `io.to(...).emit` and `io.emit` become entries of the returned event list, and their transport is not modelled.
- Room-group membership made by `socket.join`. A `RoomMembers(key)` target names the group and does not compute who is in it. A disconnecting connection leaves all its groups, but a room's other players stay in the group of its key when the room is deleted because its host left (node.js:75-76) or is replaced by `hostServer` under the same key (node.js:26). They would then receive `roomUpdated` and `gameStarted` for a later room filed under that key, which the model does not show.
- UTF-16 code units. `RoomKey` takes the first five characters of the id, while `substring(0, 5)` counts UTF-16 code units. The two differ only for ids with characters outside the Basic Multilingual Plane, and socket.io ids are ASCII.
- `Math.random` and the floor of its product. A caller-supplied `pick` replaces the random draw, and `pick % n` is the chosen index.
- `console.log`.
- Concurrency and scheduling. Each handler runs to completion, so each is one atomic method.
- JavaScript's full key-enumeration order for objects, which lists integer-like keys first. The scan order is assumed to be key-insertion order.
- Keys that a plain object inherits, such as `toString` and `__proto__`. A lookup of such a key would throw or misbehave in the source, and here it finds no room.
- Payload shapes. `joinServer`'s payload is taken as an already destructured room key and username, and non-string ids, keys and names are not modelled.
- Object aliasing. Rooms are values, and each event carries a snapshot of the room or registry at the moment it is sent.
