/**
 * The data of the matchmaking lobby: players, rooms, the colour palette, the
 * colour-selection rule used when a player joins, and the process-wide room
 * registry, kept as a sequence of keyed entries in key-insertion order.
 */
module Rooms {

  datatype Option<T> = None | Some(value: T)

  /** An opaque connection identifier handed out by the transport. */
  type ConnId = string
  type Color = string

  /** The fixed palette, in declaration order. */
  const PALETTE: seq<Color> := ["#2266ff", "#cc2222", "#22aa33", "#ddaa00", "#8822cc"]
  /** A room key is this many leading characters of the host's connection id. */
  const KEY_LENGTH: nat := 5
  /** A join is refused once a room holds this many players. */
  const CAPACITY: nat := 5
  /** The host may start a room only once it holds at least this many players. */
  const MIN_PLAYERS_TO_START: nat := 2
  /** The text sent back on a refused join. */
  const JOIN_REFUSED: string := "Server is full or already started."

  datatype Status = Waiting | Playing

  datatype Player = Player(id: ConnId, name: string, color: Color)

  datatype Room = Room(id: string, hostName: string, hostId: ConnId, players: seq<Player>, status: Status)

  /** One key of the registry together with the room stored under it. */
  datatype Entry = Entry(key: string, room: Room)

  /** Where an event is delivered: the requesting connection, the members of a room, or everyone. */
  datatype Target = Sender | RoomMembers(roomId: string) | Everyone

  datatype Message =
    | ServerList(listing: seq<Entry>)
    | RoomJoined(joined: Room)
    | RoomUpdated(updated: Room)
    | GameStarted(started: Room)
    | Error(text: string)

  datatype Emit = Emit(to: Target, msg: Message)

  /** The key of the room hosted by `conn`: its first KEY_LENGTH characters (all of it when shorter). */
  function RoomKey(conn: ConnId): (key: string)
    ensures |key| == if |conn| < KEY_LENGTH then |conn| else KEY_LENGTH
    ensures key <= conn
  {
    if |conn| <= KEY_LENGTH then conn else conn[..KEY_LENGTH]
  }

  // ---------------------------------------------------------------------
  // Colours
  // ---------------------------------------------------------------------

  /** Some player of `players` already wears colour `c`. */
  predicate ColorUsed(players: seq<Player>, c: Color) {
    exists j :: 0 <= j < |players| && players[j].color == c
  }

  /** The colours of `palette` that no player of `players` wears, in palette order. */
  function UnusedColors(palette: seq<Color>, players: seq<Player>): (free: seq<Color>)
    ensures forall c :: c in free <==> c in palette && !ColorUsed(players, c)
    ensures |free| <= |palette|
  {
    if palette == [] then []
    else if ColorUsed(players, palette[0]) then UnusedColors(palette[1..], players)
    else [palette[0]] + UnusedColors(palette[1..], players)
  }

  /**
   * The colours a joining player may receive: the unused palette colours, or
   * the whole palette when every colour is taken.
   */
  function ColorCandidates(players: seq<Player>): (cs: seq<Color>)
    ensures |cs| > 0
    ensures forall c :: c in cs ==> c in PALETTE
    ensures (exists c :: c in PALETTE && !ColorUsed(players, c)) ==>
              forall c :: c in cs ==> !ColorUsed(players, c)
    ensures forall c :: c in PALETTE && !ColorUsed(players, c) ==> c in cs
    ensures (forall c :: c in PALETTE ==> ColorUsed(players, c)) ==> cs == PALETTE
  {
    var free := UnusedColors(PALETTE, players);
    assert |free| > 0 ==> free[0] in free;
    if |free| == 0 then PALETTE else free
  }

  /** The colour of a joining player; `pick` stands for the random draw over the candidates. */
  function PickColor(players: seq<Player>, pick: nat): (c: Color)
    ensures c in PALETTE
    ensures (exists u :: u in PALETTE && !ColorUsed(players, u)) ==> !ColorUsed(players, c)
  {
    var cs := ColorCandidates(players);
    cs[pick % |cs|]
  }

  /** Every candidate colour is the outcome of some draw: the draw is over all of them. */
  lemma EveryCandidateDrawable(players: seq<Player>, c: Color)
    requires c in ColorCandidates(players)
    ensures exists pick: nat :: PickColor(players, pick) == c
  {
    var cs := ColorCandidates(players);
    var i :| 0 <= i < |cs| && cs[i] == c;
    assert i % |cs| == i;
    assert PickColor(players, i) == c;
  }

  // ---------------------------------------------------------------------
  // Player lists
  // ---------------------------------------------------------------------

  /** The index of the first player whose id is `id`, if any. */
  function PlayerIndex(players: seq<Player>, id: ConnId): (r: Option<nat>)
    ensures r.Some? ==> r.value < |players| && players[r.value].id == id
    ensures r.Some? ==> forall j :: 0 <= j < r.value ==> players[j].id != id
    ensures r.None? ==> forall j :: 0 <= j < |players| ==> players[j].id != id
  {
    if players == [] then None
    else if players[0].id == id then Some(0)
    else match PlayerIndex(players[1..], id)
      case None => None
      case Some(j) => Some(j + 1)
  }

  /** `s` without its element at index `i`; the elements after it move down by one. */
  function RemoveAt<T>(s: seq<T>, i: nat): (r: seq<T>)
    requires i < |s|
    ensures |r| == |s| - 1
    ensures forall j :: 0 <= j < i ==> r[j] == s[j]
    ensures forall j :: i <= j < |r| ==> r[j] == s[j + 1]
    ensures multiset(r) + multiset{s[i]} == multiset(s)
  {
    assert s == s[..i] + [s[i]] + s[i + 1..];
    s[..i] + s[i + 1..]
  }

  // ---------------------------------------------------------------------
  // The registry
  // ---------------------------------------------------------------------

  /** The keys of the registry, in order. */
  function Keys(es: seq<Entry>): (ks: seq<string>)
    ensures |ks| == |es|
    ensures forall j :: 0 <= j < |es| ==> ks[j] == es[j].key
  {
    seq(|es|, j requires 0 <= j < |es| => es[j].key)
  }

  /** The index of the entry stored under `key`, if any (the first one, were keys to repeat). */
  function FindKey(es: seq<Entry>, key: string): (r: Option<nat>)
    ensures r.Some? ==> r.value < |es| && es[r.value].key == key
    ensures r.Some? ==> forall j :: 0 <= j < r.value ==> es[j].key != key
    ensures r.None? ==> forall j :: 0 <= j < |es| ==> es[j].key != key
  {
    if es == [] then None
    else if es[0].key == key then Some(0)
    else match FindKey(es[1..], key)
      case None => None
      case Some(j) => Some(j + 1)
  }

  /** The room stored under `key`: `rooms[key]`, absent when no entry has that key. */
  function Lookup(es: seq<Entry>, key: string): (r: Option<Room>)
    ensures r.None? <==> key !in Keys(es)
    ensures r.Some? ==> exists j :: 0 <= j < |es| && es[j] == Entry(key, r.value)
  {
    match FindKey(es, key)
    case None => None
    case Some(i) => Some(es[i].room)
  }

  /**
   * `rooms[key] = room`: an existing key keeps its position and gets the new
   * room, a new key is added at the end.
   */
  function Put(es: seq<Entry>, key: string, room: Room): (r: seq<Entry>)
    ensures Keys(r) == if key in Keys(es) then Keys(es) else Keys(es) + [key]
    ensures Lookup(r, key) == Some(room)
    ensures forall k :: k != key ==> Lookup(r, k) == Lookup(es, k)
  {
    match FindKey(es, key)
    case Some(i) =>
      var r := es[i := Entry(key, room)];
      PutLookup(es, i, key, room, r);
      r
    case None =>
      var r := es + [Entry(key, room)];
      PutLookup(es, |es|, key, room, r);
      r
  }

  /** Writing `room` at the first position of `key` (or at the end) leaves every other key's lookup alone. */
  lemma {:induction false} PutLookup(es: seq<Entry>, i: nat, key: string, room: Room, r: seq<Entry>)
    requires i <= |es|
    requires forall j :: 0 <= j < i ==> es[j].key != key
    requires i < |es| ==> es[i].key == key && r == es[i := Entry(key, room)]
    requires i == |es| ==> r == es + [Entry(key, room)]
    ensures Keys(r) == if key in Keys(es) then Keys(es) else Keys(es) + [key]
    ensures FindKey(r, key) == Some(i)
    ensures forall k :: k != key ==> FindKey(r, k) == FindKey(es, k)
  {
    if i < |es| {
      assert key in Keys(es) by { assert Keys(es)[i] == key; }
      assert Keys(r) == Keys(es);
    } else {
      assert key !in Keys(es);
      assert Keys(r) == Keys(es) + [key];
    }
    FindKeyIs(r, key, i);
    forall k | k != key
      ensures FindKey(r, k) == FindKey(es, k)
    {
      match FindKey(es, k)
      case Some(j) => FindKeyIs(r, k, j);
      case None => FindKeyAbsent(r, k);
    }
  }

  /** The first index holding `key` is what FindKey returns. */
  lemma FindKeyIs(es: seq<Entry>, key: string, i: nat)
    requires i < |es| && es[i].key == key
    requires forall j :: 0 <= j < i ==> es[j].key != key
    ensures FindKey(es, key) == Some(i)
  {
  }

  /** A key held by no entry is not found. */
  lemma FindKeyAbsent(es: seq<Entry>, key: string)
    requires forall j :: 0 <= j < |es| ==> es[j].key != key
    ensures FindKey(es, key) == None
  {
  }

  /** No two entries of the registry share a key. */
  predicate KeysUnique(es: seq<Entry>) {
    forall i, j :: 0 <= i < j < |es| ==> es[i].key != es[j].key
  }

  /**
   * What every stored room satisfies: it is filed under its own id, that id
   * is the key its host's connection derives, it has between one and
   * CAPACITY players, the host's record comes first, and every colour is a
   * palette colour.
   */
  predicate RoomOk(key: string, room: Room) {
    && room.id == key
    && key == RoomKey(room.hostId)
    && 1 <= |room.players| <= CAPACITY
    && room.players[0].id == room.hostId
    && room.players[0].name == room.hostName
    && forall j :: 0 <= j < |room.players| ==> room.players[j].color in PALETTE
  }

  /** The registry invariant kept by every handler. */
  predicate RegistryOk(es: seq<Entry>) {
    && KeysUnique(es)
    && forall i :: 0 <= i < |es| ==> RoomOk(es[i].key, es[i].room)
  }

  /** With unique keys, the lookup of an entry's key yields that entry's room. */
  lemma {:induction false} LookupAt(es: seq<Entry>, i: nat)
    requires KeysUnique(es)
    requires i < |es|
    ensures Lookup(es, es[i].key) == Some(es[i].room)
  {
    FindKeyIs(es, es[i].key, i);
  }

  /** Storing a room keeps the keys unique and, when the room is well formed, keeps the invariant. */
  lemma {:induction false} PutKeepsRegistryOk(es: seq<Entry>, key: string, room: Room)
    requires RegistryOk(es)
    requires RoomOk(key, room)
    ensures RegistryOk(Put(es, key, room))
  {
    var r := Put(es, key, room);
    match FindKey(es, key)
    case Some(i) =>
      assert r == es[i := Entry(key, room)];
    case None =>
      assert r == es + [Entry(key, room)];
  }

  /** Removing an entry keeps the invariant, and only that entry's key disappears. */
  lemma {:induction false} RemoveKeepsRegistryOk(es: seq<Entry>, i: nat)
    requires RegistryOk(es)
    requires i < |es|
    ensures RegistryOk(RemoveAt(es, i))
    ensures Lookup(RemoveAt(es, i), es[i].key) == None
    ensures forall k :: k != es[i].key ==> Lookup(RemoveAt(es, i), k) == Lookup(es, k)
  {
    RemoveKeepsEntriesOk(es, i);
    RemoveDropsKey(es, i);
    forall k | k != es[i].key
      ensures Lookup(RemoveAt(es, i), k) == Lookup(es, k)
    {
      RemoveKeepsLookup(es, i, k);
    }
  }

  lemma {:induction false} RemoveKeepsEntriesOk(es: seq<Entry>, i: nat)
    requires RegistryOk(es)
    requires i < |es|
    ensures RegistryOk(RemoveAt(es, i))
  {
    var r := RemoveAt(es, i);
    forall a, b | 0 <= a < b < |r|
      ensures r[a].key != r[b].key
    {
      assert r[a] == es[if a < i then a else a + 1];
      assert r[b] == es[if b < i then b else b + 1];
    }
    forall a | 0 <= a < |r|
      ensures RoomOk(r[a].key, r[a].room)
    {
      assert r[a] == es[if a < i then a else a + 1];
    }
  }

  lemma {:induction false} RemoveDropsKey(es: seq<Entry>, i: nat)
    requires KeysUnique(es)
    requires i < |es|
    ensures Lookup(RemoveAt(es, i), es[i].key) == None
  {
    var r := RemoveAt(es, i);
    forall a | 0 <= a < |r|
      ensures r[a].key != es[i].key
    {
      assert r[a] == es[if a < i then a else a + 1];
    }
    FindKeyAbsent(r, es[i].key);
  }

  lemma {:induction false} RemoveKeepsLookup(es: seq<Entry>, i: nat, k: string)
    requires i < |es| && k != es[i].key
    ensures Lookup(RemoveAt(es, i), k) == Lookup(es, k)
  {
    var r := RemoveAt(es, i);
    match FindKey(es, k)
    case None =>
      FindKeyAbsent(r, k);
    case Some(j) =>
      if j < i {
        FindKeyIs(r, k, j);
      } else {
        FindKeyIs(r, k, j - 1);
      }
  }
}
