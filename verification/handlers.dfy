/**
 * The four room-lifecycle handlers as transitions of the registry: each takes
 * the registry before the event and yields the registry after it together
 * with the events sent out, in order. The lemmas state what each transition
 * promises and that all of them keep the registry invariant.
 */
module Handlers {
  import opened Rooms

  /** The registry after a handler and the events it sent, in sending order. */
  datatype Outcome = Outcome(registry: seq<Entry>, out: seq<Emit>)

  /** The room a connection creates when it hosts; `pick` stands for the random palette draw. */
  function HostedRoom(conn: ConnId, username: string, pick: nat): Room {
    Room(RoomKey(conn), username, conn, [Player(conn, username, PALETTE[pick % |PALETTE|])], Waiting)
  }

  /** `hostServer`: file a new waiting room under the host's key, replacing any room already there. */
  function AfterHost(es: seq<Entry>, conn: ConnId, username: string, pick: nat): Outcome {
    var room := HostedRoom(conn, username, pick);
    var es' := Put(es, RoomKey(conn), room);
    Outcome(es', [Emit(Sender, RoomJoined(room)), Emit(Everyone, ServerList(es'))])
  }

  /** The three checks of `joinServer`: the room exists, is not full and is still waiting. */
  predicate CanJoin(es: seq<Entry>, roomId: string) {
    var r := Lookup(es, roomId);
    r.Some? && |r.value.players| < CAPACITY && r.value.status == Waiting
  }

  /** `joinServer`: append the caller to the room, or refuse with an error to the caller alone. */
  function AfterJoin(es: seq<Entry>, conn: ConnId, roomId: string, username: string, pick: nat): Outcome {
    if CanJoin(es, roomId) then
      var room := Lookup(es, roomId).value;
      var player := Player(conn, username, PickColor(room.players, pick));
      var room' := room.(players := room.players + [player]);
      var es' := Put(es, roomId, room');
      Outcome(es', [Emit(RoomMembers(roomId), RoomUpdated(room')), Emit(Everyone, ServerList(es'))])
    else
      Outcome(es, [Emit(Sender, Error(JOIN_REFUSED))])
  }

  /** The checks of `startGame`: the room exists, the caller is its host and it has at least two players. */
  predicate CanStart(es: seq<Entry>, conn: ConnId, roomId: string) {
    var r := Lookup(es, roomId);
    r.Some? && r.value.hostId == conn && |r.value.players| >= MIN_PLAYERS_TO_START
  }

  /** `startGame`: mark the room as playing, or silently do nothing. */
  function AfterStart(es: seq<Entry>, conn: ConnId, roomId: string): Outcome {
    if CanStart(es, conn, roomId) then
      var room' := Lookup(es, roomId).value.(status := Playing);
      var es' := Put(es, roomId, room');
      Outcome(es', [Emit(RoomMembers(roomId), GameStarted(room')), Emit(Everyone, ServerList(es'))])
    else
      Outcome(es, [])
  }

  /** The room holds a player whose id is `conn`. */
  predicate Holds(room: Room, conn: ConnId) {
    PlayerIndex(room.players, conn).Some?
  }

  /** The index of the first entry, in registry order, whose room holds `conn`. */
  function FirstRoomWith(es: seq<Entry>, conn: ConnId): (r: Option<nat>)
    ensures r.Some? ==> r.value < |es| && Holds(es[r.value].room, conn)
    ensures r.Some? ==> forall j :: 0 <= j < r.value ==> !Holds(es[j].room, conn)
    ensures r.None? ==> forall j :: 0 <= j < |es| ==> !Holds(es[j].room, conn)
  {
    if es == [] then None
    else if Holds(es[0].room, conn) then Some(0)
    else match FirstRoomWith(es[1..], conn)
      case None => None
      case Some(j) => Some(j + 1)
  }

  /**
   * `disconnect`: in the first room holding `conn`, drop its first record;
   * delete the room when it is left empty or `conn` was its host.
   */
  function AfterDisconnect(es: seq<Entry>, conn: ConnId): Outcome {
    match FirstRoomWith(es, conn)
    case None => Outcome(es, [])
    case Some(i) =>
      var room := es[i].room;
      var left := RemoveAt(room.players, PlayerIndex(room.players, conn).value);
      if |left| == 0 || room.hostId == conn then
        var es' := RemoveAt(es, i);
        Outcome(es', [Emit(Everyone, ServerList(es'))])
      else
        var room' := room.(players := left);
        var es' := es[i := Entry(es[i].key, room')];
        Outcome(es', [Emit(RoomMembers(es[i].key), RoomUpdated(room')), Emit(Everyone, ServerList(es'))])
  }

  // ---------------------------------------------------------------------
  // hostServer
  // ---------------------------------------------------------------------

  /**
   * Hosting files exactly one room, under the first characters of the
   * caller's id: a waiting room whose host and only player is the caller,
   * wearing a palette colour. Every other key keeps its room; an existing
   * key keeps its position and a new one goes last. The caller gets the
   * room, then everyone gets the listing.
   */
  lemma HostFilesOneRoom(es: seq<Entry>, conn: ConnId, username: string, pick: nat)
    ensures var o := AfterHost(es, conn, username, pick);
      && Lookup(o.registry, RoomKey(conn)).Some?
      && var room := Lookup(o.registry, RoomKey(conn)).value;
      && room.id == RoomKey(conn) && room.hostId == conn && room.hostName == username
      && room.status == Waiting
      && |room.players| == 1 && room.players[0].id == conn && room.players[0].name == username
      && room.players[0].color in PALETTE
      && (forall k :: k != RoomKey(conn) ==> Lookup(o.registry, k) == Lookup(es, k))
      && Keys(o.registry) == (if RoomKey(conn) in Keys(es) then Keys(es) else Keys(es) + [RoomKey(conn)])
      && o.out == [Emit(Sender, RoomJoined(room)), Emit(Everyone, ServerList(o.registry))]
  {
  }

  lemma {:induction false} HostKeepsRegistryOk(es: seq<Entry>, conn: ConnId, username: string, pick: nat)
    requires RegistryOk(es)
    ensures RegistryOk(AfterHost(es, conn, username, pick).registry)
  {
    PutKeepsRegistryOk(es, RoomKey(conn), HostedRoom(conn, username, pick));
  }

  // ---------------------------------------------------------------------
  // joinServer
  // ---------------------------------------------------------------------

  /** A join against a missing, full or started room changes nothing and only tells the caller. */
  lemma JoinRefusedChangesNothing(es: seq<Entry>, conn: ConnId, roomId: string, username: string, pick: nat)
    requires Lookup(es, roomId).None? || |Lookup(es, roomId).value.players| >= CAPACITY
             || Lookup(es, roomId).value.status != Waiting
    ensures AfterJoin(es, conn, roomId, username, pick) == Outcome(es, [Emit(Sender, Error(JOIN_REFUSED))])
  {
  }

  /**
   * An accepted join appends one record for the caller at the end of the
   * room's players and changes nothing else in the registry; the room then
   * holds at most CAPACITY players.
   */
  lemma JoinAppendsOnePlayer(es: seq<Entry>, conn: ConnId, roomId: string, username: string, pick: nat)
    requires CanJoin(es, roomId)
    ensures var before := Lookup(es, roomId).value;
      var o := AfterJoin(es, conn, roomId, username, pick);
      && Lookup(o.registry, roomId).Some?
      && var after := Lookup(o.registry, roomId).value;
      && |after.players| == |before.players| + 1 <= CAPACITY
      && after.players[..|before.players|] == before.players
      && after.players[|before.players|].id == conn
      && after.players[|before.players|].name == username
      && after == before.(players := after.players)
      && (forall k :: k != roomId ==> Lookup(o.registry, k) == Lookup(es, k))
      && Keys(o.registry) == Keys(es)
      && o.out == [Emit(RoomMembers(roomId), RoomUpdated(after)), Emit(Everyone, ServerList(o.registry))]
  {
    var before := Lookup(es, roomId).value;
    var after := Lookup(AfterJoin(es, conn, roomId, username, pick).registry, roomId).value;
    assert after.players[..|before.players|] == before.players;
  }

  /**
   * The joining player's colour is a palette colour and, while some palette
   * colour is free in the room, one no current player wears.
   */
  lemma JoinColor(es: seq<Entry>, conn: ConnId, roomId: string, username: string, pick: nat)
    requires CanJoin(es, roomId)
    ensures var before := Lookup(es, roomId).value;
      var after := Lookup(AfterJoin(es, conn, roomId, username, pick).registry, roomId).value;
      var c := after.players[|after.players| - 1].color;
      && c in PALETTE
      && ((exists u :: u in PALETTE && !ColorUsed(before.players, u)) ==>
            forall j :: 0 <= j < |before.players| ==> before.players[j].color != c)
  {
    var before := Lookup(es, roomId).value;
    var c := PickColor(before.players, pick);
    if exists u :: u in PALETTE && !ColorUsed(before.players, u) {
      assert !ColorUsed(before.players, c);
    }
  }

  lemma {:induction false} JoinKeepsRegistryOk(es: seq<Entry>, conn: ConnId, roomId: string, username: string, pick: nat)
    requires RegistryOk(es)
    ensures RegistryOk(AfterJoin(es, conn, roomId, username, pick).registry)
  {
    if CanJoin(es, roomId) {
      var j :| 0 <= j < |es| && es[j] == Entry(roomId, Lookup(es, roomId).value);
      assert RoomOk(roomId, Lookup(es, roomId).value);
      var room := Lookup(es, roomId).value;
      var room' := room.(players := room.players + [Player(conn, username, PickColor(room.players, pick))]);
      assert RoomOk(roomId, room');
      PutKeepsRegistryOk(es, roomId, room');
    }
  }

  // ---------------------------------------------------------------------
  // startGame
  // ---------------------------------------------------------------------

  /**
   * A start by the host of a room with at least two players sets that room's
   * status to playing and touches nothing else; any other start leaves the
   * registry as it was and sends nothing.
   */
  lemma StartPlaysExactlyWhenAllowed(es: seq<Entry>, conn: ConnId, roomId: string)
    ensures var o := AfterStart(es, conn, roomId);
      if CanStart(es, conn, roomId) then
        && Lookup(o.registry, roomId) == Some(Lookup(es, roomId).value.(status := Playing))
        && (forall k :: k != roomId ==> Lookup(o.registry, k) == Lookup(es, k))
        && Keys(o.registry) == Keys(es)
        && o.out == [Emit(RoomMembers(roomId), GameStarted(Lookup(o.registry, roomId).value)),
                     Emit(Everyone, ServerList(o.registry))]
      else
        o == Outcome(es, [])
  {
  }

  /** Storing a room under a key twice is storing it once. */
  lemma {:induction false} PutTwice(es: seq<Entry>, key: string, room: Room)
    ensures Put(Put(es, key, room), key, room) == Put(es, key, room)
  {
    var once := Put(es, key, room);
    match FindKey(es, key)
    case Some(i) =>
      FindKeyIs(once, key, i);
    case None =>
      FindKeyIs(once, key, |es|);
  }

  /** Starting a started room again changes nothing in the registry. */
  lemma {:induction false} StartTwice(es: seq<Entry>, conn: ConnId, roomId: string)
    requires CanStart(es, conn, roomId)
    ensures var once := AfterStart(es, conn, roomId).registry;
      AfterStart(once, conn, roomId).registry == once
  {
    var room' := Lookup(es, roomId).value.(status := Playing);
    var once := Put(es, roomId, room');
    assert Lookup(once, roomId) == Some(room');
    assert CanStart(once, conn, roomId);
    assert room'.(status := Playing) == room';
    PutTwice(es, roomId, room');
  }

  lemma {:induction false} StartKeepsRegistryOk(es: seq<Entry>, conn: ConnId, roomId: string)
    requires RegistryOk(es)
    ensures RegistryOk(AfterStart(es, conn, roomId).registry)
  {
    if CanStart(es, conn, roomId) {
      var j :| 0 <= j < |es| && es[j] == Entry(roomId, Lookup(es, roomId).value);
      assert RoomOk(roomId, Lookup(es, roomId).value);
      PutKeepsRegistryOk(es, roomId, Lookup(es, roomId).value.(status := Playing));
    }
  }

  // ---------------------------------------------------------------------
  // disconnect
  // ---------------------------------------------------------------------

  /** A connection held by no room disconnects without effect. */
  lemma DisconnectUnknownIsNoOp(es: seq<Entry>, conn: ConnId)
    requires forall j :: 0 <= j < |es| ==> !Holds(es[j].room, conn)
    ensures AfterDisconnect(es, conn) == Outcome(es, [])
  {
  }

  /**
   * A disconnect acts on the first room, in registry order, holding the
   * connection, and there on the first record with its id. That room is
   * deleted exactly when the record was its last or the connection is its
   * host; otherwise it keeps its key, position and status and loses exactly
   * that record. Every other entry is untouched.
   */
  lemma {:induction false} DisconnectActsOnFirstMatch(es: seq<Entry>, conn: ConnId, i: nat)
    requires i < |es| && Holds(es[i].room, conn)
    requires forall j :: 0 <= j < i ==> !Holds(es[j].room, conn)
    ensures var room := es[i].room;
      var p := PlayerIndex(room.players, conn).value;
      var o := AfterDisconnect(es, conn);
      && room.players[p].id == conn
      && (forall j :: 0 <= j < p ==> room.players[j].id != conn)
      && if |room.players| == 1 || room.hostId == conn then
           && o.registry == es[..i] + es[i + 1..]
           && o.out == [Emit(Everyone, ServerList(o.registry))]
         else
           && |o.registry| == |es|
           && (forall j :: 0 <= j < |es| && j != i ==> o.registry[j] == es[j])
           && o.registry[i].key == es[i].key
           && o.registry[i].room.status == room.status
           && o.registry[i].room.players == room.players[..p] + room.players[p + 1..]
           && |o.registry[i].room.players| == |room.players| - 1
           && o.out == [Emit(RoomMembers(es[i].key), RoomUpdated(o.registry[i].room)),
                        Emit(Everyone, ServerList(o.registry))]
  {
    FirstRoomWithIs(es, conn, i);
  }

  /** The first index whose room holds `conn` is what FirstRoomWith returns. */
  lemma FirstRoomWithIs(es: seq<Entry>, conn: ConnId, i: nat)
    requires i < |es| && Holds(es[i].room, conn)
    requires forall j :: 0 <= j < i ==> !Holds(es[j].room, conn)
    ensures FirstRoomWith(es, conn) == Some(i)
  {
  }

  /**
   * When the host's own room is the first room holding the host, the
   * host's disconnect deletes that room, however many players remain.
   */
  lemma {:induction false} DisconnectDeletesHostedRoom(es: seq<Entry>, conn: ConnId, i: nat)
    requires RegistryOk(es)
    requires i < |es| && es[i].room.hostId == conn
    requires forall j :: 0 <= j < i ==> !Holds(es[j].room, conn)
    ensures Lookup(AfterDisconnect(es, conn).registry, es[i].key) == None
    ensures forall k :: k != es[i].key ==> Lookup(AfterDisconnect(es, conn).registry, k) == Lookup(es, k)
  {
    assert RoomOk(es[i].key, es[i].room);
    assert Holds(es[i].room, conn) by {
      assert es[i].room.players[0].id == conn;
    }
    DisconnectActsOnFirstMatch(es, conn, i);
    assert AfterDisconnect(es, conn).registry == RemoveAt(es, i);
    RemoveKeepsRegistryOk(es, i);
  }

  /** With the invariant, the host of a surviving room is never the record removed: it is record 0. */
  lemma {:induction false} DisconnectKeepsRegistryOk(es: seq<Entry>, conn: ConnId)
    requires RegistryOk(es)
    ensures RegistryOk(AfterDisconnect(es, conn).registry)
  {
    match FirstRoomWith(es, conn)
    case None =>
    case Some(i) =>
      var room := es[i].room;
      var p := PlayerIndex(room.players, conn).value;
      var left := RemoveAt(room.players, p);
      assert RoomOk(es[i].key, room);
      if |left| == 0 || room.hostId == conn {
        RemoveKeepsRegistryOk(es, i);
      } else {
        assert p != 0;
        assert left[0] == room.players[0];
        var es' := es[i := Entry(es[i].key, room.(players := left))];
        assert RoomOk(es[i].key, room.(players := left)) by {
          forall j | 0 <= j < |left| ensures left[j].color in PALETTE {
            if j < p { assert left[j] == room.players[j]; } else { assert left[j] == room.players[j + 1]; }
          }
        }
        assert forall j :: 0 <= j < |es'| ==> es'[j].key == es[j].key;
      }
  }

  // ---------------------------------------------------------------------
  // Who writes 'playing'
  // ---------------------------------------------------------------------

  /** Every room that is playing after the step was already playing, under the same key, before it. */
  predicate NoNewPlaying(before: seq<Entry>, after: seq<Entry>) {
    forall j :: 0 <= j < |after| && after[j].room.status == Playing ==>
      Lookup(before, after[j].key).Some? && Lookup(before, after[j].key).value.status == Playing
  }

  /** Hosting never makes a room playing. */
  lemma {:induction false} HostWritesNoPlaying(es: seq<Entry>, conn: ConnId, username: string, pick: nat)
    requires RegistryOk(es)
    ensures NoNewPlaying(es, AfterHost(es, conn, username, pick).registry)
  {
    var h := AfterHost(es, conn, username, pick).registry;
    HostKeepsRegistryOk(es, conn, username, pick);
    forall j | 0 <= j < |h| && h[j].room.status == Playing
      ensures Lookup(es, h[j].key).Some? && Lookup(es, h[j].key).value.status == Playing
    {
      LookupAt(h, j);
    }
  }

  /** Joining never makes a room playing. */
  lemma {:induction false} JoinWritesNoPlaying(es: seq<Entry>, conn: ConnId, roomId: string, username: string, pick: nat)
    requires RegistryOk(es)
    ensures NoNewPlaying(es, AfterJoin(es, conn, roomId, username, pick).registry)
  {
    var jn := AfterJoin(es, conn, roomId, username, pick).registry;
    JoinKeepsRegistryOk(es, conn, roomId, username, pick);
    forall j | 0 <= j < |jn| && jn[j].room.status == Playing
      ensures Lookup(es, jn[j].key).Some? && Lookup(es, jn[j].key).value.status == Playing
    {
      LookupAt(jn, j);
    }
  }

  /** Disconnecting never makes a room playing. */
  lemma {:induction false} DisconnectWritesNoPlaying(es: seq<Entry>, conn: ConnId)
    requires RegistryOk(es)
    ensures NoNewPlaying(es, AfterDisconnect(es, conn).registry)
  {
    var d := AfterDisconnect(es, conn).registry;
    forall j | 0 <= j < |d| && d[j].room.status == Playing
      ensures Lookup(es, d[j].key).Some? && Lookup(es, d[j].key).value.status == Playing
    {
      match FirstRoomWith(es, conn)
      case None =>
        LookupAt(es, j);
      case Some(i) =>
        var room := es[i].room;
        var left := RemoveAt(room.players, PlayerIndex(room.players, conn).value);
        if |left| == 0 || room.hostId == conn {
          LookupAt(es, if j < i then j else j + 1);
        } else {
          LookupAt(es, j);
        }
    }
  }

  // ---------------------------------------------------------------------
  // One lifecycle, step by step
  // ---------------------------------------------------------------------

  /** In a registry of one room, its key finds it and storing under that key replaces it. */
  lemma PutOverSingle(key: string, room: Room, room': Room)
    ensures Lookup([Entry(key, room)], key) == Some(room)
    ensures Put([Entry(key, room)], key, room') == [Entry(key, room')]
  {
    FindKeyIs([Entry(key, room)], key, 0);
  }

  /** A host on an empty registry files its room as the only entry. */
  lemma {:induction false} HostOnEmpty(a: ConnId, username: string, pick: nat)
    ensures AfterHost([], a, username, pick).registry == [Entry(RoomKey(a), HostedRoom(a, username, pick))]
  {
    FindKeyAbsent([], RoomKey(a));
  }

  /** The second player of a room never gets the host's colour. */
  lemma {:induction false} SecondColorDiffers(host: Player, pick: nat)
    requires host.color in PALETTE
    ensures PickColor([host], pick) != host.color
  {
    var free := if host.color == PALETTE[0] then PALETTE[1] else PALETTE[0];
    assert free in PALETTE && !ColorUsed([host], free);
    assert ColorUsed([host], host.color) by {
      assert [host][0].color == host.color;
    }
  }

  /** A second connection joins the only room and gets a colour the host does not wear. */
  lemma {:induction false} WalkJoin(room: Room, b: ConnId, pickB: nat)
    requires room.id == "AAAAA" && |room.players| == 1 && room.status == Waiting
    requires room.players[0].color in PALETTE
    ensures var guest := Player(b, "bob", PickColor(room.players, pickB));
      && AfterJoin([Entry("AAAAA", room)], b, "AAAAA", "bob", pickB).registry
         == [Entry("AAAAA", room.(players := room.players + [guest]))]
      && guest.color != room.players[0].color
  {
    var guest := Player(b, "bob", PickColor(room.players, pickB));
    PutOverSingle("AAAAA", room, room.(players := room.players + [guest]));
    assert room.players == [room.players[0]];
    SecondColorDiffers(room.players[0], pickB);
  }

  /** The host starts its two-player room; the members are told it started. */
  lemma {:induction false} WalkStart(room: Room, a: ConnId)
    requires room.id == "AAAAA" && room.hostId == a && |room.players| == 2
    ensures var o := AfterStart([Entry("AAAAA", room)], a, "AAAAA");
      && o.registry == [Entry("AAAAA", room.(status := Playing))]
      && o.out[0] == Emit(RoomMembers("AAAAA"), GameStarted(room.(status := Playing)))
  {
    PutOverSingle("AAAAA", room, room.(status := Playing));
  }

  /** The guest leaves: the room stays, with the host alone and its status unchanged. */
  lemma {:induction false} WalkGuestLeaves(room: Room, b: ConnId)
    requires |room.players| == 2 && room.players[0].id != b && room.players[1].id == b
    requires room.hostId != b
    ensures AfterDisconnect([Entry("AAAAA", room)], b).registry
            == [Entry("AAAAA", room.(players := [room.players[0]]))]
  {
    assert PlayerIndex(room.players, b) == Some(1) by {
      assert PlayerIndex(room.players[1..], b) == Some(0);
    }
    FirstRoomWithIs([Entry("AAAAA", room)], b, 0);
    assert RemoveAt(room.players, 1) == [room.players[0]];
  }

  /** The host leaves: the room is gone and everyone is sent the empty listing. */
  lemma {:induction false} WalkHostLeaves(room: Room, a: ConnId)
    requires room.hostId == a && |room.players| == 1 && room.players[0].id == a
    ensures AfterDisconnect([Entry("AAAAA", room)], a) == Outcome([], [Emit(Everyone, ServerList([]))])
  {
    FirstRoomWithIs([Entry("AAAAA", room)], a, 0);
  }

  /**
   * The whole lifecycle: A hosts, B joins with a colour of its own, A starts
   * the game, B leaves and the room stays with A, A leaves and the registry
   * is empty again.
   */
  lemma {:induction false} Walkthrough(pickA: nat, pickB: nat)
    ensures var a, b := "AAAAAxyz", "BBBBBxyz";
      var hosted := AfterHost([], a, "alice", pickA).registry;
      var joined := AfterJoin(hosted, b, "AAAAA", "bob", pickB).registry;
      var started := AfterStart(joined, a, "AAAAA");
      var left := AfterDisconnect(started.registry, b).registry;
      && |joined| == 1 && |joined[0].room.players| == 2
      && joined[0].room.players[0].color != joined[0].room.players[1].color
      && started.registry == [Entry("AAAAA", joined[0].room.(status := Playing))]
      && started.out[0] == Emit(RoomMembers("AAAAA"), GameStarted(started.registry[0].room))
      && left == [Entry("AAAAA", started.registry[0].room.(players := [joined[0].room.players[0]]))]
      && AfterDisconnect(left, a) == Outcome([], [Emit(Everyone, ServerList([]))])
  {
    var a, b := "AAAAAxyz", "BBBBBxyz";
    var room := HostedRoom(a, "alice", pickA);
    assert RoomKey(a) == "AAAAA";
    HostOnEmpty(a, "alice", pickA);
    WalkJoin(room, b, pickB);
    var guest := Player(b, "bob", PickColor(room.players, pickB));
    var room2 := room.(players := room.players + [guest]);
    WalkStart(room2, a);
    var room3 := room2.(status := Playing);
    assert a != b;
    WalkGuestLeaves(room3, b);
    var room4 := room3.(players := [room3.players[0]]);
    WalkHostLeaves(room4, a);
  }

  /** Joining the first of two rooms replaces that room and keeps the second. */
  lemma {:induction false} JoinFirstOfTwo(kb: string, rb: Room, kx: string, rx: Room, x: ConnId, name: string, pick: nat)
    requires kb != kx
    requires |rb.players| < CAPACITY && rb.status == Waiting
    ensures AfterJoin([Entry(kb, rb), Entry(kx, rx)], x, kb, name, pick).registry
            == [Entry(kb, rb.(players := rb.players + [Player(x, name, PickColor(rb.players, pick))])), Entry(kx, rx)]
  {
    var es := [Entry(kb, rb), Entry(kx, rx)];
    FindKeyIs(es, kb, 0);
  }

  /** A player who is not the host and holds slot 1 of the first room leaves only that room. */
  lemma {:induction false} LeaveFirstOfTwo(kb: string, rb: Room, kx: string, rx: Room, x: ConnId)
    requires kb != kx
    requires |rb.players| == 2 && rb.players[0].id != x && rb.players[1].id == x && rb.hostId != x
    requires |rx.players| == 1 && rx.players[0].id == x
    ensures var left := AfterDisconnect([Entry(kb, rb), Entry(kx, rx)], x).registry;
      && Lookup(left, kx) == Some(rx)
      && Holds(rx, x)
  {
    var es := [Entry(kb, rb), Entry(kx, rx)];
    assert PlayerIndex(rb.players, x) == Some(1) by {
      assert PlayerIndex(rb.players[1..], x) == Some(0);
    }
    FirstRoomWithIs(es, x, 0);
    assert RemoveAt(rb.players, 1) == [rb.players[0]];
    var left := [Entry(kb, rb.(players := [rb.players[0]])), Entry(kx, rx)];
    assert AfterDisconnect(es, x).registry == left;
    FindKeyIs(left, kx, 1);
  }

  /** Two hosts on an empty registry file two rooms, in hosting order. */
  lemma {:induction false} HostTwoRooms(pB: nat, pX: nat)
    ensures AfterHost(AfterHost([], "BBBBBxyz", "bob", pB).registry, "XXXXXxyz", "xena", pX).registry
            == [Entry("BBBBB", HostedRoom("BBBBBxyz", "bob", pB)), Entry("XXXXX", HostedRoom("XXXXXxyz", "xena", pX))]
  {
    var b, x := "BBBBBxyz", "XXXXXxyz";
    assert RoomKey(b) == "BBBBB" && RoomKey(x) == "XXXXX";
    HostOnEmpty(b, "bob", pB);
    var one := [Entry("BBBBB", HostedRoom(b, "bob", pB))];
    FindKeyAbsent(one, "XXXXX");
  }

  /**
   * Nothing stops a host from also joining another room. When that room
   * comes earlier in the registry, the host's disconnect stops there, and
   * the host's own room stays listed with the departed connection as host
   * and as its first player.
   */
  lemma {:induction false} HostInEarlierRoomLeavesOwnRoom(pB: nat, pX: nat, pJ: nat)
    ensures var b, x := "BBBBBxyz", "XXXXXxyz";
      var two := AfterHost(AfterHost([], b, "bob", pB).registry, x, "xena", pX).registry;
      var joined := AfterJoin(two, x, "BBBBB", "xena", pJ).registry;
      var left := AfterDisconnect(joined, x).registry;
      && Lookup(left, "XXXXX").Some?
      && Lookup(left, "XXXXX").value.hostId == x
      && Holds(Lookup(left, "XXXXX").value, x)
  {
    var b, x := "BBBBBxyz", "XXXXXxyz";
    var rb, rx := HostedRoom(b, "bob", pB), HostedRoom(x, "xena", pX);
    HostTwoRooms(pB, pX);
    JoinFirstOfTwo("BBBBB", rb, "XXXXX", rx, x, "xena", pJ);
    var rb' := rb.(players := rb.players + [Player(x, "xena", PickColor(rb.players, pJ))]);
    assert b != x;
    LeaveFirstOfTwo("BBBBB", rb', "XXXXX", rx, x);
  }
}
