/**
 * The real-time collaboration hub (backend/src/realtime/designHub.ts).
 *
 * The hub keeps, process-wide, the presence list of every room (design id ->
 * the users in it, in insertion order as a JavaScript `Map` keeps them), the
 * latest `{patch, version}` broadcast to every room, and for each connection
 * the `(designId, userId)` pair it recorded on join. What the hub sends is
 * appended to an outbox as `(audience, event)` pairs; delivery is the
 * transport's business.
 *
 * `HubState` and the transition functions (`Join`, `Disconnect`, `Update`,
 * `CursorUpdate`, `CommentCreatedRelay`, `ClearSession`) specify each
 * handler; the class `Hub` holds the same state in fields and implements the
 * handlers step by step, as the source does.
 */
module DesignHub {
  import opened Wrappers
  import opened JsNumbers
  import Json
  import Seqs

  type ConnId = nat

  datatype Presence = Presence(userId: string, name: string, color: string)

  /** The latest edit broadcast to a room, replayed to later joiners. */
  datatype Snapshot = Snapshot(patch: Json.Value, version: int)

  /** What a connection records about itself when it joins (`socket.data`). */
  datatype Membership = Membership(designId: string, userId: string)

  /** Who receives an emitted event. */
  datatype Audience =
    | Sender(conn: ConnId)                              // socket.emit
    | Room(designId: string)                            // io.to(designId).emit
    | RoomExceptSender(designId: string, conn: ConnId)  // socket.to(designId).emit

  datatype Event =
    | Joined(designId: string, color: string)
    | PresenceList(designId: string, presence: seq<Presence>)
    | UserJoined(designId: string, userId: string, name: string, color: string)
    | Sync(designId: string, patch: Json.Value, version: int)
    | Updated(designId: string, userId: string, patch: Json.Value, version: int)
    | CursorUpdated(designId: string, userId: string, x: real, y: real)
    | CommentCreated(designId: string, comment: Json.Value)

  datatype Outgoing = Outgoing(to: Audience, event: Event)

  const COLORS: seq<string> :=
    ["#ff3b30", "#ff9500", "#ffcc00", "#34c759", "#5ac8fa", "#007aff", "#5856d6", "#ff2d55"]

  /** The colour `pickColor` falls back to when the palette lookup is `undefined`. */
  const FALLBACK_COLOR: string := "#34c759"

  /** `pickColor`: the palette entry at `index` modulo the palette size, for any integer index. */
  function PickColor(index: int): (color: string)
    ensures color in COLORS
    ensures color == COLORS[index % |COLORS|]
  {
    var n := |COLORS|;
    var safeIndex := JsRem(JsRem(index, n) + n, n);
    JsRemShift(index);
    if 0 <= safeIndex < n then COLORS[safeIndex] else FALLBACK_COLOR
  }

  /** `((i % 8) + 8) % 8` with JavaScript's `%` is the Euclidean `i % 8`. */
  lemma JsRemShift(i: int)
    ensures JsRem(JsRem(i, 8) + 8, 8) == i % 8
  {
    if i < 0 {
      var q := (-i) / 8;
      var r := (-i) % 8;
      assert -i == 8 * q + r;
      if r == 0 {
        assert i == 8 * (-q);
      } else {
        assert i == 8 * (-q - 1) + (8 - r);
      }
    }
  }

  // ---------------------------------------------------------------------
  // A room's presence list: a JavaScript Map keyed by userId, kept in
  // insertion order.

  /** `Map.get(userId)`. */
  function Lookup(ps: seq<Presence>, userId: string): (r: Option<Presence>)
    ensures r.Some? ==> r.value in ps && r.value.userId == userId
    ensures r.None? <==> forall i :: 0 <= i < |ps| ==> ps[i].userId != userId
  {
    if |ps| == 0 then None
    else if ps[0].userId == userId then Some(ps[0])
    else Lookup(ps[1..], userId)
  }

  /** No user appears twice in a room. */
  predicate UniqueUsers(ps: seq<Presence>) {
    forall i, j :: 0 <= i < j < |ps| ==> ps[i].userId != ps[j].userId
  }

  predicate AllInPalette(ps: seq<Presence>) {
    forall i :: 0 <= i < |ps| ==> ps[i].color in COLORS
  }

  /** `Map.set`: replaces the user's entry where it stands, or appends a new one. */
  function Put(ps: seq<Presence>, p: Presence): (r: seq<Presence>)
    ensures |r| == |ps| + (if Lookup(ps, p.userId).None? then 1 else 0)
    ensures Lookup(r, p.userId) == Some(p)
    ensures forall u :: u != p.userId ==> Lookup(r, u) == Lookup(ps, u)
    ensures forall i :: 0 <= i < |r| ==> r[i] == p || r[i] in ps
  {
    if |ps| == 0 then [p]
    else if ps[0].userId == p.userId then [p] + ps[1..]
    else [ps[0]] + Put(ps[1..], p)
  }

  /** `Map.delete`: removes the user's entry, keeping the others in order. */
  function Delete(ps: seq<Presence>, userId: string): (r: seq<Presence>)
    ensures |r| == |ps| - (if Lookup(ps, userId).Some? then 1 else 0)
    ensures forall u :: u != userId ==> Lookup(r, u) == Lookup(ps, u)
    ensures forall i :: 0 <= i < |r| ==> r[i] in ps
  {
    if |ps| == 0 then []
    else if ps[0].userId == userId then ps[1..]
    else [ps[0]] + Delete(ps[1..], userId)
  }

  /** Consing the head back onto a sequence's tail with something appended is appending to the sequence. */
  lemma ConsSnoc<T>(s: seq<T>, x: T)
    requires |s| > 0
    ensures [s[0]] + (s[1..] + [x]) == s + [x]
  {
    assert s == [s[0]] + s[1..];
  }

  /** A new user's entry goes at the end of the room, after everyone already there. */
  lemma {:induction false} PutAppendsNew(ps: seq<Presence>, p: Presence)
    requires Lookup(ps, p.userId).None?
    ensures Put(ps, p) == ps + [p]
  {
    if |ps| > 0 {
      PutStep(ps, p);
      PutAppendsNew(ps[1..], p);
      ConsSnoc(ps, p);
    }
  }

  /** One step of `Put` past a head that belongs to someone else. */
  lemma PutStep(ps: seq<Presence>, p: Presence)
    requires |ps| > 0 && Lookup(ps, p.userId).None?
    ensures Lookup(ps[1..], p.userId).None? && Put(ps, p) == [ps[0]] + Put(ps[1..], p)
  {
    assert ps[0].userId != p.userId;
  }

  /** An existing user's entry is replaced at its own position `k`; every other entry stays where it was. */
  lemma {:induction false} PutReplacesInPlace(ps: seq<Presence>, p: Presence, k: nat)
    requires k < |ps| && ps[k].userId == p.userId
    requires forall j :: 0 <= j < k ==> ps[j].userId != p.userId
    ensures Put(ps, p) == ps[..k] + [p] + ps[k + 1..]
  {
    if k > 0 {
      var tail := ps[1..];
      forall j | 0 <= j < k - 1 ensures tail[j].userId != p.userId {
        assert tail[j] == ps[j + 1];
      }
      PutReplacesInPlace(tail, p, k - 1);
      assert Put(ps, p) == [ps[0]] + Put(tail, p);
      SpliceCons(ps, [p], k);
    } else {
      assert ps[..0] == [];
    }
  }

  /** Re-attaching the head to a splice of the tail at `k - 1` is the splice of the whole at `k`. */
  lemma SpliceCons<T>(s: seq<T>, mid: seq<T>, k: nat)
    requires 0 < k < |s|
    ensures [s[0]] + (s[1..][..k - 1] + mid + s[1..][k..]) == s[..k] + mid + s[k + 1..]
  {
    assert s[1..][..k - 1] == s[1..k] && s[1..][k..] == s[k + 1..];
    assert [s[0]] + s[1..k] == s[..k];
  }

  /** Deleting a user who is not in the room changes nothing. */
  lemma {:induction false} DeleteAbsent(ps: seq<Presence>, userId: string)
    requires Lookup(ps, userId).None?
    ensures Delete(ps, userId) == ps
  {
    if |ps| > 0 {
      DeleteStep(ps, userId);
      DeleteAbsent(ps[1..], userId);
      assert ps == [ps[0]] + ps[1..];
    }
  }

  /** One step of `Delete` past a head that belongs to someone else. */
  lemma DeleteStep(ps: seq<Presence>, userId: string)
    requires |ps| > 0 && Lookup(ps, userId).None?
    ensures Lookup(ps[1..], userId).None? && Delete(ps, userId) == [ps[0]] + Delete(ps[1..], userId)
  {
    assert ps[0].userId != userId;
  }

  /** Deleting a user cuts out its entry at position `k`; the entries before and after keep their order. */
  lemma {:induction false} DeleteRemovesAt(ps: seq<Presence>, userId: string, k: nat)
    requires k < |ps| && ps[k].userId == userId
    requires forall j :: 0 <= j < k ==> ps[j].userId != userId
    ensures Delete(ps, userId) == ps[..k] + ps[k + 1..]
  {
    if k > 0 {
      var tail := ps[1..];
      forall j | 0 <= j < k - 1 ensures tail[j].userId != userId {
        assert tail[j] == ps[j + 1];
      }
      DeleteRemovesAt(tail, userId, k - 1);
      assert Delete(ps, userId) == [ps[0]] + Delete(tail, userId);
      SpliceCons(ps, [], k);
      assert ps[..k] + [] + ps[k + 1..] == ps[..k] + ps[k + 1..];
    } else {
      assert ps[..0] == [];
    }
  }

  /** Keeps every entry of a user other than `userId`. */
  function NotUser(userId: string): Presence -> bool {
    (q: Presence) => q.userId != userId
  }

  /** In a room with one entry per user, `Map.delete` keeps exactly the other users' entries, in order. */
  lemma {:induction false} DeleteIsFilter(ps: seq<Presence>, userId: string)
    requires UniqueUsers(ps)
    ensures Delete(ps, userId) == Seqs.Filter(ps, NotUser(userId))
  {
    if |ps| > 0 {
      var tail := ps[1..];
      assert UniqueUsers(tail) by {
        forall i, j | 0 <= i < j < |tail| ensures tail[i].userId != tail[j].userId {
          assert tail[i] == ps[i + 1] && tail[j] == ps[j + 1];
        }
      }
      if ps[0].userId == userId {
        forall i | 0 <= i < |tail| ensures NotUser(userId)(tail[i]) {
          assert tail[i] == ps[i + 1];
        }
        Seqs.FilterAll(tail, NotUser(userId));
      } else {
        DeleteIsFilter(tail, userId);
      }
    }
  }

  /** A list has unique users exactly when no user id appears after the first entry carrying it. */
  lemma {:induction false} UniqueUsersCons(x: Presence, rest: seq<Presence>)
    requires UniqueUsers(rest) && Lookup(rest, x.userId).None?
    ensures UniqueUsers([x] + rest)
  {
    var r := [x] + rest;
    forall i, j | 0 <= i < j < |r| ensures r[i].userId != r[j].userId {
      if i > 0 {
        assert r[i] == rest[i - 1] && r[j] == rest[j - 1];
      } else {
        assert r[j] == rest[j - 1];
      }
    }
  }

  /** `Map.set` keeps one entry per user. */
  lemma {:induction false} PutKeepsUnique(ps: seq<Presence>, p: Presence)
    requires UniqueUsers(ps)
    ensures UniqueUsers(Put(ps, p))
  {
    if |ps| > 0 {
      var tail := ps[1..];
      assert UniqueUsers(tail) by {
        forall i, j | 0 <= i < j < |tail| ensures tail[i].userId != tail[j].userId {
          assert tail[i] == ps[i + 1] && tail[j] == ps[j + 1];
        }
      }
      assert Lookup(tail, ps[0].userId).None? by {
        forall i | 0 <= i < |tail| ensures tail[i].userId != ps[0].userId {
          assert tail[i] == ps[i + 1];
        }
      }
      if ps[0].userId == p.userId {
        UniqueUsersCons(p, tail);
      } else {
        PutKeepsUnique(tail, p);
        UniqueUsersCons(ps[0], Put(tail, p));
      }
    }
  }

  /** `Map.delete` keeps one entry per user and leaves none for the deleted one. */
  lemma {:induction false} DeleteKeepsUnique(ps: seq<Presence>, userId: string)
    requires UniqueUsers(ps)
    ensures UniqueUsers(Delete(ps, userId)) && Lookup(Delete(ps, userId), userId).None?
  {
    if |ps| > 0 {
      var tail := ps[1..];
      assert UniqueUsers(tail) by {
        forall i, j | 0 <= i < j < |tail| ensures tail[i].userId != tail[j].userId {
          assert tail[i] == ps[i + 1] && tail[j] == ps[j + 1];
        }
      }
      assert Lookup(tail, ps[0].userId).None? by {
        forall i | 0 <= i < |tail| ensures tail[i].userId != ps[0].userId {
          assert tail[i] == ps[i + 1];
        }
      }
      if ps[0].userId != userId {
        DeleteKeepsUnique(tail, userId);
        UniqueUsersCons(ps[0], Delete(tail, userId));
      }
    }
  }

  lemma PutKeepsPalette(ps: seq<Presence>, p: Presence)
    requires AllInPalette(ps) && p.color in COLORS
    ensures AllInPalette(Put(ps, p))
  {
    var r := Put(ps, p);
    forall i | 0 <= i < |r| ensures r[i].color in COLORS {
      if r[i] != p {
        var k :| 0 <= k < |ps| && ps[k] == r[i];
      }
    }
  }

  lemma DeleteKeepsPalette(ps: seq<Presence>, userId: string)
    requires AllInPalette(ps)
    ensures AllInPalette(Delete(ps, userId))
  {
    var r := Delete(ps, userId);
    forall i | 0 <= i < |r| ensures r[i].color in COLORS {
      var k :| 0 <= k < |ps| && ps[k] == r[i];
    }
  }

  // ---------------------------------------------------------------------
  // The hub's state and the handlers as transitions on it.

  datatype HubState = HubState(
    presence: map<string, seq<Presence>>,
    snapshots: map<string, Snapshot>,
    connections: map<ConnId, Membership>,
    outbox: seq<Outgoing>)

  /** At most one entry per (room, userId), and every colour comes from the palette. */
  predicate Valid(s: HubState) {
    forall d :: d in s.presence ==> UniqueUsers(s.presence[d]) && AllInPalette(s.presence[d])
  }

  /** A second write to the same key hides the first. */
  lemma Overwrite<K, V>(m: map<K, V>, k: K, a: V, b: V)
    ensures m[k := a][k := b] == m[k := b]
  {
  }

  /** Writing back the value a key already holds changes nothing. */
  lemma SameValue<K, V>(m: map<K, V>, k: K)
    requires k in m
    ensures m[k := m[k]] == m
  {
  }

  function RoomOf(s: HubState, designId: string): seq<Presence> {
    if designId in s.presence then s.presence[designId] else []
  }

  /** The colour a joiner gets: the one it already holds in the room, else `pickColor(room size)`. */
  function JoinColor(ps: seq<Presence>, userId: string): string {
    match Lookup(ps, userId)
    case Some(p) => p.color
    case None => PickColor(|ps|)
  }

  /** `clearDesignSession`: forgets the room's presence list and its snapshot. */
  function ClearSession(s: HubState, designId: string): HubState {
    s.(presence := s.presence - {designId}, snapshots := s.snapshots - {designId})
  }

  /** `broadcastPresence`: sends the room's list to the room, creating an empty list if it has none. */
  function BroadcastPresence(s: HubState, designId: string): HubState {
    var ps := RoomOf(s, designId);
    s.(presence := s.presence[designId := ps],
       outbox := s.outbox + [Outgoing(Room(designId), PresenceList(designId, ps))])
  }

  /** The `design:join` handler. */
  function Join(s: HubState, conn: ConnId, designId: string, userId: string, name: string): HubState {
    var ps := RoomOf(s, designId);
    var color := JoinColor(ps, userId);
    var ps' := Put(ps, Presence(userId, name, color));
    var sync :=
      if designId in s.snapshots
      then [Outgoing(Sender(conn), Sync(designId, s.snapshots[designId].patch, s.snapshots[designId].version))]
      else [];
    s.(presence := s.presence[designId := ps'],
       connections := s.connections[conn := Membership(designId, userId)],
       outbox := s.outbox
         + [Outgoing(Sender(conn), Joined(designId, color)),
            Outgoing(Room(designId), PresenceList(designId, ps')),
            Outgoing(RoomExceptSender(designId, conn), UserJoined(designId, userId, name, color))]
         + sync)
  }

  /** `handleDisconnect`, which both `design:leave` and `disconnect` run. */
  function Disconnect(s: HubState, conn: ConnId): HubState {
    if conn !in s.connections || s.connections[conn].designId == "" || s.connections[conn].userId == "" then s
    else
      var m := s.connections[conn];
      if m.designId !in s.presence then s
      else
        var ps := Delete(s.presence[m.designId], m.userId);
        var s1 := s.(presence := s.presence[m.designId := ps]);
        var s2 := if |ps| == 0 then ClearSession(s1, m.designId) else s1;
        BroadcastPresence(s2, m.designId)
  }

  /** The `design:update` handler: overwrite the snapshot and relay to the others. */
  function Update(s: HubState, conn: ConnId, designId: string, userId: string, patch: Json.Value, version: int): HubState {
    s.(snapshots := s.snapshots[designId := Snapshot(patch, version)],
       outbox := s.outbox + [Outgoing(RoomExceptSender(designId, conn), Updated(designId, userId, patch, version))])
  }

  /** The `cursor:update` handler: relay only. */
  function CursorUpdate(s: HubState, conn: ConnId, designId: string, userId: string, x: real, y: real): HubState {
    s.(outbox := s.outbox + [Outgoing(RoomExceptSender(designId, conn), CursorUpdated(designId, userId, x, y))])
  }

  /** The `comment:created` handler: relay only. */
  function CommentCreatedRelay(s: HubState, conn: ConnId, designId: string, comment: Json.Value): HubState {
    s.(outbox := s.outbox + [Outgoing(RoomExceptSender(designId, conn), CommentCreated(designId, comment))])
  }

  // ---------------------------------------------------------------------
  // Properties of the handlers.

  /** A user already in the room keeps its colour on re-join; only the name is refreshed. */
  lemma JoinKeepsColor(s: HubState, conn: ConnId, designId: string, userId: string, name: string, old_: Presence)
    requires Lookup(RoomOf(s, designId), userId) == Some(old_)
    ensures Lookup(RoomOf(Join(s, conn, designId, userId, name), designId), userId)
            == Some(Presence(userId, name, old_.color))
    ensures |RoomOf(Join(s, conn, designId, userId, name), designId)| == |RoomOf(s, designId)|
  {
  }

  /** A new user gets `pickColor(number already present)`, always a palette colour, and the room grows by one. */
  lemma JoinNewColor(s: HubState, conn: ConnId, designId: string, userId: string, name: string)
    requires Lookup(RoomOf(s, designId), userId).None?
    ensures var c := PickColor(|RoomOf(s, designId)|);
            Lookup(RoomOf(Join(s, conn, designId, userId, name), designId), userId) == Some(Presence(userId, name, c))
            && c in COLORS
    ensures |RoomOf(Join(s, conn, designId, userId, name), designId)| == |RoomOf(s, designId)| + 1
  {
  }

  /** Join emits `joined` to the joiner, the list to the room, `user_joined` to the others, then `sync` iff a snapshot exists. */
  lemma JoinEmits(s: HubState, conn: ConnId, designId: string, userId: string, name: string)
    ensures var s' := Join(s, conn, designId, userId, name);
            var color := JoinColor(RoomOf(s, designId), userId);
            var sent := s'.outbox[|s.outbox|..];
            |s'.outbox| >= |s.outbox| + 3
            && s'.outbox[..|s.outbox|] == s.outbox
            && sent[0] == Outgoing(Sender(conn), Joined(designId, color))
            && sent[1] == Outgoing(Room(designId), PresenceList(designId, RoomOf(s', designId)))
            && sent[2] == Outgoing(RoomExceptSender(designId, conn), UserJoined(designId, userId, name, color))
            && (designId in s.snapshots <==> |sent| == 4)
            && (designId in s.snapshots ==>
                  sent[3] == Outgoing(Sender(conn), Sync(designId, s.snapshots[designId].patch, s.snapshots[designId].version)))
  {
  }

  /** Joining records the new room on the connection but leaves the user's presence in other rooms alone. */
  lemma JoinDoesNotLeaveOtherRooms(s: HubState, conn: ConnId, designId: string, userId: string, name: string, other: string)
    requires other != designId
    ensures var s' := Join(s, conn, designId, userId, name);
            s'.connections[conn] == Membership(designId, userId)
            && RoomOf(s', other) == RoomOf(s, other)
            && s'.snapshots == s.snapshots
  {
  }

  /** `update` overwrites the snapshot whatever its version and whoever sends it, and relays to the others only. */
  lemma UpdateOverwrites(s: HubState, conn: ConnId, designId: string, userId: string, patch: Json.Value, version: int)
    ensures var s' := Update(s, conn, designId, userId, patch, version);
            s'.snapshots[designId] == Snapshot(patch, version)
            && s'.snapshots == s.snapshots[designId := Snapshot(patch, version)]
            && s'.presence == s.presence && s'.connections == s.connections
            && s'.outbox == s.outbox + [Outgoing(RoomExceptSender(designId, conn), Updated(designId, userId, patch, version))]
  {
  }

  /** A snapshot can exist for a room with nobody in it: `update` needs no prior join. */
  lemma UpdateWithoutMembers(conn: ConnId, designId: string, userId: string, patch: Json.Value, version: int)
    ensures var s' := Update(HubState(map[], map[], map[], []), conn, designId, userId, patch, version);
            designId in s'.snapshots && RoomOf(s', designId) == []
  {
  }

  /** Cursor and comment relays change no hub state and never go back to the sender. */
  lemma RelaysChangeNothing(s: HubState, conn: ConnId, designId: string, userId: string, x: real, y: real, comment: Json.Value)
    ensures var s' := CursorUpdate(s, conn, designId, userId, x, y);
            s'.(outbox := s.outbox) == s
            && s'.outbox == s.outbox + [Outgoing(RoomExceptSender(designId, conn), CursorUpdated(designId, userId, x, y))]
    ensures var s' := CommentCreatedRelay(s, conn, designId, comment);
            s'.(outbox := s.outbox) == s
            && s'.outbox == s.outbox + [Outgoing(RoomExceptSender(designId, conn), CommentCreated(designId, comment))]
  {
  }

  /** Leave/disconnect does nothing at all when the connection has no recorded room and user. */
  lemma DisconnectUnjoined(s: HubState, conn: ConnId)
    requires conn !in s.connections || s.connections[conn].designId == "" || s.connections[conn].userId == ""
    ensures Disconnect(s, conn) == s
  {
  }

  /** Leave/disconnect does nothing at all when the recorded room has no presence list. */
  lemma DisconnectRoomGone(s: HubState, conn: ConnId)
    requires conn in s.connections && s.connections[conn].designId !in s.presence
    ensures Disconnect(s, conn) == s
  {
  }

  /**
   * Otherwise the recorded user leaves the room (even if another connection of
   * the same user is still there), the others stay, and the new list is
   * broadcast to the room.
   */
  lemma DisconnectRemovesUser(s: HubState, conn: ConnId)
    requires Valid(s)
    requires conn in s.connections
    requires s.connections[conn].designId != "" && s.connections[conn].userId != ""
    requires s.connections[conn].designId in s.presence
    ensures var m := s.connections[conn];
            var s' := Disconnect(s, conn);
            RoomOf(s', m.designId) == Delete(RoomOf(s, m.designId), m.userId)
            && Lookup(RoomOf(s', m.designId), m.userId).None?
            && (forall u :: u != m.userId ==> Lookup(RoomOf(s', m.designId), u) == Lookup(RoomOf(s, m.designId), u))
            && s'.outbox == s.outbox + [Outgoing(Room(m.designId), PresenceList(m.designId, RoomOf(s', m.designId)))]
            && s'.connections == s.connections
  {
    var m := s.connections[conn];
    DeleteKeepsUnique(s.presence[m.designId], m.userId);
  }

  /**
   * When the last member leaves, the snapshot is deleted; the presence list is
   * deleted too but `broadcastPresence` re-creates it empty.
   */
  lemma LastLeaveClearsRoom(s: HubState, conn: ConnId)
    requires conn in s.connections
    requires s.connections[conn].designId != "" && s.connections[conn].userId != ""
    requires s.connections[conn].designId in s.presence
    requires |Delete(s.presence[s.connections[conn].designId], s.connections[conn].userId)| == 0
    ensures var d := s.connections[conn].designId;
            var s' := Disconnect(s, conn);
            d !in s'.snapshots && d in s'.presence && s'.presence[d] == []
  {
  }

  /** After the last member of a room leaves, the next joiner receives no `sync`. */
  lemma NoSyncAfterLastLeave(s: HubState, conn: ConnId, conn2: ConnId, userId2: string, name2: string)
    requires conn in s.connections
    requires s.connections[conn].designId != "" && s.connections[conn].userId != ""
    requires s.connections[conn].designId in s.presence
    requires |Delete(s.presence[s.connections[conn].designId], s.connections[conn].userId)| == 0
    ensures var d := s.connections[conn].designId;
            var s1 := Disconnect(s, conn);
            var s2 := Join(s1, conn2, d, userId2, name2);
            |s2.outbox| == |s1.outbox| + 3
            && forall k :: |s1.outbox| <= k < |s2.outbox| ==> !s2.outbox[k].event.Sync?
  {
    var d := s.connections[conn].designId;
    LastLeaveClearsRoom(s, conn);
  }

  /** Every handler keeps at most one entry per (room, userId) and only palette colours. */
  lemma JoinPreservesValid(s: HubState, conn: ConnId, designId: string, userId: string, name: string)
    requires Valid(s)
    ensures Valid(Join(s, conn, designId, userId, name))
  {
    var ps := RoomOf(s, designId);
    var color := JoinColor(ps, userId);
    assert color in COLORS by {
      match Lookup(ps, userId)
      case Some(p) => {
        var i :| 0 <= i < |ps| && ps[i] == p;
      }
      case None => {}
    }
    PutKeepsUnique(ps, Presence(userId, name, color));
    PutKeepsPalette(ps, Presence(userId, name, color));
  }

  lemma DisconnectPreservesValid(s: HubState, conn: ConnId)
    requires Valid(s)
    ensures Valid(Disconnect(s, conn))
  {
    if conn in s.connections && s.connections[conn].designId in s.presence {
      var m := s.connections[conn];
      DeleteKeepsUnique(s.presence[m.designId], m.userId);
      DeleteKeepsPalette(s.presence[m.designId], m.userId);
    }
  }

  lemma UpdateAndRelaysPreserveValid(s: HubState, conn: ConnId, designId: string, userId: string,
                                      patch: Json.Value, version: int, x: real, y: real, comment: Json.Value)
    requires Valid(s)
    ensures Valid(Update(s, conn, designId, userId, patch, version))
    ensures Valid(CursorUpdate(s, conn, designId, userId, x, y))
    ensures Valid(CommentCreatedRelay(s, conn, designId, comment))
    ensures Valid(ClearSession(s, designId))
  {
  }

  /**
   * Colours are not unique: with `A` and `B` present, `A` leaving and `C`
   * joining gives `C` the colour for index 1, which `B` already holds.
   */
  lemma ColorsCanRepeat()
    ensures var s0 := HubState(map[], map[], map[], []);
            var s1 := Join(s0, 1, "d", "A", "A");
            var s2 := Join(s1, 2, "d", "B", "B");
            var s3 := Disconnect(s2, 1);
            var s4 := Join(s3, 3, "d", "C", "C");
            Lookup(RoomOf(s4, "d"), "B").Some? && Lookup(RoomOf(s4, "d"), "C").Some?
            && Lookup(RoomOf(s4, "d"), "B").value.color == Lookup(RoomOf(s4, "d"), "C").value.color
  {
    var s0 := HubState(map[], map[], map[], []);
    var s1 := Join(s0, 1, "d", "A", "A");
    RepeatFirstJoin(s1);
    var s2 := Join(s1, 2, "d", "B", "B");
    RepeatSecondJoin(s1, s2);
    var s3 := Disconnect(s2, 1);
    RepeatDisconnect(s2, s3);
    var s4 := Join(s3, 3, "d", "C", "C");
    RepeatThirdJoin(s3, s4);
  }

  lemma RepeatFirstJoin(s1: HubState)
    requires s1 == Join(HubState(map[], map[], map[], []), 1, "d", "A", "A")
    ensures RoomOf(s1, "d") == [Presence("A", "A", PickColor(0))]
    ensures s1.connections == map[1 := Membership("d", "A")]
  {
  }

  lemma RepeatSecondJoin(s1: HubState, s2: HubState)
    requires RoomOf(s1, "d") == [Presence("A", "A", PickColor(0))]
    requires s1.connections == map[1 := Membership("d", "A")]
    requires s2 == Join(s1, 2, "d", "B", "B")
    ensures RoomOf(s2, "d") == [Presence("A", "A", PickColor(0)), Presence("B", "B", PickColor(1))]
    ensures s2.connections == map[1 := Membership("d", "A"), 2 := Membership("d", "B")]
  {
  }

  lemma RepeatDisconnect(s2: HubState, s3: HubState)
    requires RoomOf(s2, "d") == [Presence("A", "A", PickColor(0)), Presence("B", "B", PickColor(1))]
    requires s2.connections == map[1 := Membership("d", "A"), 2 := Membership("d", "B")]
    requires s3 == Disconnect(s2, 1)
    ensures RoomOf(s3, "d") == [Presence("B", "B", PickColor(1))]
  {
  }

  lemma RepeatThirdJoin(s3: HubState, s4: HubState)
    requires RoomOf(s3, "d") == [Presence("B", "B", PickColor(1))]
    requires s4 == Join(s3, 3, "d", "C", "C")
    ensures RoomOf(s4, "d") == [Presence("B", "B", PickColor(1)), Presence("C", "C", PickColor(1))]
  {
  }

  /** Removing a user drops them even when another connection of that user is still in the room. */
  lemma OtherConnectionOfSameUserIsDropped(s: HubState, c1: ConnId, c2: ConnId, designId: string, userId: string)
    requires Valid(s)
    requires c1 != c2 && designId != "" && userId != ""
    requires c1 in s.connections && s.connections[c1] == Membership(designId, userId)
    requires c2 in s.connections && s.connections[c2] == Membership(designId, userId)
    requires designId in s.presence && Lookup(s.presence[designId], userId).Some?
    ensures var s' := Disconnect(s, c1);
            Lookup(RoomOf(s', designId), userId).None? && s'.connections[c2] == Membership(designId, userId)
  {
    DisconnectRemovesUser(s, c1);
  }

  /** The state `Join` produces, field by field. */
  lemma JoinUnfold(s: HubState, conn: ConnId, designId: string, userId: string, name: string, t: HubState)
    requires var ps := RoomOf(s, designId);
             var color := JoinColor(ps, userId);
             var ps' := Put(ps, Presence(userId, name, color));
             t.presence == s.presence[designId := ps']
             && t.connections == s.connections[conn := Membership(designId, userId)]
             && t.snapshots == s.snapshots
             && t.outbox == s.outbox
                  + [Outgoing(Sender(conn), Joined(designId, color)),
                     Outgoing(Room(designId), PresenceList(designId, ps')),
                     Outgoing(RoomExceptSender(designId, conn), UserJoined(designId, userId, name, color))]
                  + (if designId in s.snapshots
                     then [Outgoing(Sender(conn), Sync(designId, s.snapshots[designId].patch, s.snapshots[designId].version))]
                     else [])
    ensures t == Join(s, conn, designId, userId, name)
  {
  }

  // ---------------------------------------------------------------------
  // The hub as the source holds it: process-wide maps mutated in place.

  class Hub {
    var presenceByDesign: map<string, seq<Presence>>
    var latestSnapshotByDesign: map<string, Snapshot>
    var connections: map<ConnId, Membership>
    var outbox: seq<Outgoing>

    function State(): HubState
      reads this
    {
      HubState(presenceByDesign, latestSnapshotByDesign, connections, outbox)
    }

    constructor ()
      ensures State() == HubState(map[], map[], map[], [])
      ensures Valid(State())
    {
      presenceByDesign := map[];
      latestSnapshotByDesign := map[];
      connections := map[];
      outbox := [];
    }

    /** `getPresenceMap`: the room's list, created empty if the room has none. */
    method GetPresenceMap(designId: string) returns (ps: seq<Presence>)
      modifies this
      ensures ps == RoomOf(old(State()), designId)
      ensures State() == old(State()).(presence := old(presenceByDesign)[designId := ps])
    {
      if designId !in presenceByDesign {
        presenceByDesign := presenceByDesign[designId := []];
      }
      ps := presenceByDesign[designId];
    }

    method ClearDesignSession(designId: string)
      modifies this
      ensures State() == ClearSession(old(State()), designId)
    {
      presenceByDesign := presenceByDesign - {designId};
      latestSnapshotByDesign := latestSnapshotByDesign - {designId};
    }

    method BroadcastPresenceTo(designId: string)
      modifies this
      ensures State() == BroadcastPresence(old(State()), designId)
    {
      var ps := GetPresenceMap(designId);
      outbox := outbox + [Outgoing(Room(designId), PresenceList(designId, ps))];
    }

    method HandleDisconnect(conn: ConnId)
      requires Valid(State())
      modifies this
      ensures State() == Disconnect(old(State()), conn)
      ensures Valid(State())
    {
      DisconnectPreservesValid(State(), conn);
      if conn !in connections || connections[conn].designId == "" || connections[conn].userId == "" {
        return;
      }
      var m := connections[conn];
      if m.designId !in presenceByDesign {
        return;
      }
      var ps := Delete(presenceByDesign[m.designId], m.userId);
      presenceByDesign := presenceByDesign[m.designId := ps];
      if |ps| == 0 {
        ClearDesignSession(m.designId);
      }
      BroadcastPresenceTo(m.designId);
    }

    /** The first half of `design:join`: record the membership and put the joiner in the room's list. */
    method RegisterPresence(conn: ConnId, designId: string, userId: string, name: string)
      returns (color: string, presence: seq<Presence>)
      modifies this
      ensures color == JoinColor(RoomOf(old(State()), designId), userId)
      ensures presence == Put(RoomOf(old(State()), designId), Presence(userId, name, color))
      ensures State() == old(State()).(presence := old(presenceByDesign)[designId := presence],
                                       connections := old(connections)[conn := Membership(designId, userId)])
    {
      ghost var s0 := State();
      connections := connections[conn := Membership(designId, userId)];
      var room := GetPresenceMap(designId);
      assert room == RoomOf(s0, designId);
      color := ChooseColor(room, userId);
      presence := Put(room, Presence(userId, name, color));
      presenceByDesign := presenceByDesign[designId := presence];
      Overwrite(s0.presence, designId, room, presence);
    }

    /** The joiner keeps the colour it already holds in the room, else gets `pickColor(room size)`. */
    method ChooseColor(room: seq<Presence>, userId: string) returns (color: string)
      ensures color == JoinColor(room, userId)
      ensures Lookup(room, userId).None? ==> color == COLORS[|room| % |COLORS|]
    {
      var existing := Lookup(room, userId);
      color := if existing.Some? then existing.value.color else PickColor(|room|);
    }

    method OnJoin(conn: ConnId, designId: string, userId: string, name: string)
      requires Valid(State())
      modifies this
      ensures State() == Join(old(State()), conn, designId, userId, name)
      ensures Valid(State())
    {
      ghost var s0 := State();
      JoinPreservesValid(s0, conn, designId, userId, name);
      var color, presence := RegisterPresence(conn, designId, userId, name);
      ghost var registered := presenceByDesign;
      var joined := Outgoing(Sender(conn), Joined(designId, color));
      var list := Outgoing(Room(designId), PresenceList(designId, presence));
      var others := Outgoing(RoomExceptSender(designId, conn), UserJoined(designId, userId, name, color));
      outbox := outbox + [joined];
      BroadcastPresenceTo(designId);
      SameValue(registered, designId);
      outbox := outbox + [others];
      assert outbox == s0.outbox + [joined, list, others];
      if designId in latestSnapshotByDesign {
        var snapshot := latestSnapshotByDesign[designId];
        outbox := outbox + [Outgoing(Sender(conn), Sync(designId, snapshot.patch, snapshot.version))];
      }
      JoinUnfold(s0, conn, designId, userId, name, State());
    }

    /** `design:leave`: the transport-level room leave is not modelled; the rest is `handleDisconnect`. */
    method OnLeave(conn: ConnId)
      requires Valid(State())
      modifies this
      ensures State() == Disconnect(old(State()), conn)
      ensures Valid(State())
    {
      HandleDisconnect(conn);
    }

    method OnDisconnect(conn: ConnId)
      requires Valid(State())
      modifies this
      ensures State() == Disconnect(old(State()), conn)
      ensures Valid(State())
    {
      HandleDisconnect(conn);
    }

    method OnUpdate(conn: ConnId, designId: string, userId: string, patch: Json.Value, version: int)
      requires Valid(State())
      modifies this
      ensures State() == Update(old(State()), conn, designId, userId, patch, version)
      ensures Valid(State())
    {
      latestSnapshotByDesign := latestSnapshotByDesign[designId := Snapshot(patch, version)];
      outbox := outbox + [Outgoing(RoomExceptSender(designId, conn), Updated(designId, userId, patch, version))];
    }

    method OnCursorUpdate(conn: ConnId, designId: string, userId: string, x: real, y: real)
      requires Valid(State())
      modifies this
      ensures State() == CursorUpdate(old(State()), conn, designId, userId, x, y)
      ensures Valid(State())
    {
      outbox := outbox + [Outgoing(RoomExceptSender(designId, conn), CursorUpdated(designId, userId, x, y))];
    }

    method OnCommentCreated(conn: ConnId, designId: string, comment: Json.Value)
      requires Valid(State())
      modifies this
      ensures State() == CommentCreatedRelay(old(State()), conn, designId, comment)
      ensures Valid(State())
    {
      outbox := outbox + [Outgoing(RoomExceptSender(designId, conn), CommentCreated(designId, comment))];
    }
  }
}
