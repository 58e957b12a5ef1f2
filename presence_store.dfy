/**
 * The client's view of who is in the room (frontend/src/store/presenceSlice.ts):
 * the presence list the hub last broadcast and each peer's last cursor.
 */
module PresenceSlice {

  datatype PresenceUser = PresenceUser(userId: string, name: string, color: string)

  datatype CursorPosition = CursorPosition(userId: string, x: real, y: real)

  class PresenceStore {
    var users: seq<PresenceUser>
    var cursors: map<string, CursorPosition>

    constructor ()
      ensures users == [] && cursors == map[]
    {
      users := [];
      cursors := map[];
    }

    /** `setPresence`: the list is replaced wholesale; cursors of users who left stay. */
    method SetPresence(list: seq<PresenceUser>)
      modifies this
      ensures users == list && cursors == old(cursors)
    {
      users := list;
    }

    /** `updateCursor`: the entry for the cursor's user is set; every other entry is unchanged. */
    method UpdateCursor(cursor: CursorPosition)
      modifies this
      ensures cursors.Keys == old(cursors).Keys + {cursor.userId}
      ensures cursors[cursor.userId] == cursor
      ensures forall u :: u in old(cursors) && u != cursor.userId ==> cursors[u] == old(cursors)[u]
      ensures users == old(users)
    {
      cursors := cursors[cursor.userId := cursor];
    }

    /** `clearCursor`: exactly that key goes; nothing happens when it is absent. */
    method ClearCursor(userId: string)
      modifies this
      ensures cursors.Keys == old(cursors).Keys - {userId}
      ensures forall u :: u in cursors ==> cursors[u] == old(cursors)[u]
      ensures userId !in old(cursors) ==> cursors == old(cursors)
      ensures users == old(users)
    {
      cursors := cursors - {userId};
    }

    /** `resetPresence`: back to the initial state. */
    method ResetPresence()
      modifies this
      ensures users == [] && cursors == map[]
    {
      users := [];
      cursors := map[];
    }
  }
}
