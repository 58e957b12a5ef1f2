# Rocketium design editor: a verified model of its core

This project models, in Dafny, the decision logic of the Rocketium
collaborative design editor. The editor has an Express/Mongo backend with a
Socket.IO hub and a React/Redux frontend. The model covers:

- **The real-time collaboration hub** (`DesignHub`, `hub.dfy`). It keeps per-room presence lists with colours and
  per-room snapshots. The join, leave, disconnect, update, cursor and comment handlers are transitions on a hub
  state. Each emitted event goes to an outbox, and a `Hub` class mutates that state in place.
- **The canvas editing store** (`CanvasStore`, `canvas.dfy`). Its undo history is bounded at 20 snapshots; the redo stack only holds states undone from it and has no bound of its own.
  Every reducer is a function on `CanvasState`, and the `Canvas` class applies them in place. The element helpers
  live in `Elements` (`elements.dfy`).
- **The client caches** for comments, designs and presence (`CommentsSlice`, `DesignsSlice`, `PresenceSlice`).
  They share the keyed-list operations in `KeyedLists`.
- **Text processing.** This covers `@mention` extraction (`Mentions`), display-name normalisation and suffixes
  (`UserService`), avatar initials (`TopBar`) and origin-list parsing (`Env`).
- **Backend decision logic:**
  - register, login and unique display names (`UserService`);
  - session-capacity eviction (`SessionRepository`);
  - the owner backfill migration (`BackfillMigration`);
  - the design service over in-memory stores and an event log (`DesignService`);
  - the controller's guards and payload sanitisation (`DesignController`);
  - the request schemas (`Zod`, `DesignValidators`, `AuthValidators`);
  - bearer authentication (`Authenticate`);
  - error classification (`ErrorHandler`);
  - the frontend session hook's decisions (`CurrentUser`).

JavaScript semantics are spelled out where they matter:

- `%` truncates toward zero (`JsNumbers.JsRem`).
- `??` replaces only `null` and `undefined` (`Json.Coalesce`).
- `String.prototype.trim` strips ECMAScript whitespace (`Strings.Trim`).
- `length` counts UTF-16 code units, two for a character above U+FFFF (`Strings.JsLength`).
- Object spread is map override (`Elements.Overlay`).
- A `Map` keeps insertion order, so presence lists are sequences.

Calls into code that is not modelled become parameters:

- `jwt.verify`, `bcrypt`, `atob`, `JSON.parse`, zod's `.email()` and `.url()`;
- the session check and the Mongo regex match;
- `Date.now`, and the ids the database or `nanoid` hands out.

Shared modules: `Wrappers` (Option/Result), `Json` (JSON values, objects as maps), `Strings`, `Seqs`, `JsNumbers`
and `ApiErrors`.

Where the written description of the system and the code disagree, the model follows the code:

- The controller calls the service with an extra `user` argument. `listDesigns` is called as `(user, search)` but
  declared as `(search)`. The model uses the service's own parameters.
- The design schemas do not declare `ownerId` or `ownerName`, so zod strips them from a parsed payload
  (`DesignValidators.ParsedDesignShape`). The controller's owner sanitisation is still modelled over a payload
  that may carry them, as the controller is written.
- The access-request, approval and legacy-name-claim workflow is described for the system but implemented in no
  source file. Only the controller's response message is modelled.
- `SessionRepository` allows 5 active sessions, so eviction leaves 4 and the following create leaves 5.

## Model

| member | source | states |
|---|---|---|
| JsNumbers.JsRem | backend/src/services/UserService.ts:106 | JavaScript `%`: strictly between −b and b, equal to `a mod b` for a non-negative dividend and to `−((−a) mod b)` for a negative one |
| DesignHub.PickColor | backend/src/realtime/designHub.ts:23-29 | for every integer index, including negative ones, the colour is one of the 8 palette entries: the entry at the Euclidean index mod 8 |
| DesignHub.JsRemShift | backend/src/realtime/designHub.ts:26-27 | `((i % 8) + 8) % 8` with truncating `%` equals Euclidean `i mod 8` |
| DesignHub.Lookup | backend/src/realtime/designHub.ts:88-93 | `Map.get`: the entry with that userId if there is one, else none |
| DesignHub.Put | backend/src/realtime/designHub.ts:94 | `Map.set`: the user's entry becomes the new one, other users' entries are unchanged, and the room grows by one only for a new user |
| DesignHub.PutAppendsNew | backend/src/realtime/designHub.ts:94 | a new user's entry is appended after everyone already in the room |
| DesignHub.PutReplacesInPlace | backend/src/realtime/designHub.ts:94 | an existing user's entry is replaced at its own position, every other entry staying where it was |
| DesignHub.Delete | backend/src/realtime/designHub.ts:77 | `Map.delete`: other users' entries are unchanged, and the room shrinks by one iff the user was in it |
| DesignHub.DeleteAbsent | backend/src/realtime/designHub.ts:77 | deleting a user who is not in the room changes nothing |
| DesignHub.DeleteRemovesAt | backend/src/realtime/designHub.ts:77 | the user's entry is cut out at its position; the entries before and after keep their order |
| DesignHub.DeleteIsFilter | backend/src/realtime/designHub.ts:77 | in a room with one entry per user, delete keeps exactly the other users' entries, in order |
| DesignHub.PutKeepsUnique | backend/src/realtime/designHub.ts:94 | set keeps at most one presence entry per userId |
| DesignHub.DeleteKeepsUnique | backend/src/realtime/designHub.ts:77 | delete keeps at most one entry per userId and leaves none for that user |
| DesignHub.JoinKeepsColor | backend/src/realtime/designHub.ts:91-94 | a user already in the room keeps their colour on re-join; only the name changes and the room size is unchanged |
| DesignHub.JoinNewColor | backend/src/realtime/designHub.ts:91-94 | a new user gets `pickColor(users already present)`, a palette colour, and the room grows by one |
| DesignHub.JoinEmits | backend/src/realtime/designHub.ts:96-103 | join appends, in order, `joined{colour}` to the joiner, the presence list to the room, `user_joined` to the others, and `sync` to the joiner iff a snapshot exists |
| DesignHub.JoinDoesNotLeaveOtherRooms | backend/src/realtime/designHub.ts:88-89 | join overwrites the connection's room record but leaves the user's presence in any other room untouched |
| DesignHub.UpdateOverwrites | backend/src/realtime/designHub.ts:114-118 | update replaces the room's snapshot whatever the version or sender, leaves every other snapshot, presence and connection as it was, and relays `updated` to the room except the sender |
| DesignHub.UpdateWithoutMembers | backend/src/realtime/designHub.ts:114-118 | update needs no prior join: a snapshot can exist for a room with no members |
| DesignHub.RelaysChangeNothing | backend/src/realtime/designHub.ts:120-128 | cursor and comment relays leave presence, snapshots and memberships unchanged and go only to members other than the sender |
| DesignHub.DisconnectUnjoined | backend/src/realtime/designHub.ts:66-70 | leave/disconnect with no recorded room and user changes nothing and emits nothing |
| DesignHub.DisconnectRoomGone | backend/src/realtime/designHub.ts:72-75 | leave/disconnect when the room has no presence map changes nothing |
| DesignHub.DisconnectRemovesUser | backend/src/realtime/designHub.ts:77-82 | otherwise the room becomes `Map.delete` of the user on the old room (the others in their order), and the presence list is broadcast |
| DesignHub.LastLeaveClearsRoom | backend/src/realtime/designHub.ts:16-81 | when the room becomes empty its snapshot is deleted, and the broadcast re-creates an empty presence list |
| DesignHub.NoSyncAfterLastLeave | backend/src/realtime/designHub.ts:78-103 | after the last member leaves, the next joiner receives no `sync` |
| DesignHub.JoinPreservesValid | backend/src/realtime/designHub.ts:86-104 | join keeps at most one entry per (room, userId) and only palette colours |
| DesignHub.DisconnectPreservesValid | backend/src/realtime/designHub.ts:66-82 | leave/disconnect keeps that invariant |
| DesignHub.UpdateAndRelaysPreserveValid | backend/src/realtime/designHub.ts:114-128 | update and the relays keep that invariant |
| DesignHub.ColorsCanRepeat | backend/src/realtime/designHub.ts:91-93 | colours are not unique: after a leave, a joiner can receive a colour another member holds |
| DesignHub.OtherConnectionOfSameUserIsDropped | backend/src/realtime/designHub.ts:67-77 | a disconnect removes the user even while another connection of the same user is in the room |
| DesignHub.Hub.GetPresenceMap | backend/src/realtime/designHub.ts:16-21 | returns the room's list, creating an empty one when absent |
| DesignHub.Hub.ClearDesignSession | backend/src/realtime/designHub.ts:56-59 | removes the room's presence list and snapshot and nothing else |
| DesignHub.Hub.BroadcastPresenceTo | backend/src/realtime/designHub.ts:61-64 | emits the room's list to the room, creating it if needed |
| DesignHub.Hub.HandleDisconnect | backend/src/realtime/designHub.ts:66-82 | the in-place maps end as `Disconnect` of the old state |
| DesignHub.Hub.RegisterPresence | backend/src/realtime/designHub.ts:88-94 | records the connection's room and user and puts the joiner in the room with `JoinColor` |
| DesignHub.Hub.ChooseColor | backend/src/realtime/designHub.ts:92-93 | the joiner keeps the colour it holds in the room; a newcomer gets the palette entry at the room size modulo the palette length |
| DesignHub.Hub.OnJoin | backend/src/realtime/designHub.ts:86-104 | the in-place state ends as `Join` of the old state |
| DesignHub.Hub.OnLeave | backend/src/realtime/designHub.ts:106-112 | the in-place state ends as `Disconnect` of the old state |
| DesignHub.Hub.OnDisconnect | backend/src/realtime/designHub.ts:130 | the in-place state ends as `Disconnect` of the old state |
| DesignHub.Hub.OnUpdate | backend/src/realtime/designHub.ts:114-118 | the in-place state ends as `Update` of the old state |
| DesignHub.Hub.OnCursorUpdate | backend/src/realtime/designHub.ts:120-123 | only the outbox changes: one relay to the others |
| DesignHub.Hub.OnCommentCreated | backend/src/realtime/designHub.ts:125-128 | only the outbox changes: one relay to the others |
| Elements.MakeShapeDefaults | frontend/src/utils/elements.ts:5-12 | the base shape defaults under the overrides, always of type 'shape' |
| Elements.WithElementDefaults | frontend/src/utils/elements.ts:94-102 | keeps the raw id and every field the raw element supplies, and fills the rest from the type's defaults |
| Elements.ShapeDefaults | frontend/src/utils/elements.ts:99-101 | circles take the circle defaults; every other shape takes the rectangle defaults |
| Elements.ImageUrlFallback | frontend/src/utils/elements.ts:104-114 | an image's url is its own url, else the legacy `imageUrl`, else 'data:,' |
| Elements.CloneElements | frontend/src/utils/elements.ts:85-86 | a list of the same length whose elements equal the originals field by field |
| Elements.CloneElementsIdentity | frontend/src/tests/elements.test.ts:18-27 | the clone equals the list it copies |
| Elements.NormalizeZIndices | frontend/src/utils/elements.ts:88-89 | same length; element i has zIndex i and all its other fields unchanged |
| Elements.NormalizeZIndexed | frontend/src/utils/elements.ts:88-89 | a list whose zIndex already equals position is a fixed point |
| Elements.NormalizeIdempotent | frontend/src/utils/elements.ts:88-89 | normalising twice is normalising once |
| Elements.FindElementIndex | frontend/src/utils/elements.ts:91-92 | the first index whose id matches, or -1 iff none matches |
| Elements.DefaultsHaveNoId | frontend/src/utils/elements.ts:5-12 | none of the default objects carries an id |
| Elements.CreateTextElement | frontend/src/utils/elements.ts:117-122 | type is 'text' whatever the overrides say; the id is the fresh id; other overrides win over the defaults |
| Elements.CreateRectElement | frontend/src/utils/elements.ts:124-130 | type 'shape' and shapeType 'rect' are forced; other overrides win over the defaults |
| Elements.CreateCircleElement | frontend/src/utils/elements.ts:132-138 | type 'shape' and shapeType 'circle' are forced; other overrides win over the defaults |
| Elements.CreatedRectKeepsFields | frontend/src/utils/elements.ts:94-130 | running a created rectangle through `withElementDefaults` keeps every field it carries |
| CanvasStore.Move | frontend/src/store/canvasSlice.ts:176-178 | the two `splice` calls: the element lands at `to` and the others keep their relative order |
| CanvasStore.MoveIsPermutation | frontend/src/store/canvasSlice.ts:176-178 | a move keeps the same multiset of elements |
| CanvasStore.PushBounded | frontend/src/store/canvasSlice.ts:35-61 | push, then drop the oldest when over MAX_HISTORY = 20; the result ends with the new snapshot |
| CanvasStore.CommitHistorySpec | frontend/src/store/canvasSlice.ts:51-63 | commit skips the push when the normalised snapshot equals the last entry; every push empties the redo stack |
| CanvasStore.CommitNoAdjacentDuplicate | frontend/src/store/canvasSlice.ts:55-57 | a commit never pushes a snapshot equal to the previous one |
| CanvasStore.CommitKeepsInv | frontend/src/store/canvasSlice.ts:51-63 | commit keeps the invariant: snapshots normalised, history at most 20 entries |
| CanvasStore.AddKeepsInv | frontend/src/store/canvasSlice.ts:107-117 | addElement keeps the invariant |
| CanvasStore.UpdateKeepsInv | frontend/src/store/canvasSlice.ts:118-126 | updateElement keeps the invariant |
| CanvasStore.ReplaceKeepsInv | frontend/src/store/canvasSlice.ts:127-134 | replaceElements keeps the invariant |
| CanvasStore.RemoveKeepsInv | frontend/src/store/canvasSlice.ts:135-146 | removeElement keeps the invariant |
| CanvasStore.ReorderKeepsInv | frontend/src/store/canvasSlice.ts:147-183 | reorderElement keeps the invariant |
| CanvasStore.SetDesignKeepsInv | frontend/src/store/canvasSlice.ts:72-94 | setDesign keeps the invariant |
| CanvasStore.UndoKeepsInv | frontend/src/store/canvasSlice.ts:184-195 | undo keeps the invariant |
| CanvasStore.RedoKeepsInv | frontend/src/store/canvasSlice.ts:196-209 | redo keeps the invariant, dropping the oldest entry past 20 |
| CanvasStore.HistoryBounded | frontend/src/store/canvasSlice.ts:58-61 | after commit or redo the history has at most MAX_HISTORY entries |
| CanvasStore.AbsentIdIsNoOp | frontend/src/store/canvasSlice.ts:121-151 | update, remove and reorder leave the state unchanged when no element has the id |
| CanvasStore.LocalEditsBumpVersion | frontend/src/store/canvasSlice.ts:114-208 | each local edit, when it acts, increments version by exactly 1 and sets dirty |
| CanvasStore.RemoteUpdateTouchesOnlyElements | frontend/src/store/canvasSlice.ts:213-219 | applyRemoteUpdate sets the normalised elements and the received version; history, future and dirty are untouched |
| CanvasStore.FreshLoadZIndexed | frontend/src/store/canvasSlice.ts:85-86 | after a fresh load every element's zIndex equals its position |
| CanvasStore.ReplaceZIndexed | frontend/src/store/canvasSlice.ts:128-129 | the same after replaceElements |
| CanvasStore.RemoveZIndexed | frontend/src/store/canvasSlice.ts:139 | the same after removeElement, when the list was already indexed |
| CanvasStore.ReorderZIndexed | frontend/src/store/canvasSlice.ts:179 | the same after reorderElement, when the list was already indexed |
| CanvasStore.AddKeepsZIndexed | frontend/src/store/canvasSlice.ts:110 | the added element gets zIndex = old length, which keeps the property |
| CanvasStore.ZIndexedSnoc | frontend/src/store/canvasSlice.ts:108-112 | appending an element whose zIndex is the old length keeps zIndex equal to position throughout |
| CanvasStore.RemoveSelection | frontend/src/store/canvasSlice.ts:140-142 | removing the selected element clears the selection; removing another keeps it |
| CanvasStore.ReorderTarget | frontend/src/store/canvasSlice.ts:152-175 | there is no move exactly for forward/front on the last element or backward/back on the first; a move stays inside the list and changes the position |
| CanvasStore.ReorderListNoop | frontend/src/store/canvasSlice.ts:149-173 | the reordered list is absent (early return) when the id is missing or the move goes nowhere |
| CanvasStore.ReorderListMoves | frontend/src/store/canvasSlice.ts:149-179 | otherwise it is the input with the element moved from its index to the target, renumbered |
| CanvasStore.ReorderCommitsMove | frontend/src/store/canvasSlice.ts:176-183 | when the element moves, the committed state is the touched state with the renumbered moved list, committed to history |
| CanvasStore.ReorderAtEdgeIsNoop | frontend/src/store/canvasSlice.ts:155-171 | forward/front on the last element and backward/back on the first leave the whole state unchanged |
| CanvasStore.ReorderMoves | frontend/src/store/canvasSlice.ts:155-179 | forward, backward, front and back put the element at index+1, index-1, the end and the start, the others keeping their relative order |
| CanvasStore.UndoSpec | frontend/src/store/canvasSlice.ts:184-195 | undo is a no-op with at most one snapshot; otherwise the last snapshot goes to the front of future and the new last one is restored |
| CanvasStore.RedoSpec | frontend/src/store/canvasSlice.ts:196-209 | redo is a no-op on an empty future; otherwise it restores the front entry, drops it from future, and the history becomes the old history with that entry pushed and bounded to 20 |
| CanvasStore.UndoRedoRoundTrip | frontend/src/tests/canvasSlice.test.ts:45-59 | undo followed by redo restores the element list |
| CanvasStore.SetDesignCases | frontend/src/store/canvasSlice.ts:72-94 | the same id with version > 0 keeps elements, history and version; otherwise elements reset, history = [elements], future = [], version = 0; both clear selection and dirty |
| CanvasStore.AddRemoveHistory | frontend/src/tests/canvasSlice.test.ts:32-43 | loading, adding one element and removing it leaves three snapshots |
| CanvasStore.Canvas.CommitHistoryStep | frontend/src/store/canvasSlice.ts:51-63 | the in-place fields end as `CommitHistory` of the old state |
| CanvasStore.Canvas.SetLoadingStep | frontend/src/store/canvasSlice.ts:69-71 | only `loading` changes |
| CanvasStore.Canvas.SetDesignStep | frontend/src/store/canvasSlice.ts:72-94 | the fields end as `SetDesign` of the old state |
| CanvasStore.Canvas.LoadDesignStep | frontend/src/store/canvasSlice.ts:77-90 | for another design, or the same one without local edits, the fields end as `SetDesign`: prepared elements, one snapshot, no future, version 0 |
| CanvasStore.SetDesignLoads | frontend/src/store/canvasSlice.ts:77-90 | that state field by field, in terms of the prepared list and its snapshot |
| CanvasStore.Canvas.RefreshDesignStep | frontend/src/store/canvasSlice.ts:77-93 | for the loaded design after local edits, the fields end as `SetDesign`: list, future and version kept, history seeded only when empty |
| CanvasStore.Canvas.SetNameStep | frontend/src/store/canvasSlice.ts:95-98 | sets the name and marks dirty |
| CanvasStore.Canvas.SetDimensionsStep | frontend/src/store/canvasSlice.ts:99-103 | sets width and height and marks dirty |
| CanvasStore.Canvas.SelectElementStep | frontend/src/store/canvasSlice.ts:104-106 | only the selection changes |
| CanvasStore.Canvas.AddElementStep | frontend/src/store/canvasSlice.ts:107-117 | the fields end as `AddElement` of the old state |
| CanvasStore.Canvas.UpdateElementStep | frontend/src/store/canvasSlice.ts:118-126 | the fields end as `UpdateElement` of the old state |
| CanvasStore.Canvas.ReplaceElementsStep | frontend/src/store/canvasSlice.ts:127-134 | the fields end as `ReplaceElements` of the old state |
| CanvasStore.Canvas.RemoveElementStep | frontend/src/store/canvasSlice.ts:135-146 | the fields end as `RemoveElement` of the old state |
| CanvasStore.Canvas.TouchStep | frontend/src/store/canvasSlice.ts:181-182 | the fields end as `Touched` of the old state: dirty, version one higher |
| CanvasStore.Canvas.CommitEditStep | frontend/src/store/canvasSlice.ts:112-116 | installing an edited list and selection, then touching and committing, leaves `CommitHistory(Touched(...))` of the old state and keeps the history invariant |
| CanvasStore.Canvas.ReorderElementStep | frontend/src/store/canvasSlice.ts:147-183 | the fields end as `ReorderElement` of the old state |
| CanvasStore.Canvas.MoveElementStep | frontend/src/store/canvasSlice.ts:176-183 | when the element moves, the fields end as `ReorderElement` of the old state and the invariant holds |
| CanvasStore.Canvas.UndoStep | frontend/src/store/canvasSlice.ts:184-195 | the fields end as `Undo` of the old state |
| CanvasStore.Canvas.RedoStep | frontend/src/store/canvasSlice.ts:196-209 | the fields end as `Redo` of the old state |
| CanvasStore.Canvas.MarkSavedStep | frontend/src/store/canvasSlice.ts:210-212 | only dirty changes, to false |
| CanvasStore.Canvas.ApplyRemoteUpdateStep | frontend/src/store/canvasSlice.ts:213-219 | the fields end as `ApplyRemoteUpdate` of the old state |
| KeyedLists.IndexOfId | frontend/src/store/commentsSlice.ts:46 | the first index with that id, or -1 iff none |
| KeyedLists.AppendIfAbsent | frontend/src/store/commentsSlice.ts:40-43 | appends only when no item has the id; otherwise the list is unchanged |
| KeyedLists.ReplaceById | frontend/src/store/commentsSlice.ts:46-49 | replaces the first item with the id where it stands; length and other items unchanged; no-op when absent |
| KeyedLists.PrependOrReplace | frontend/src/store/designsSlice.ts:57-64 | replaces in place (same length) when present, else prepends (one more) |
| KeyedLists.RemoveById | frontend/src/store/designsSlice.ts:65-67 | removes every item with the id and keeps the rest |
| KeyedLists.AppendIfAbsentIdempotent | frontend/src/tests/commentsSlice.test.ts:23-30 | adding the same item twice equals adding it once |
| KeyedLists.AppendIfAbsentKeepsUnique | frontend/src/store/commentsSlice.ts:39-44 | append-if-absent keeps ids unique |
| KeyedLists.ReplaceByIdKeepsUnique | frontend/src/store/commentsSlice.ts:45-50 | replace keeps ids unique |
| KeyedLists.ReplaceByIdInPlace | frontend/src/store/commentsSlice.ts:45-50 | with unique ids the new record stands at the old one's index and the others are unchanged |
| KeyedLists.PrependOrReplaceKeepsUnique | frontend/src/store/designsSlice.ts:57-64 | the upsert keeps ids unique |
| KeyedLists.RemoveByIdKeepsOrder | frontend/src/store/designsSlice.ts:66 | filtering distributes over concatenation, so survivors keep their relative order |
| KeyedLists.RemoveByIdKeepsUnique | frontend/src/store/designsSlice.ts:65-67 | removal keeps ids unique and leaves no item with the id |
| KeyedLists.RemoveAbsentId | frontend/src/store/designsSlice.ts:65-67 | removing an absent id changes nothing |
| CommentsSlice.ReducersKeepUniqueIds | frontend/src/store/commentsSlice.ts:39-81 | the add, post and update reducers keep ids unique |
| CommentsSlice.AddTwiceThenUpdate | frontend/src/tests/commentsSlice.test.ts:23-38 | adding a comment twice leaves one entry, which a following update replaces |
| CommentsSlice.CommentsStore.AddCommentRealtime | frontend/src/store/commentsSlice.ts:39-44 | items end as append-if-absent of the old items; loading and error unchanged |
| CommentsSlice.CommentsStore.UpdateCommentRealtime | frontend/src/store/commentsSlice.ts:45-50 | items end as replace-by-id of the old items |
| CommentsSlice.CommentsStore.ResetComments | frontend/src/store/commentsSlice.ts:51-54 | items emptied, error cleared, loading untouched |
| CommentsSlice.CommentsStore.FetchPending | frontend/src/store/commentsSlice.ts:58-61 | loading set, error cleared |
| CommentsSlice.CommentsStore.FetchFulfilled | frontend/src/store/commentsSlice.ts:62-65 | loading cleared, items replaced wholesale |
| CommentsSlice.CommentsStore.FetchRejected | frontend/src/store/commentsSlice.ts:66-69 | loading cleared, the error message recorded |
| CommentsSlice.CommentsStore.PostFulfilled | frontend/src/store/commentsSlice.ts:70-75 | the same append-if-absent as the realtime path |
| CommentsSlice.CommentsStore.UpdateFulfilled | frontend/src/store/commentsSlice.ts:76-81 | the same replace-by-id as the realtime path |
| DesignsSlice.ReducersKeepUniqueIds | frontend/src/store/designsSlice.ts:57-67 | updateDesignMeta and deleteDesign keep ids unique |
| DesignsSlice.Unshift | frontend/src/store/designsSlice.ts:54-56 | `unshift`: the design first, the old items after it in order, and its id added to the ids |
| DesignsSlice.UnshiftKeepsUniqueIff | frontend/src/store/designsSlice.ts:54-56 | prepending keeps ids unique exactly when the new id is not listed yet |
| DesignsSlice.CreateTwiceDuplicates | frontend/src/store/designsSlice.ts:54-56 | createDesign has no duplicate check: unshifting the same record twice lists it twice |
| DesignsSlice.DesignsStore.FetchPending | frontend/src/store/designsSlice.ts:42-45 | loading set, error cleared |
| DesignsSlice.DesignsStore.FetchFulfilled | frontend/src/store/designsSlice.ts:46-49 | loading cleared, items replaced |
| DesignsSlice.DesignsStore.FetchRejected | frontend/src/store/designsSlice.ts:50-53 | loading cleared, error recorded |
| DesignsSlice.DesignsStore.CreateFulfilled | frontend/src/store/designsSlice.ts:54-56 | items end as `Unshift` of the old items |
| DesignsSlice.DesignsStore.UpdateMetaFulfilled | frontend/src/store/designsSlice.ts:57-64 | items end as the upsert of the old items |
| DesignsSlice.DesignsStore.DeleteFulfilled | frontend/src/store/designsSlice.ts:65-67 | items end as the old items without that id |
| PresenceSlice.PresenceStore.constructor | frontend/src/store/presenceSlice.ts:16-19 | empty users and empty cursors |
| PresenceSlice.PresenceStore.SetPresence | frontend/src/store/presenceSlice.ts:25-27 | users replaced wholesale; cursors untouched, so departed users' cursors stay |
| PresenceSlice.PresenceStore.UpdateCursor | frontend/src/store/presenceSlice.ts:28-30 | the entry for the cursor's user is set; every other entry is unchanged |
| PresenceSlice.PresenceStore.ClearCursor | frontend/src/store/presenceSlice.ts:31-33 | exactly that key goes; nothing happens when it is absent |
| PresenceSlice.PresenceStore.ResetPresence | frontend/src/store/presenceSlice.ts:34-36 | empty users and empty cursors |
| Mentions.Captures | backend/src/utils/mentions.ts:2-8 | the global regex's successive captures from a position: each a mention name |
| Mentions.Dedup | backend/src/utils/mentions.ts:3-14 | a `Set` filled in order: no duplicates and the same members |
| Mentions.ScanRun | backend/src/utils/mentions.ts:2 | the greedy `+`: the scan stops at `RunEnd`, the end of the maximal run of class characters |
| Mentions.CapturesAfterMatch | backend/src/utils/mentions.ts:7-8 | at a match the capture is non-empty and the search resumes where the run ends |
| Mentions.DedupSnoc | backend/src/utils/mentions.ts:10 | adding a name to the `Set` appends it when new and changes nothing when present |
| Mentions.ExtractMentions | backend/src/utils/mentions.ts:1-15 | the `exec` loop returns exactly the de-duplicated captures |
| Mentions.MentionsAreNames | backend/src/utils/mentions.ts:2-9 | every mention is non-empty and made only of `[a-zA-Z0-9._-]` characters |
| Mentions.MentionsAreTheDistinctCaptures | backend/src/utils/mentions.ts:3-14 | no duplicates, and a name is listed iff the regex captured it |
| Mentions.CapturesAreMaximal | backend/src/utils/mentions.ts:2-7 | each capture is a maximal run right after an '@' |
| Mentions.MentionsAreMaximal | backend/src/utils/mentions.ts:2-7 | every returned mention is such a maximal run in the message |
| Mentions.NoAtNoMentions | backend/src/tests/mentions.test.ts:11-13 | a message without '@' yields [] |
| Mentions.DedupKeepsFirstOccurrenceOrder | backend/src/utils/mentions.ts:10-14 | names are listed in order of their first occurrence |
| Mentions.MentionsInFirstOccurrenceOrder | backend/src/utils/mentions.ts:10-14 | the result is in first-occurrence order of the captures |
| Mentions.Examples | backend/src/tests/mentions.test.ts:6-13 | 'Hello @alex and @jordan, ping @alex again' yields ['alex','jordan']; text without mentions yields [] |
| Mentions.CaseSensitive | backend/src/utils/mentions.ts:2-3 | '@Alex @alex' yields both names |
| UserService.GenerateSuffix | backend/src/services/UserService.ts:105-109 | exactly 4 base-36 digits whose value is `abs(seed % 1000000)` |
| UserService.SuffixInjective | backend/src/services/UserService.ts:105-109 | distinct seeds below 1 000 000 give distinct suffixes |
| UserService.CollapseRuns | backend/src/services/UserService.ts:98 | each maximal run of non-alphanumerics becomes one '-' |
| UserService.StripDashes | backend/src/services/UserService.ts:98 | leading and trailing dashes removed |
| UserService.SanitizeCases | backend/src/services/UserService.ts:98-99 | sanitising keeps exactly the letters and digits, and is empty iff there are none |
| UserService.NormalizeNameCases | backend/src/services/UserService.ts:93-103 | a name with a letter or digit gives a lower-case slug over [a-z0-9-] with no edge or double dash, holding exactly its letters and digits lower-cased; any other gives the 'Designer-' fallback |
| UserService.NormalizedIsFallbackIff | backend/src/services/UserService.ts:93-103 | the result is the fallback iff the raw name has no letter or digit |
| UserService.NormalizeEmail | backend/src/services/UserService.ts:25-40 | trimmed then lower-cased: no edge whitespace and no upper-case ASCII |
| UserService.NormalizeEmailIdempotent | backend/src/services/UserService.ts:25-40 | normalising twice is normalising once |
| UserService.IsDisplayNameTaken | backend/src/services/UserService.ts:80-91 | taken only when some record holds the name, and exactly then when no excluded user is given |
| UserService.TakenIff | backend/src/services/UserService.ts:80-91 | a name in use counts as taken unless the excluded user holds it |
| UserService.Candidates | backend/src/services/UserService.ts:67-68 | 20 candidates: the base, then base-suffix(1) to base-suffix(19) |
| UserService.CandidatesDistinct | backend/src/services/UserService.ts:67-68 | the 20 candidates are pairwise distinct |
| UserService.FirstFreeFromSpec | backend/src/services/UserService.ts:67-77 | the loop returns the first untaken candidate, every earlier one being taken, or the fallback when all are taken |
| UserService.UniqueDisplayNameSpec | backend/src/services/UserService.ts:63-78 | generateUniqueDisplayName returns the first free candidate, or 'Designer-' plus the clock in base 36 |
| UserService.FreeBaseIsKept | backend/src/services/UserService.ts:64-84 | a normalised name nobody holds is returned unchanged |
| UserService.RegisterOutcome | backend/src/services/UserService.ts:24-37 | EMAIL_TAKEN iff the normalised email exists; otherwise a record with that email, the hash, the new id and the unique display name generated from `name ?? email` |
| UserService.RegisteredNameIsFree | backend/src/services/UserService.ts:31 | a new account's display name is held by no existing account, unless the clock fallback was used |
| UserService.LoginOutcome | backend/src/services/UserService.ts:39-52 | success iff the normalised email exists and the password matches; every failure is INVALID_CREDENTIALS |
| UserService.LoginFailuresIndistinguishable | backend/src/services/UserService.ts:41-49 | an unknown email and a wrong password give the identical error |
| UserService.Rename | backend/src/repositories/UserRepository.ts:30-36 | only the matching record's display name changes |
| UserService.UserService.GenerateUniqueDisplayName | backend/src/services/UserService.ts:63-78 | the loop returns `UniqueDisplayName` of the records |
| UserService.UserService.Register | backend/src/services/UserService.ts:24-37 | returns `RegisterOutcome` and appends the record only on success |
| UserService.UserService.Login | backend/src/services/UserService.ts:39-52 | returns `LoginOutcome` |
| UserService.UserService.UpdateDisplayName | backend/src/services/UserService.ts:54-61 | USER_NOT_FOUND with no change for an unknown id; otherwise renames to the unique display name excluding the user |
| SessionRepository.CountByUser | backend/src/repositories/SessionRepository.ts:10-12 | the number of that user's sessions, at most the list length |
| SessionRepository.OldestIndex | backend/src/repositories/SessionRepository.ts:14-16 | none iff the user has no session; else an index of theirs with minimal createdAt (on ties the earliest in the store, a modelling choice) |
| SessionRepository.DeleteById | backend/src/repositories/SessionRepository.ts:18-20 | removes the first session with that id: no match leaves the list unchanged, a match shortens it by exactly one, and nothing new appears |
| SessionRepository.DeleteByIdIsRemoveAt | backend/src/repositories/SessionRepository.ts:18-20 | with unique ids, deleting the id at index i removes index i |
| SessionRepository.CountRemoveAt | backend/src/repositories/SessionRepository.ts:11-19 | removing a session of the user drops their count by one, and others' counts are unchanged |
| SessionRepository.EvictOldestSpec | backend/src/repositories/SessionRepository.ts:43-49 | n evictions leave count − n sessions of the user, drawn from the old ones; other users' sessions are unchanged; each evicted session is no newer than any survivor |
| SessionRepository.BelowLimitKeepsAll | backend/src/repositories/SessionRepository.ts:3-41 | fewer than 5 sessions: nothing is deleted |
| SessionRepository.AtLimitLeavesFour | backend/src/repositories/SessionRepository.ts:42-49 | otherwise count − 5 + 1 are deleted, leaving 4 |
| SessionRepository.CapacityThenCreate | backend/src/services/SessionService.ts:32-34 | ensureCapacity then create leaves count + 1 sessions below the limit and exactly 5 at or above it |
| SessionRepository.SessionRepository.Create | backend/src/repositories/SessionRepository.ts:6-8 | appends the session |
| SessionRepository.SessionRepository.DeleteByIdStep | backend/src/repositories/SessionRepository.ts:18-20 | sessions end as `DeleteById` of the old list |
| SessionRepository.SessionRepository.EnsureCapacityStep | backend/src/repositories/SessionRepository.ts:37-50 | the loop's deletions end as `EnsureCapacity` of the old list, stopping early when no oldest session is found |
| BackfillMigration.Operations | backend/migrations/20251107200000_backfill_design_owner.js:15-28 | one update per selected design, in cursor order |
| BackfillMigration.Backfill | backend/migrations/20251107200000_backfill_design_owner.js:17-26 | ownerId becomes 'legacy-shared'; ownerName is kept unless null or absent, else 'Legacy Workspace'; other fields kept |
| BackfillMigration.Up | backend/migrations/20251107200000_backfill_design_owner.js:6-35 | selected designs are backfilled; all others unchanged |
| BackfillMigration.Unbackfill | backend/migrations/20251107200000_backfill_design_owner.js:40-47 | with ownerId 'legacy-shared', both owner keys are removed; other designs untouched |
| BackfillMigration.Down | backend/migrations/20251107200000_backfill_design_owner.js:37-50 | down applied to every design |
| BackfillMigration.OperationsApply | backend/migrations/20251107200000_backfill_design_owner.js:15-32 | applying the bulk-write operations gives `Up` |
| BackfillMigration.ApplyAllSnoc | backend/migrations/20251107200000_backfill_design_owner.js:30-32 | the bulk write applies its operations in queue order: one more operation is applied after the others |
| BackfillMigration.OperationsCount | backend/migrations/20251107200000_backfill_design_owner.js:9-32 | one operation per selected design |
| BackfillMigration.UpSelectsExactly | backend/migrations/20251107200000_backfill_design_owner.js:9-11 | up changes exactly the designs whose ownerId is missing, null or '' |
| BackfillMigration.NoneSelectedAfterUp | backend/migrations/20251107200000_backfill_design_owner.js:9-32 | after up nothing is selected, so a second up writes nothing |
| BackfillMigration.UpIdempotent | backend/migrations/20251107200000_backfill_design_owner.js:9-11 | up twice equals up once |
| BackfillMigration.DownAfterUp | backend/migrations/20251107200000_backfill_design_owner.js:20-45 | down after up removes both owner keys from every selected design |
| BackfillMigration.DownIsNotInverse | backend/migrations/20251107200000_backfill_design_owner.js:20-45 | a design with ownerId null and an ownerName ends with neither key |
| BackfillMigration.DesignCollection.MigrateUp | backend/migrations/20251107200000_backfill_design_owner.js:6-35 | the collection ends as `Up` of the old one; the number written is the number selected |
| BackfillMigration.DesignCollection.MigrateDown | backend/migrations/20251107200000_backfill_design_owner.js:37-50 | the collection ends as `Down` of the old one |
| DesignService.CommentsOf | backend/src/repositories/CommentRepository.ts:22-24 | exactly the comments of that design |
| DesignService.WithoutDesign | backend/src/repositories/CommentRepository.ts:34-40 | exactly the comments of other designs |
| DesignService.CommentIndex | backend/src/repositories/CommentRepository.ts:26-32 | the first comment with that id in that design, or -1 iff none |
| DesignService.StoredMentions | backend/src/services/DesignService.ts:79-100 | the supplied list when non-empty, else the mentions extracted from the message |
| DesignService.CreateDesign | backend/src/services/DesignService.ts:33-36 | stores and returns exactly the schema's declared fields of the payload, elements defaulting to [], with the assigned id as `id`; comments and events unchanged |
| DesignService.CreateDesignDropsUndeclared | backend/src/models/Design.ts:15-23 | a key the Design schema does not declare, such as the controller's ownerId or ownerName, is neither stored nor returned |
| DesignService.ListDesigns | backend/src/services/DesignService.ts:38-41 | every design without a search, else those whose name matches |
| DesignService.GetDesign | backend/src/services/DesignService.ts:43-49 | the design iff it exists, else DESIGN_NOT_FOUND |
| DesignService.UpdateDesign | backend/src/services/DesignService.ts:51-59 | DESIGN_NOT_FOUND with no change when absent; otherwise merges the payload, stamps updatedAt and publishes one DesignUpdated |
| DesignService.DeleteDesign | backend/src/services/DesignService.ts:61-71 | DESIGN_NOT_FOUND with no change when absent; otherwise removes the design and its comments, publishes one DesignDeleted and returns the id |
| DesignService.AddComment | backend/src/services/DesignService.ts:73-83 | DESIGN_NOT_FOUND before touching comments; otherwise appends one comment with the stored mentions and publishes CommentCreated |
| DesignService.ListComments | backend/src/services/DesignService.ts:85-92 | DESIGN_NOT_FOUND iff absent; otherwise exactly that design's comments |
| DesignService.UpdateComment | backend/src/services/DesignService.ts:94-109 | DESIGN_NOT_FOUND, then COMMENT_NOT_FOUND with nothing published; otherwise succeeds, merging the payload, the stored mentions and `updatedAt` into that comment in place, and publishes CommentUpdated |
| DesignService.WritesPublishOnSuccessOnly | backend/src/services/DesignService.ts:57-107 | each write publishes exactly one event on success and nothing on failure |
| DesignService.DeleteDesignCascades | backend/src/services/DesignService.ts:61-71 | after deleting, the design has no comments and every other design keeps its own |
| DesignService.AddThenList | backend/src/services/DesignService.ts:73-92 | a listing after adding a comment ends with that comment |
| DesignService.MentionsFallback | backend/src/services/DesignService.ts:79 | without supplied mentions the stored ones are the extracted names |
| DesignService.UpdateCommentScopedToDesign | backend/src/repositories/CommentRepository.ts:26-32 | a comment of another design cannot be updated through this design |
| DesignService.Service.CreateDesignCall | backend/src/services/DesignService.ts:33-36 | the stores end as `CreateDesign` of the old ones |
| DesignService.Service.UpdateDesignCall | backend/src/services/DesignService.ts:51-59 | the stores end as `UpdateDesign` of the old ones |
| DesignService.Service.DeleteDesignCall | backend/src/services/DesignService.ts:61-71 | the stores end as `DeleteDesign` of the old ones |
| DesignService.Service.AddCommentCall | backend/src/services/DesignService.ts:73-83 | the stores end as `AddComment` of the old ones |
| DesignService.Service.UpdateCommentCall | backend/src/services/DesignService.ts:94-109 | the stores end as `UpdateComment` of the old ones |
| DesignController.GuardMessage | backend/src/controllers/designController.ts:19-162 | every handler except updateDesign has an authentication guard message |
| DesignController.Guard | backend/src/controllers/designController.ts:19-22 | UNAUTHORIZED iff the handler is guarded and no user is present |
| DesignController.GuardedHandlers | backend/src/controllers/designController.ts:19-79 | without a user every handler but updateDesign fails with 401 |
| DesignController.CreateDesignPayload | backend/src/controllers/designController.ts:24-28 | ownerId is always the requester's id; ownerName is the payload's when present, else the requester's name; other fields kept |
| DesignController.UpdateDesignOwnerRule | backend/src/controllers/designController.ts:68-72 | a non-empty ownerId is dropped unless it equals the requester's id, and always without a user |
| DesignController.AuthorNameRule | backend/src/controllers/designController.ts:131 | authorName is the trimmed payload name if non-empty, else the requester's name, else 'Anonymous' |
| DesignController.BlankAuthorNameExample | backend/src/controllers/designController.ts:131 | a blank name falls back, and a padded name is kept untrimmed |
| DesignController.CreateCommentPayload | backend/src/controllers/designController.ts:129-135 | authorId forced to the requester's id and authorName by the fallback rule |
| DesignController.CommentAuthorIsRequester | backend/src/controllers/designController.ts:129-135 | the stored author id is the requester's whatever the payload says |
| DesignController.AccessResponseMessage | backend/src/controllers/designController.ts:119 | the message says 'approved' for approve and 'denied' for deny |
| Zod.Pick | backend/src/validators/designValidators.ts:47-76 | parsing keeps only the declared keys, with their values |
| DesignValidators.ParseElements | backend/src/validators/designValidators.ts:41-45 | accepted iff every element passes; the result is the parsed list |
| DesignValidators.ParseElement | backend/src/validators/designValidators.ts:41-45 | an accepted element is an object with a `type` tag, and the output keeps that tag |
| DesignValidators.ElementTagDecides | backend/src/validators/designValidators.ts:3-45 | an element is accepted iff it satisfies the schema its type selects: base fields plus text, image or shape constraints |
| DesignValidators.ParseElementIdempotent | backend/src/validators/designValidators.ts:41-45 | a parsed element parses to itself |
| DesignValidators.PickTwice | backend/src/validators/designValidators.ts:41-45 | stripping to a schema's keys twice is the same as once |
| DesignValidators.TextPicked | backend/src/validators/designValidators.ts:3-23 | a valid text element stripped to the text keys still satisfies the text schema and keeps its tag |
| DesignValidators.ImagePicked | backend/src/validators/designValidators.ts:3-30 | a valid image element stripped to the image keys still satisfies the image schema and keeps its tag |
| DesignValidators.ShapePicked | backend/src/validators/designValidators.ts:3-39 | a valid shape element stripped to the shape keys still satisfies the shape schema and keeps its tag |
| DesignValidators.CreateAcceptedImpliesUpdateAccepted | backend/src/validators/designValidators.ts:47-60 | a valid create payload is a valid update payload |
| DesignValidators.ParsedDesignShape | backend/src/validators/designValidators.ts:47-60 | a parsed design has elements (default []) and never ownerId or ownerName |
| DesignValidators.ParsedDesignHasNoOwner | backend/src/validators/designValidators.ts:47-53 | a parsed design carries neither ownerId nor ownerName |
| DesignValidators.ParsedDesignElements | backend/src/validators/designValidators.ts:47-53 | a parsed design has elements, `[]` when the request had none |
| DesignValidators.ParsedDesignSize | backend/src/validators/designValidators.ts:47-53 | a parsed design has a non-empty name and positive width and height |
| DesignValidators.ParsedCommentShape | backend/src/validators/designValidators.ts:62-76 | a parsed comment has non-empty authorName and message, and mentions default to [] |
| DesignValidators.DesignUpdateOutput | backend/src/validators/designValidators.ts:55-60 | an update keeps exactly the schema keys the request sent, copied as sent except the parsed elements; nothing is defaulted |
| DesignValidators.DesignCreateOutput | backend/src/validators/designValidators.ts:47-53 | a created design has name, width, height and elements, plus thumbnailUrl only when sent; all but elements are copied |
| DesignValidators.CreateIsUpdatePlusRequired | backend/src/validators/designValidators.ts:47-60 | create accepts iff update accepts and name, width and height are all present; the create output is the update output plus elements defaulted to [] |
| DesignValidators.CreateAcceptance | backend/src/validators/designValidators.ts:47-60 | create accepts iff update accepts and name, width and height are all present |
| DesignValidators.CreateElementsFromUpdate | backend/src/validators/designValidators.ts:47-60 | when both accept, create's elements are update's parsed elements, or [] when none were sent |
| DesignValidators.ParseCommentCreate | backend/src/validators/designValidators.ts:62-69 | the output has the declared keys the request sent plus mentions, each copied except the defaulted mentions |
| DesignValidators.ParseCommentUpdate | backend/src/validators/designValidators.ts:71-76 | the output is exactly the declared keys the request sent, copied unchanged |
| DesignValidators.CommentUpdateAcceptsIff | backend/src/validators/designValidators.ts:71-76 | accepted iff the message is a non-empty string, mentions (when sent) is a string array and x, y (when sent) are numbers |
| DesignValidators.CommentCreateIsUpdatePlusAuthor | backend/src/validators/designValidators.ts:62-76 | comment create accepts iff comment update accepts and authorName is a non-empty string and authorId, when sent, is a string |
| AuthValidators.ParseEmail | backend/src/validators/authValidators.ts:9-24 | trimmed then lower-cased, accepted iff the email check holds |
| AuthValidators.ParseName | backend/src/validators/authValidators.ts:11-20 | trimmed, accepted iff 1..64 UTF-16 code units |
| AuthValidators.ParseCreateSession | backend/src/validators/authValidators.ts:3-6 | name trimmed and non-empty; userId non-empty when given |
| AuthValidators.ParseRegister | backend/src/validators/authValidators.ts:8-12 | email normalised, a password of at least 8 UTF-16 code units, an optional name trimmed to 1..64 code units |
| AuthValidators.ParseLogin | backend/src/validators/authValidators.ts:14-17 | email normalised, password non-empty |
| AuthValidators.ParseProfileUpdate | backend/src/validators/authValidators.ts:19-21 | name trimmed to 1..64 UTF-16 code units |
| AuthValidators.ParseForgotPassword | backend/src/validators/authValidators.ts:23-25 | an optional email, normalised when present |
| AuthValidators.ParsedEmailIsNormalized | backend/src/validators/authValidators.ts:9 | a parsed email is unchanged by the service's normalisation |
| AuthValidators.ParsedNameIsTrimmed | backend/src/validators/authValidators.ts:20 | a parsed name has no edge whitespace |
| AuthValidators.AstralLengths | backend/src/validators/authValidators.ts:10-11 | for characters above U+FFFF a name may have at most 32 and a password needs only 4, since each counts two code units |
| Strings.JsLength | backend/src/validators/authValidators.ts:10-11 | `length` in UTF-16 code units: between the number of characters and twice it, equal to it when all are below U+10000 |
| AuthValidators.BlankNameRejected | backend/src/validators/authValidators.ts:4-20 | a whitespace-only name is rejected |
| Authenticate.BearerToken | backend/src/middleware/authenticate.ts:28-36 | a token iff the header starts with exactly 'Bearer ' and the trimmed remainder is non-empty; that remainder is the token |
| Authenticate.FailuresAreUnauthorized | backend/src/middleware/authenticate.ts:30-66 | every failure is code UNAUTHORIZED with status 401 |
| Authenticate.FailureChain | backend/src/middleware/authenticate.ts:28-47 | the message is 'Missing authentication token', then 'Invalid authentication token' for a throwing verify or missing sub/sid, then 'Session expired or revoked' |
| Authenticate.SuccessIff | backend/src/middleware/authenticate.ts:49-60 | success iff every check passes; id = sub, sessionId = sid, and name and email are copied only when given |
| Authenticate.HeaderExamples | backend/src/middleware/authenticate.ts:29-36 | 'Bearer  abc ' gives 'abc'; 'bearer abc' and 'Bearer    ' give no token |
| Authenticate.FailuresRespond401 | backend/src/middleware/errorHandler.ts:16-24 | each failure reaches the client as 401 UNAUTHORIZED with its message |
| Authenticate.Request.Run | backend/src/middleware/authenticate.ts:27-67 | next is called exactly once and only on success, when `user` is set; otherwise one ApiError is thrown |
| ErrorHandler.Handle | backend/src/middleware/errorHandler.ts:15-49 | an ApiError keeps its status, code, message and details; a ZodError gives 400 VALIDATION_ERROR with flattened details; anything else gives 500 INTERNAL_SERVER_ERROR with details iff NODE_ENV is not 'production' |
| ErrorHandler.ClassesAreDistinguishable | backend/src/middleware/errorHandler.ts:16-39 | the three classes give distinct codes |
| ErrorHandler.ProductionHidesInternals | backend/src/middleware/errorHandler.ts:40-46 | in production the 500 body carries no details |
| ErrorHandler.DevelopmentShowsInternals | backend/src/middleware/errorHandler.ts:40-46 | outside production it carries the name, message and stack |
| CurrentUser.ToStandardAlphabet | frontend/src/hooks/useCurrentUser.ts:24 | '-' becomes '+' and '_' becomes '/'; every other character is unchanged |
| CurrentUser.AlphabetRoundTrip | frontend/src/hooks/useCurrentUser.ts:24 | mapping a standard-alphabet string to the URL alphabet and back returns it |
| CurrentUser.PadBase64 | frontend/src/hooks/useCurrentUser.ts:25 | the length is the smallest multiple of 4 at least the input's; only '=' is appended |
| CurrentUser.DecodeToken | frontend/src/hooks/useCurrentUser.ts:36-47 | null for fewer than two '.'-parts or a throwing decode or parse; otherwise the parse of the padded second part |
| CurrentUser.ExpiryBoundary | frontend/src/hooks/useCurrentUser.ts:49-55 | with a non-zero exp, expired iff exp·1000 < now (not at equality); never expired when exp is absent or 0 |
| CurrentUser.ExpiredStaysExpired | frontend/src/hooks/useCurrentUser.ts:49-55 | an expired token stays expired at any later time |
| CurrentUser.LoadSessionSpec | frontend/src/hooks/useCurrentUser.ts:57-87 | failed decode, expiry or a missing sub or email gives null and removes the key; otherwise id = sub and name = token name ?? stored name ?? '' |
| CurrentUser.LoadedSessionHasSession | frontend/src/hooks/useCurrentUser.ts:75-81 | a loaded session satisfies hasSession |
| CurrentUser.NothingStored | frontend/src/hooks/useCurrentUser.ts:62-65 | nothing stored gives null and removes nothing |
| CurrentUser.UpdateNameCheck | frontend/src/hooks/useCurrentUser.ts:154-165 | a blank name fails first; success iff a session with an email exists; the trimmed name is sent |
| CurrentUser.UpdateNameNeedsSession | frontend/src/hooks/useCurrentUser.ts:156-165 | a name that passes the checks is non-empty and the session has an email |
| CurrentUser.SessionStorage.Load | frontend/src/hooks/useCurrentUser.ts:57-87 | returns `LoadSession`'s session and removes the stored key exactly when it says so |
| CurrentUser.SessionStorage.Persist | frontend/src/hooks/useCurrentUser.ts:89-98 | stores the serialised session, or removes the key for null |
| TopBar.InitialsFor | frontend/src/components/toolbar/TopBar.tsx:19-27 | '?' for a blank name; otherwise 1 or 2 characters, the first being the upper-cased first character of the trimmed name, with 2 iff it has a second word |
| TopBar.InitialsAreFirstLetters | frontend/src/components/toolbar/TopBar.tsx:22-26 | the initials are the upper-cased first letters of the first one or two words |
| TopBar.InitialsExamples | frontend/src/components/toolbar/TopBar.tsx:19-27 | ' ada king lovelace' gives 'AK' and '  ' gives '?' |
| TopBar.InitialsOfBlank | frontend/src/components/toolbar/TopBar.tsx:19-27 | a blank name gives '?' |
| TopBar.InitialsOfThreeWords | frontend/src/components/toolbar/TopBar.tsx:19-27 | ' ada king lovelace' gives 'AK': the first letters of the first two words, upper-cased |
| TopBar.ButtonsMatchReducers | frontend/src/components/toolbar/TopBar.tsx:37-38 | undo is enabled iff the undo reducer would change the state, and likewise for redo |
| TopBar.VisibleChips | frontend/src/components/toolbar/TopBar.tsx:144 | a prefix of the collaborators: all of them when there are at most 3, exactly the first 3 otherwise |
| TopBar.OverflowCount | frontend/src/components/toolbar/TopBar.tsx:154-157 | a '+N' chip with N = count − 3 iff there are more than 3 |
| TopBar.ChipsAccountForEveryone | frontend/src/components/toolbar/TopBar.tsx:142-158 | visible chips plus the overflow number equal the collaborator count |
| Env.RawClientUrls | backend/src/config/env.ts:5 | CLIENT_URLS if defined (even empty), else CLIENT_URL, else 'http://localhost:5173' |
| Env.TrimmedNonEmptySpec | backend/src/config/env.ts:7-10 | the entries are trimmed and non-empty, every non-blank piece appears trimmed, and nothing else appears |
| Env.TrimmedNonEmptyAppend | backend/src/config/env.ts:7-10 | map-trim-filter distributes over concatenation, so entries keep the pieces' order |
| Env.TrimmedAreClean | backend/src/config/env.ts:7-10 | every entry is non-empty and trimmed |
| Env.TrimmedKeepsNonBlank | backend/src/config/env.ts:7-10 | every piece that is not blank appears, trimmed |
| Env.TrimmedFromParts | backend/src/config/env.ts:7-10 | every entry is the trimmed form of some piece |
| Env.TrimKeepsAbsent | backend/src/config/env.ts:7-10 | trimming never introduces a character, so the separator stays absent from every entry |
| Env.ClientUrlsSpec | backend/src/config/env.ts:7-10 | every origin is trimmed, non-empty and comma-free, and each non-blank piece of the raw string is one of them |
| Env.ClientUrlsOfJoined | backend/src/config/env.ts:7-10 | the origins before the first comma come first, then those after it, so the list keeps the variable's order |
| Env.FewOrigins | backend/src/config/env.ts:5-10 | no comma gives at most one origin; a defined empty CLIENT_URLS gives none |
| Env.DecimalValue | backend/src/config/env.ts:14 | the decimal value of a digit run, never negative |
| Env.DigitsEnd | backend/src/config/env.ts:14 | the end of the longest digit run starting at i: every character before it is a digit, and the one at it is not |
| Env.ParseIntOfParts | backend/src/config/env.ts:14 | for white space, an optional sign, a non-empty digit run and a rest not starting with a digit, parseInt gives the run's decimal value, negated after "-" |
| Env.ParseIntNoDigits | backend/src/config/env.ts:14 | when no digit follows the white space and optional sign, parseInt gives NaN |
| Env.ParseIntAt | backend/src/config/env.ts:14 | once the first non-space, the sign and the digit run are located, parseInt gives the signed value of that run |
| Env.PartsLayout | backend/src/config/env.ts:14 | in a string built from those parts, parsing finds the white space, the sign and exactly the digit run |
| Env.SpacesThen | backend/src/config/env.ts:14 | white space followed by a non-space character is skipped up to exactly that character |
| Env.DigitRunThen | backend/src/config/env.ts:14 | a digit run followed by a non-digit ends exactly after the run |
| Env.PortOfDigits | backend/src/config/env.ts:14 | a PORT made only of digits gives the port with that decimal value |
| Env.DefaultPort | backend/src/config/env.ts:14 | with PORT unset the port is 4000 |
| Env.ParseIntExamples | backend/src/config/env.ts:14 | `parseInt(' 8080abc')` is 8080 and `parseInt('abc')` fails |

## Left out

- Socket.IO transport: room membership at the transport level, delivery and acknowledgements. Emits are recorded in
  an outbox with their recipients.
- Mongo persistence: repositories are in-memory maps and sequences. Timestamps and ObjectIds the database assigns
  are parameters. An id that is not a valid ObjectId is treated as absent.
- DesignService.ListDesigns: returns the set of matching ids and does not model the `updatedAt` sort. The regex match
  is a parameter.
- DesignService.CreateDesign: the `createdAt` and `updatedAt` timestamps Mongoose adds on creation are not modelled,
  nor are Mongoose's type casts and required-field validation; the payload is taken to have passed the create schema.
- DesignService.UpdateDesign: merges the payload as given; the strict schema's dropping of undeclared keys in `$set`
  is not modelled, since the update schema has already stripped them.
- Authenticate.FailuresRespond401: assumes the rejection of the async `authenticate` middleware reaches the error
  handler, as under Express 5; the Express version is not part of this model.
- SessionRepository.OldestIndex: the database does not fix an order among sessions with equal `createdAt`; the
  model picks the earliest in the store.
- DesignService.CommentsOf: does not model the `createdAt` sort of `listByDesign`; comments keep insertion order.
- Foreign and non-deterministic calls are parameters: bcrypt, `jwt.verify`, `atob`/`Buffer`, `JSON.parse`, zod's
  email and url checks, `Date.now`, `nanoid` and `randomUUID`.
- Authenticate.Request.Run: a `validateSession` that throws is folded into an invalid session.
- CurrentUser.LoadSession: the `typeof window === 'undefined'` branch is not modelled. The React state, effects and
  storage event listener of the hook are left out.
- Strings.ToLower: case mapping is ASCII only. JavaScript's full Unicode case mapping and UTF-16 `charAt` are not
  modelled. String lengths that the validators check are counted in UTF-16 code units.
- UserService.UniqueDisplayName: one `now` stands for both clock readings, the one `normalizeName` suffixes with and
  the one in the exhausted fallback, which the source takes separately; `GenerateUniqueDisplayName`, `Register` and
  `UpdateDisplayName` share this.
- TopBar.InitialsFor: splits on ECMAScript whitespace as `trim` defines it. For names outside ASCII, UTF-16
  surrogates and locale upper-casing are not modelled.
- The access-request workflow (request, approve, deny, access status) and legacy-name ownership claims are
  implemented in no source file. The approve/deny values of the response schema are assumed, since that schema is
  not part of this model.
- JSON key order is not modelled: objects are maps.
- Concurrency: overlapping requests and multi-process hub state; every handler is atomic.
- The compiled `backend/dist` copies, which have drifted from `src`, are not modelled.
- Thunks, HTTP services, routes, `SessionService` token signing, `uiSlice` and the React components are not part of
  this model.
