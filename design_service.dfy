/**
 * The design service (backend/src/services/DesignService.ts): design and
 * comment operations over the two repositories, publishing one real-time
 * event after each successful write.
 *
 * The repositories are in-memory stores: designs by id, comments in creation
 * order (the order `listByDesign` sorts by). The event publisher is an
 * append-only log. Fresh ids and the clock are parameters.
 */
module DesignService {
  import opened Wrappers
  import opened Json
  import opened ApiErrors
  import M = Mentions

  const DESIGN_NOT_FOUND := Plain(NOT_FOUND, "DESIGN_NOT_FOUND", "Design not found")
  const COMMENT_NOT_FOUND := Plain(NOT_FOUND, "COMMENT_NOT_FOUND", "Comment not found")

  datatype Comment = Comment(id: string, designId: string, fields: Object)

  /** The four `IDesignEventPublisher` notifications. */
  datatype Event =
    | DesignUpdated(designId: string, design: Object)
    | DesignDeleted(deletedId: string)
    | CommentCreated(created: Comment)
    | CommentUpdated(updated: Comment)

  datatype Store = Store(designs: map<string, Object>, comments: seq<Comment>, events: seq<Event>)

  /** The store after an operation, and what the operation returned or threw. */
  datatype Outcome<T> = Outcome(store: Store, result: Result<T, ApiError>)

  /** The comments of one design, in creation order (`listByDesign`). */
  function CommentsOf(cs: seq<Comment>, designId: string): (r: seq<Comment>)
    ensures forall c :: c in r <==> c in cs && c.designId == designId
  {
    if cs == [] then []
    else if cs[0].designId == designId then [cs[0]] + CommentsOf(cs[1..], designId)
    else CommentsOf(cs[1..], designId)
  }

  /** `deleteByDesign`: the comments of every other design, in order. */
  function WithoutDesign(cs: seq<Comment>, designId: string): (r: seq<Comment>)
    ensures forall c :: c in r <==> c in cs && c.designId != designId
  {
    if cs == [] then []
    else if cs[0].designId != designId then [cs[0]] + WithoutDesign(cs[1..], designId)
    else WithoutDesign(cs[1..], designId)
  }

  /** The position of the comment with this id on this design, or -1 (`findOneAndUpdate`'s filter). */
  function CommentIndex(cs: seq<Comment>, designId: string, commentId: string): (r: int)
    ensures -1 <= r < |cs|
    ensures r >= 0 ==> cs[r].id == commentId && cs[r].designId == designId
    ensures r >= 0 ==> forall k :: 0 <= k < r ==> !(cs[k].id == commentId && cs[k].designId == designId)
    ensures r == -1 <==> forall k :: 0 <= k < |cs| ==> !(cs[k].id == commentId && cs[k].designId == designId)
  {
    if cs == [] then -1
    else if cs[0].id == commentId && cs[0].designId == designId then 0
    else
      var r := CommentIndex(cs[1..], designId, commentId);
      if r == -1 then -1 else r + 1
  }

  /** The stored mentions: the payload's list when it is a non-empty array, otherwise those found in the message. */
  function StoredMentions(payload: Object, message: string): (v: Value)
    ensures ("mentions" in payload && payload["mentions"].Arr? && |payload["mentions"].items| > 0) ==> v == payload["mentions"]
    ensures !("mentions" in payload && payload["mentions"].Arr? && |payload["mentions"].items| > 0)
      ==> (v.Arr? && |v.items| == |M.Mentions(message)|
        && forall i :: 0 <= i < |v.items| ==> v.items[i] == Str(M.Mentions(message)[i]))
  {
    if "mentions" in payload && payload["mentions"].Arr? && |payload["mentions"].items| > 0 then payload["mentions"]
    else Arr(seq(|M.Mentions(message)|, i requires 0 <= i < |M.Mentions(message)| => Str(M.Mentions(message)[i])))
  }

  /** The comment payloads' `message: string`. */
  predicate HasMessage(payload: Object) {
    "message" in payload && payload["message"].Str?
  }

  // ---------------------------------------------------------------------
  // The operations.

  /** The paths the Design schema declares (backend/src/models/Design.ts); the model is strict, so no other key is stored. */
  const DESIGN_FIELDS := {"name", "width", "height", "elements", "thumbnailUrl"}

  /**
   * `createDesign`: the repository stores the payload under a fresh id and the
   * service returns the stored document, whose `toJSON` carries that id as
   * `id`; nothing is published. The strict schema keeps only its declared
   * paths, and `elements` defaults to `[]`.
   */
  function CreateDesign(st: Store, newId: string, payload: Object): (o: Outcome<Object>)
    ensures o.result.Ok? && o.store.designs == st.designs[newId := o.result.value]
    ensures "id" in o.result.value && o.result.value["id"] == Str(newId)
    ensures o.result.value.Keys == payload.Keys * DESIGN_FIELDS + {"elements", "id"}
    ensures forall k :: k in payload && k in DESIGN_FIELDS ==> o.result.value[k] == payload[k]
    ensures "elements" !in payload ==> o.result.value["elements"] == Arr([])
    ensures o.store.comments == st.comments && o.store.events == st.events
  {
    var kept := map k | k in payload.Keys * DESIGN_FIELDS :: payload[k];
    var doc := (if "elements" in kept then kept else kept["elements" := Arr([])])["id" := Str(newId)];
    Outcome(st.(designs := st.designs[newId := doc]), Ok(doc))
  }

  /** Keys the schema does not declare, such as the controller's owner fields, are not stored. */
  lemma CreateDesignDropsUndeclared(st: Store, newId: string, payload: Object, k: string)
    requires k !in DESIGN_FIELDS && k != "id"
    ensures k !in CreateDesign(st, newId, payload).result.value
    ensures k !in CreateDesign(st, newId, payload).store.designs[newId]
  {
  }

  /**
   * `listDesigns(search)`: every design when the search is absent or empty,
   * otherwise those whose name the case-insensitive pattern matches (a
   * parameter here).
   */
  function ListDesigns(st: Store, search: Option<string>, nameMatches: (string, Object) -> bool): (r: set<string>)
    ensures r <= st.designs.Keys
    ensures (search == None || search == Some("")) ==> r == st.designs.Keys
    ensures search.Some? && search.value != "" ==>
      forall id :: id in r <==> id in st.designs && nameMatches(search.value, st.designs[id])
  {
    if search == None || search == Some("") then st.designs.Keys
    else set id | id in st.designs.Keys && nameMatches(search.value, st.designs[id])
  }

  function GetDesign(st: Store, id: string): (r: Result<Object, ApiError>)
    ensures id in st.designs <==> r.Ok?
    ensures r.Ok? ==> r.value == st.designs[id]
    ensures r.Err? ==> r.error == DESIGN_NOT_FOUND
  {
    if id in st.designs then Ok(st.designs[id]) else Err(DESIGN_NOT_FOUND)
  }

  /** `updateDesign`: `$set` of the payload and `updatedAt`, then one `designUpdated` event. */
  function UpdateDesign(st: Store, id: string, payload: Object, now: real): (o: Outcome<Object>)
    ensures id !in st.designs ==> o == Outcome(st, Err(DESIGN_NOT_FOUND))
    ensures id in st.designs ==>
      var d := st.designs[id] + payload["updatedAt" := Num(now)];
      o.result == Ok(d) && o.store.designs == st.designs[id := d]
      && o.store.comments == st.comments && o.store.events == st.events + [DesignUpdated(id, d)]
  {
    if id !in st.designs then Outcome(st, Err(DESIGN_NOT_FOUND))
    else
      var d := st.designs[id] + payload["updatedAt" := Num(now)];
      Outcome(Store(st.designs[id := d], st.comments, st.events + [DesignUpdated(id, d)]), Ok(d))
  }

  /** `deleteDesign`: remove the design, then its comments, then publish once; the result is the id. */
  function DeleteDesign(st: Store, id: string): (o: Outcome<string>)
    ensures id !in st.designs ==> o == Outcome(st, Err(DESIGN_NOT_FOUND))
    ensures id in st.designs ==>
      o.result == Ok(id) && o.store.designs == st.designs - {id}
      && o.store.comments == WithoutDesign(st.comments, id)
      && o.store.events == st.events + [DesignDeleted(id)]
  {
    if id !in st.designs then Outcome(st, Err(DESIGN_NOT_FOUND))
    else Outcome(Store(st.designs - {id}, WithoutDesign(st.comments, id), st.events + [DesignDeleted(id)]), Ok(id))
  }

  /** `addComment`: check the design, fill in mentions, store the comment, publish once. */
  function AddComment(st: Store, designId: string, newId: string, payload: Object): (o: Outcome<Comment>)
    requires HasMessage(payload)
    ensures designId !in st.designs ==> o == Outcome(st, Err(DESIGN_NOT_FOUND))
    ensures designId in st.designs ==>
      var c := Comment(newId, designId, payload["mentions" := StoredMentions(payload, payload["message"].s)]);
      o.result == Ok(c) && o.store.designs == st.designs
      && o.store.comments == st.comments + [c] && o.store.events == st.events + [CommentCreated(c)]
  {
    if designId !in st.designs then Outcome(st, Err(DESIGN_NOT_FOUND))
    else
      var c := Comment(newId, designId, payload["mentions" := StoredMentions(payload, payload["message"].s)]);
      Outcome(Store(st.designs, st.comments + [c], st.events + [CommentCreated(c)]), Ok(c))
  }

  function ListComments(st: Store, designId: string): (r: Result<seq<Comment>, ApiError>)
    ensures designId !in st.designs <==> r == Err(DESIGN_NOT_FOUND)
    ensures r.Ok? ==> forall c :: c in r.value <==> c in st.comments && c.designId == designId
  {
    if designId !in st.designs then Err(DESIGN_NOT_FOUND) else Ok(CommentsOf(st.comments, designId))
  }

  /** `updateComment`: check the design, fill in mentions, update the matching comment, publish once. */
  function UpdateComment(st: Store, designId: string, commentId: string, payload: Object, now: real): (o: Outcome<Comment>)
    requires HasMessage(payload)
    ensures designId !in st.designs ==> o == Outcome(st, Err(DESIGN_NOT_FOUND))
    ensures designId in st.designs && CommentIndex(st.comments, designId, commentId) == -1
      ==> o == Outcome(st, Err(COMMENT_NOT_FOUND))
    ensures designId in st.designs && CommentIndex(st.comments, designId, commentId) != -1 ==>
      var old_ := st.comments[CommentIndex(st.comments, designId, commentId)];
      var mentions := StoredMentions(payload, payload["message"].s);
      o.result == Ok(old_.(fields := old_.fields + payload["mentions" := mentions]["updatedAt" := Num(now)]))
    ensures o.result.Ok? ==>
      var f := o.result.value.fields;
      && "updatedAt" in f && f["updatedAt"] == Num(now)
      && "mentions" in f && f["mentions"] == StoredMentions(payload, payload["message"].s)
      && (forall key :: key in payload && key != "mentions" && key != "updatedAt" ==> key in f && f[key] == payload[key])
    ensures o.result.Ok? ==>
      var k := CommentIndex(st.comments, designId, commentId);
      0 <= k && o.store.designs == st.designs
      && o.store.comments == st.comments[k := o.result.value]
      && o.result.value.id == commentId && o.result.value.designId == designId
      && o.store.events == st.events + [CommentUpdated(o.result.value)]
  {
    if designId !in st.designs then Outcome(st, Err(DESIGN_NOT_FOUND))
    else
      var k := CommentIndex(st.comments, designId, commentId);
      if k == -1 then Outcome(st, Err(COMMENT_NOT_FOUND))
      else
        var changes := payload["mentions" := StoredMentions(payload, payload["message"].s)]["updatedAt" := Num(now)];
        var c := st.comments[k].(fields := st.comments[k].fields + changes);
        Outcome(Store(st.designs, st.comments[k := c], st.events + [CommentUpdated(c)]), Ok(c))
  }

  // ---------------------------------------------------------------------
  // Properties.

  /** Every operation publishes exactly one event when it succeeds and none when it fails. */
  predicate PublishesOnSuccessOnly<T>(st: Store, o: Outcome<T>) {
    if o.result.Ok? then |o.store.events| == |st.events| + 1 && o.store.events[..|st.events|] == st.events
    else o.store == st
  }

  lemma WritesPublishOnSuccessOnly(st: Store, id: string, commentId: string, newId: string, payload: Object, now: real)
    requires HasMessage(payload)
    ensures PublishesOnSuccessOnly(st, UpdateDesign(st, id, payload, now))
    ensures PublishesOnSuccessOnly(st, DeleteDesign(st, id))
    ensures PublishesOnSuccessOnly(st, AddComment(st, id, newId, payload))
    ensures PublishesOnSuccessOnly(st, UpdateComment(st, id, commentId, payload, now))
  {
    var ud := UpdateDesign(st, id, payload, now);
    if ud.result.Ok? { assert ud.store.events[..|st.events|] == st.events; }
    var dd := DeleteDesign(st, id);
    if dd.result.Ok? { assert dd.store.events[..|st.events|] == st.events; }
    var ac := AddComment(st, id, newId, payload);
    if ac.result.Ok? { assert ac.store.events[..|st.events|] == st.events; }
    var uc := UpdateComment(st, id, commentId, payload, now);
    if uc.result.Ok? { assert uc.store.events[..|st.events|] == st.events; }
  }

  lemma {:induction false} CommentsOfWithout(cs: seq<Comment>, deleted: string, other: string)
    ensures CommentsOf(WithoutDesign(cs, deleted), other)
         == if other == deleted then [] else CommentsOf(cs, other)
  {
    if cs != [] {
      CommentsOfWithout(cs[1..], deleted, other);
    }
  }

  /**
   * Deleting a design leaves no comment of it, and every other design's
   * comments exactly as they were, in order.
   */
  lemma DeleteDesignCascades(st: Store, id: string, other: string)
    requires id in st.designs && other != id
    ensures var s := DeleteDesign(st, id).store;
      CommentsOf(s.comments, id) == [] && CommentsOf(s.comments, other) == CommentsOf(st.comments, other)
  {
    CommentsOfWithout(st.comments, id, id);
    CommentsOfWithout(st.comments, id, other);
  }

  lemma {:induction false} CommentsOfAppend(cs: seq<Comment>, c: Comment, designId: string)
    ensures CommentsOf(cs + [c], designId) == CommentsOf(cs, designId) + (if c.designId == designId then [c] else [])
  {
    if cs == [] {
      assert [] + [c] == [c];
    } else {
      assert (cs + [c])[1..] == cs[1..] + [c];
      CommentsOfAppend(cs[1..], c, designId);
    }
  }

  /** A comment that was added is listed last for its design. */
  lemma AddThenList(st: Store, designId: string, newId: string, payload: Object)
    requires HasMessage(payload) && designId in st.designs
    ensures var o := AddComment(st, designId, newId, payload);
      ListComments(o.store, designId) == Ok(CommentsOf(st.comments, designId) + [o.result.value])
  {
    var o := AddComment(st, designId, newId, payload);
    CommentsOfAppend(st.comments, o.result.value, designId);
  }

  /** With no mentions supplied, a comment stores exactly the distinct `@` names of its message. */
  lemma MentionsFallback(st: Store, designId: string, newId: string, payload: Object, names: seq<string>)
    requires HasMessage(payload) && designId in st.designs
    requires "mentions" !in payload || payload["mentions"] == Arr([])
    ensures var c := AddComment(st, designId, newId, payload).result.value;
      c.fields["mentions"].Arr?
      && |c.fields["mentions"].items| == |M.Mentions(payload["message"].s)|
      && forall i :: 0 <= i < |c.fields["mentions"].items| ==>
           c.fields["mentions"].items[i] == Str(M.Mentions(payload["message"].s)[i])
  {
  }

  /** A comment id belonging to another design is not found through this one, and nothing changes. */
  lemma UpdateCommentScopedToDesign(st: Store, designId: string, commentId: string, payload: Object, now: real)
    requires HasMessage(payload) && designId in st.designs
    requires forall c :: c in st.comments && c.id == commentId ==> c.designId != designId
    ensures UpdateComment(st, designId, commentId, payload, now) == Outcome(st, Err(COMMENT_NOT_FOUND))
  {
  }

  /** The service over its stores and publisher. */
  class Service {
    var designs: map<string, Object>
    var comments: seq<Comment>
    var events: seq<Event>

    function State(): Store
      reads this
    {
      Store(designs, comments, events)
    }

    constructor ()
      ensures State() == Store(map[], [], [])
    {
      designs, comments, events := map[], [], [];
    }

    method Commit(s: Store)
      modifies this
      ensures State() == s
    {
      designs, comments, events := s.designs, s.comments, s.events;
    }

    method CreateDesignCall(newId: string, payload: Object) returns (r: Result<Object, ApiError>)
      modifies this
      ensures State() == CreateDesign(old(State()), newId, payload).store
      ensures r == CreateDesign(old(State()), newId, payload).result
    {
      var o := CreateDesign(State(), newId, payload);
      Commit(o.store);
      r := o.result;
    }

    method UpdateDesignCall(id: string, payload: Object, now: real) returns (r: Result<Object, ApiError>)
      modifies this
      ensures State() == UpdateDesign(old(State()), id, payload, now).store
      ensures r == UpdateDesign(old(State()), id, payload, now).result
    {
      var o := UpdateDesign(State(), id, payload, now);
      Commit(o.store);
      r := o.result;
    }

    method DeleteDesignCall(id: string) returns (r: Result<string, ApiError>)
      modifies this
      ensures State() == DeleteDesign(old(State()), id).store
      ensures r == DeleteDesign(old(State()), id).result
    {
      if id !in designs {
        return Err(DESIGN_NOT_FOUND);
      }
      designs := designs - {id};
      comments := WithoutDesign(comments, id);
      events := events + [DesignDeleted(id)];
      r := Ok(id);
    }

    method AddCommentCall(designId: string, newId: string, payload: Object) returns (r: Result<Comment, ApiError>)
      requires HasMessage(payload)
      modifies this
      ensures State() == AddComment(old(State()), designId, newId, payload).store
      ensures r == AddComment(old(State()), designId, newId, payload).result
    {
      if designId !in designs {
        return Err(DESIGN_NOT_FOUND);
      }
      var mentions := StoredMentions(payload, payload["message"].s);
      var c := Comment(newId, designId, payload["mentions" := mentions]);
      comments := comments + [c];
      events := events + [CommentCreated(c)];
      r := Ok(c);
    }

    method UpdateCommentCall(designId: string, commentId: string, payload: Object, now: real)
      returns (r: Result<Comment, ApiError>)
      requires HasMessage(payload)
      modifies this
      ensures State() == UpdateComment(old(State()), designId, commentId, payload, now).store
      ensures r == UpdateComment(old(State()), designId, commentId, payload, now).result
    {
      var o := UpdateComment(State(), designId, commentId, payload, now);
      Commit(o.store);
      r := o.result;
    }
  }
}
