/**
 * The design HTTP handlers (backend/src/controllers/designController.ts):
 * the authentication guard each one applies and the payload it hands to
 * the service. Schema parsing happens before (see DesignValidators); the
 * payloads here are already parsed objects, which may still carry owner or
 * author fields.
 */
module DesignController {
  import opened Wrappers
  import opened Json
  import opened Strings
  import opened ApiErrors
  import opened Authenticate

  /** The handlers; each guarded one has its own 401 message. */
  datatype Handler =
    | CreateDesign | ListDesigns | GetDesign | UpdateDesign | DeleteDesign
    | RequestAccess | RespondToAccessRequest | CreateComment | ListComments | UpdateComment

  /** The message a handler throws when there is no request user; `None` for the one handler without a guard. */
  function GuardMessage(h: Handler): (m: Option<string>)
    ensures m.None? <==> h == UpdateDesign
  {
    match h
    case CreateDesign => Some("Missing design creator context")
    case ListDesigns => Some("Missing user context")
    case GetDesign => Some("Missing user context")
    case UpdateDesign => None
    case DeleteDesign => Some("Missing design owner context")
    case RequestAccess => Some("Missing requester context")
    case RespondToAccessRequest => Some("Missing owner context")
    case CreateComment => Some("Missing comment author context")
    case ListComments => Some("Missing user context")
    case UpdateComment => Some("Missing user context")
  }

  /** The guard at the top of a handler: the request user, or the handler's 401. */
  function Guard(h: Handler, user: Option<RequestUser>): (r: Result<Option<RequestUser>, ApiError>)
    ensures r.Err? <==> user.None? && h != UpdateDesign
    ensures r.Err? ==> r.error == Unauthorized(GuardMessage(h).value)
    ensures r.Ok? ==> r.value == user
  {
    if user.None? && GuardMessage(h).Some? then Err(Unauthorized(GuardMessage(h).value)) else Ok(user)
  }

  /** `createDesign`: the owner is always the requester; the payload's owner name wins over the requester's. */
  function CreateDesignPayload(user: Option<RequestUser>, payload: Object): (r: Result<Object, ApiError>)
    ensures user.None? <==> r.Err?
    ensures r.Err? ==> r.error == Unauthorized("Missing design creator context")
    ensures r.Ok? ==> "ownerId" in r.value && r.value["ownerId"] == Str(user.value.id)
    ensures r.Ok? ==> r.value.Keys <= payload.Keys + {"ownerId", "ownerName"}
    ensures r.Ok? ==> forall k :: k in payload && k != "ownerId" && k != "ownerName" ==> k in r.value && r.value[k] == payload[k]
    ensures r.Ok? && "ownerName" in payload && payload["ownerName"] != Null
      ==> "ownerName" in r.value && r.value["ownerName"] == payload["ownerName"]
    ensures r.Ok? && !("ownerName" in payload && payload["ownerName"] != Null)
      ==> (if user.value.name.Some? then "ownerName" in r.value && r.value["ownerName"] == Str(user.value.name.value)
           else "ownerName" !in r.value)
  {
    match Guard(CreateDesign, user)
    case Err(e) => Err(e)
    case Ok(_) =>
      var u := user.value;
      var withOwner := payload["ownerId" := Str(u.id)];
      if "ownerName" in payload && payload["ownerName"] != Null then Ok(withOwner)
      else if u.name.Some? then Ok(withOwner["ownerName" := Str(u.name.value)])
      else Ok(withOwner - {"ownerName"})
  }

  /** `updateDesign`: no guard; a truthy `ownerId` other than the requester's own is dropped. */
  function UpdateDesignPayload(user: Option<RequestUser>, payload: Object): (r: Object)
  {
    if "ownerId" in payload && Truthy(payload["ownerId"]) && (user.None? || payload["ownerId"] != Str(user.value.id))
    then payload - {"ownerId"}
    else payload
  }

  /**
   * `createComment`'s author name: the payload name (or the requester's
   * name) trimmed, else the requester's name as it is, else `Anonymous`.
   */
  function AuthorName(payloadName: Option<string>, userName: Option<string>): (r: string)
  {
    var candidate := if payloadName.Some? then payloadName.value else if userName.Some? then userName.value else "";
    var trimmed := Trim(candidate);
    if trimmed != "" then trimmed
    else if userName.Some? && userName.value != "" then userName.value
    else "Anonymous"
  }

  function CreateCommentPayload(user: Option<RequestUser>, payload: Object): (r: Result<Object, ApiError>)
    ensures user.None? <==> r.Err?
    ensures r.Err? ==> r.error == Unauthorized("Missing comment author context")
    ensures r.Ok? ==> r.value == payload["authorId" := Str(user.value.id)]
                        ["authorName" := Str(AuthorName(StringField(payload, "authorName"), user.value.name))]
  {
    match Guard(CreateComment, user)
    case Err(e) => Err(e)
    case Ok(_) =>
      var u := user.value;
      Ok(payload["authorId" := Str(u.id)]["authorName" := Str(AuthorName(StringField(payload, "authorName"), u.name))])
  }

  /** `respondToAccessRequest`'s two actions and the word its message uses. */
  datatype AccessAction = Approve | Deny

  function AccessResponseMessage(action: AccessAction): (m: string)
    ensures m == "Access request approved" <==> action == Approve
    ensures m == "Access request denied" <==> action == Deny
  {
    "Access request " + (if action == Approve then "approved" else "denied")
  }

  // ---------------------------------------------------------------------
  // Properties.

  /** Every handler but `updateDesign` refuses an anonymous request with a 401 `UNAUTHORIZED`, and only then. */
  lemma GuardedHandlers(h: Handler, user: Option<RequestUser>)
    ensures h != UpdateDesign ==> (Guard(h, user).Err? <==> user.None?)
    ensures Guard(h, user).Err? ==> Guard(h, user).error.status == 401 && Guard(h, user).error.code == "UNAUTHORIZED"
    ensures Guard(UpdateDesign, user).Ok?
  {
  }

  /**
   * After `updateDesign`'s sanitising, a remaining `ownerId` is either falsy
   * or the requester's own id; every other field is passed through.
   */
  lemma UpdateDesignOwnerRule(user: Option<RequestUser>, payload: Object)
    ensures var r := UpdateDesignPayload(user, payload);
      ("ownerId" in r ==> !Truthy(r["ownerId"]) || (user.Some? && r["ownerId"] == Str(user.value.id)))
      && (forall k :: k in payload && k != "ownerId" ==> k in r && r[k] == payload[k])
      && ("ownerId" in payload && !Truthy(payload["ownerId"]) ==> "ownerId" in r)
      && ("ownerId" in payload && user.Some? && payload["ownerId"] == Str(user.value.id) ==> r == payload)
  {
  }

  /** The author name is never empty, and it is the trimmed payload name whenever that has a non-blank character. */
  lemma AuthorNameRule(payloadName: Option<string>, userName: Option<string>)
    ensures AuthorName(payloadName, userName) != ""
    ensures payloadName.Some? && Trim(payloadName.value) != "" ==> AuthorName(payloadName, userName) == Trim(payloadName.value)
    ensures payloadName.Some? && Trim(payloadName.value) == "" && userName.Some? && userName.value != ""
      ==> AuthorName(payloadName, userName) == userName.value
    ensures payloadName.None? && userName.None? ==> AuthorName(payloadName, userName) == "Anonymous"
  {
    assert Trim("") == "";
  }

  /** A blank payload name falls back to the requester's name untrimmed. */
  lemma BlankAuthorNameExample()
    ensures AuthorName(Some("  "), Some(" Ada ")) == " Ada "
  {
    TrimEmptyIff("  ");
  }

  /** The comment's author is always the requester, whatever the payload claims. */
  lemma CommentAuthorIsRequester(user: RequestUser, payload: Object)
    ensures var r := CreateCommentPayload(Some(user), payload);
      r.Ok? && r.value["authorId"] == Str(user.id) && r.value["authorName"].Str? && r.value["authorName"].s != ""
      && forall k :: k in payload && k != "authorId" && k != "authorName" ==> r.value[k] == payload[k]
  {
    AuthorNameRule(StringField(payload, "authorName"), user.name);
  }
}
