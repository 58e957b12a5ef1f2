/**
 * The browser-side session logic (frontend/src/hooks/useCurrentUser.ts):
 * decoding the JWT payload, the expiry test, restoring a stored session,
 * and the checks `updateName` makes before any request.
 *
 * `atob`, `JSON.parse` and the clock are parameters; `None` from a parser
 * stands for a thrown exception.
 */
module CurrentUser {
  import opened Wrappers
  import opened Strings

  const SESSION_STORAGE_KEY := "design-editor-session"

  // ---------------------------------------------------------------------
  // base64url to base64 (section 5 of RFC 4648 to section 4).

  function FromUrlAlphabet(c: char): char {
    if c == '-' then '+' else if c == '_' then '/' else c
  }

  function ToUrlAlphabet(c: char): char {
    if c == '+' then '-' else if c == '/' then '_' else c
  }

  /** `value.replace(/-/g, '+').replace(/_/g, '/')`. */
  function ToStandardAlphabet(value: string): (r: string)
    ensures |r| == |value|
    ensures forall k :: 0 <= k < |value| ==> r[k] == FromUrlAlphabet(value[k])
  {
    seq(|value|, k requires 0 <= k < |value| => FromUrlAlphabet(value[k]))
  }

  function ToUrlSafe(value: string): (r: string)
    ensures |r| == |value|
    ensures forall k :: 0 <= k < |value| ==> r[k] == ToUrlAlphabet(value[k])
  {
    seq(|value|, k requires 0 <= k < |value| => ToUrlAlphabet(value[k]))
  }

  /** `padEnd(length + (4 - length % 4) % 4, '=')`. */
  function PadBase64(b: string): (r: string)
    ensures |r| % 4 == 0 && |b| <= |r| < |b| + 4
    ensures r[..|b|] == b && forall k :: |b| <= k < |r| ==> r[k] == '='
    ensures forall m :: m % 4 == 0 && m >= |b| ==> |r| <= m
  {
    var pad := (4 - |b| % 4) % 4;
    b + seq(pad, _ => '=')
  }

  /** What `atob` receives for a base64url segment. */
  function Base64Input(segment: string): string {
    PadBase64(ToStandardAlphabet(segment))
  }

  /** Text in the standard alphabet, encoded in the URL-safe one, comes back unchanged. */
  lemma AlphabetRoundTrip(s: string)
    requires '-' !in s && '_' !in s
    ensures ToStandardAlphabet(ToUrlSafe(s)) == s
  {
    assert forall k :: 0 <= k < |s| ==> s[k] != '-' && s[k] != '_';
  }

  // ---------------------------------------------------------------------
  // Decoding and expiry.

  /** The claims the client reads. */
  datatype DecodedToken = DecodedToken(sub: Option<string>, name: Option<string>, email: Option<string>, exp: Option<real>)

  /** `decodeToken(token)`: `None` for fewer than two parts or when decoding or parsing throws. */
  function DecodeToken(token: string, atob: string -> Option<string>, parse: string -> Option<DecodedToken>)
    : (r: Option<DecodedToken>)
    ensures |Split(token, '.')| < 2 ==> r.None?
    ensures |Split(token, '.')| >= 2 ==>
      r == match atob(Base64Input(Split(token, '.')[1])) case None => None case Some(json) => parse(json)
  {
    var parts := Split(token, '.');
    if |parts| < 2 then None
    else
      match atob(Base64Input(parts[1]))
      case None => None
      case Some(json) => parse(json)
  }

  /** `isTokenExpired`: never without a (non-zero) `exp`; otherwise strictly before now, in milliseconds. */
  predicate IsTokenExpired(decoded: Option<DecodedToken>, now: real) {
    decoded.Some? && decoded.value.exp.Some? && decoded.value.exp.value != 0.0
    && decoded.value.exp.value * 1000.0 < now
  }

  lemma ExpiryBoundary(d: DecodedToken, now: real)
    requires d.exp.Some? && d.exp.value != 0.0
    ensures IsTokenExpired(Some(d), now) <==> d.exp.value * 1000.0 < now
    ensures d.exp.value * 1000.0 == now ==> !IsTokenExpired(Some(d), now)
    ensures d.exp.value * 1000.0 + 1.0 == now ==> IsTokenExpired(Some(d), now)
    ensures !IsTokenExpired(Some(d.(exp := None)), now) && !IsTokenExpired(Some(d.(exp := Some(0.0))), now)
  {
  }

  /** Once a token has expired it stays expired as the clock moves on. */
  lemma ExpiredStaysExpired(d: DecodedToken, now: real, later: real)
    requires IsTokenExpired(Some(d), now) && now <= later
    ensures IsTokenExpired(Some(d), later)
  {
  }

  // ---------------------------------------------------------------------
  // Restoring a session.

  datatype SessionUser = SessionUser(id: string, name: string, email: Option<string>)
  datatype SessionData = SessionData(token: string, user: SessionUser)

  /** What `JSON.parse` of the stored value yields: a token and the stored user's name and e-mail, each maybe absent. */
  datatype StoredSession = StoredSession(token: Option<string>, name: Option<string>, email: Option<string>)

  predicate Given(v: Option<string>) {
    v.Some? && v.value != ""
  }

  /** The outcome of `loadSession`: the session, and whether the stored key was removed. */
  datatype LoadOutcome = LoadOutcome(session: Option<SessionData>, removed: bool)

  function LoadSession(stored: Option<string>, parseStored: string -> Option<StoredSession>,
                       atob: string -> Option<string>, parseToken: string -> Option<DecodedToken>, now: real)
    : (r: LoadOutcome)
  {
    if !Given(stored) then LoadOutcome(None, false)
    else
      match parseStored(stored.value)
      case None => LoadOutcome(None, true)
      case Some(parsed) =>
        if !Given(parsed.token) then LoadOutcome(None, false)
        else
          var decoded := DecodeToken(parsed.token.value, atob, parseToken);
          if decoded.None? || IsTokenExpired(decoded, now) || !Given(decoded.value.sub) || !Given(decoded.value.email)
          then LoadOutcome(None, true)
          else
            var d := decoded.value;
            var name := if d.name.Some? then d.name.value else if parsed.name.Some? then parsed.name.value else "";
            LoadOutcome(Some(SessionData(parsed.token.value, SessionUser(d.sub.value, name, d.email))), false)
  }

  /** `hasSession`: a token and an e-mail, both non-empty. */
  predicate HasSession(session: Option<SessionData>) {
    session.Some? && session.value.token != "" && Given(session.value.user.email)
  }

  /**
   * A stored token that does not decode, has expired, or lacks a subject or
   * e-mail is discarded along with the stored key; otherwise the session is
   * the token's subject and e-mail, with the token's name, else the stored
   * name, else the empty string.
   */
  lemma LoadSessionSpec(stored: string, parseStored: string -> Option<StoredSession>,
                        atob: string -> Option<string>, parseToken: string -> Option<DecodedToken>, now: real)
    requires stored != "" && parseStored(stored).Some? && Given(parseStored(stored).value.token)
    ensures var parsed := parseStored(stored).value;
      var decoded := DecodeToken(parsed.token.value, atob, parseToken);
      var r := LoadSession(Some(stored), parseStored, atob, parseToken, now);
      var rejected := decoded.None? || IsTokenExpired(decoded, now) || !Given(decoded.value.sub) || !Given(decoded.value.email);
      (r.removed <==> rejected) && (r.session.None? <==> rejected)
      && (r.session.Some? ==>
        r.session.value.token == parsed.token.value
        && r.session.value.user.id == decoded.value.sub.value
        && r.session.value.user.email == decoded.value.email
        && r.session.value.user.name == (if decoded.value.name.Some? then decoded.value.name.value
                                         else if parsed.name.Some? then parsed.name.value else ""))
  {
  }

  /** Every restored session counts as signed in. */
  lemma LoadedSessionHasSession(stored: Option<string>, parseStored: string -> Option<StoredSession>,
                                atob: string -> Option<string>, parseToken: string -> Option<DecodedToken>, now: real)
    ensures var r := LoadSession(stored, parseStored, atob, parseToken, now);
      r.session.Some? ==> HasSession(r.session) && !r.removed
  {
  }

  /** Nothing stored, or stored data without a token: nothing restored and nothing removed. */
  lemma NothingStored(parseStored: string -> Option<StoredSession>, atob: string -> Option<string>,
                      parseToken: string -> Option<DecodedToken>, now: real)
    ensures LoadSession(None, parseStored, atob, parseToken, now) == LoadOutcome(None, false)
    ensures LoadSession(Some(""), parseStored, atob, parseToken, now) == LoadOutcome(None, false)
  {
  }

  // ---------------------------------------------------------------------
  // `updateName`'s checks.

  const NAME_REQUIRED := "Name is required"
  const LOGIN_REQUIRED := "You need to log in to update your name"
  const ACCOUNT_REQUIRED := "Profile updates require a registered account"

  /** The checks before the profile request: the trimmed name to send, or the error thrown. */
  function UpdateNameCheck(name: string, session: Option<SessionData>): (r: Result<string, string>)
    ensures Trim(name) == "" ==> r == Err(NAME_REQUIRED)
    ensures r.Ok? <==> Trim(name) != "" && session.Some? && Given(session.value.user.email)
    ensures r.Ok? ==> r.value == Trim(name)
  {
    var trimmed := Trim(name);
    if trimmed == "" then Err(NAME_REQUIRED)
    else if session.None? then Err(LOGIN_REQUIRED)
    else if !Given(session.value.user.email) then Err(ACCOUNT_REQUIRED)
    else Ok(trimmed)
  }

  /** A profile update goes out only for a signed-in session, and the name sent has no surrounding white space. */
  lemma UpdateNameNeedsSession(name: string, session: Option<SessionData>)
    requires UpdateNameCheck(name, session).Ok?
    ensures session.value.user.email.Some? && UpdateNameCheck(name, session).value != ""
    ensures (session.value.token != "") ==> HasSession(session)
  {
  }

  /** The browser's storage under the session key, and the hook's current session. */
  class SessionStorage {
    var stored: Option<string>

    constructor (stored: Option<string>)
      ensures this.stored == stored
    {
      this.stored := stored;
    }

    /** `loadSession`: removes the stored key exactly when the outcome says so. */
    method Load(parseStored: string -> Option<StoredSession>, atob: string -> Option<string>,
                parseToken: string -> Option<DecodedToken>, now: real)
      returns (session: Option<SessionData>)
      modifies this
      ensures var o := LoadSession(old(stored), parseStored, atob, parseToken, now);
        session == o.session && stored == (if o.removed then None else old(stored))
    {
      var o := LoadSession(stored, parseStored, atob, parseToken, now);
      if o.removed {
        stored := None;
      }
      session := o.session;
    }

    /** `persistSession`: store the serialised session, or remove the key for `null`. */
    method Persist(session: Option<SessionData>, serialize: SessionData -> string)
      modifies this
      ensures stored == if session.None? then None else Some(serialize(session.value))
    {
      if session.None? {
        stored := None;
      } else {
        stored := Some(serialize(session.value));
      }
    }
  }
}
