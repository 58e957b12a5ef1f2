/**
 * The authentication request schemas (backend/src/validators/authValidators.ts)
 * as parsers from JSON to typed inputs, or `None` (a `ZodError`). The
 * string transforms run before the length and format checks; zod's e-mail
 * check is a parameter.
 */
module AuthValidators {
  import opened Wrappers
  import opened Json
  import opened Strings
  import UserService

  const MIN_PASSWORD := 8
  const MAX_NAME := 64

  datatype CreateSessionInput = CreateSessionInput(name: string, userId: Option<string>)
  datatype RegisterInput = RegisterInput(email: string, password: string, name: Option<string>)
  datatype LoginInput = LoginInput(email: string, password: string)
  datatype ProfileUpdateInput = ProfileUpdateInput(name: string)
  datatype ForgotPasswordInput = ForgotPasswordInput(email: Option<string>)

  /** `z.string().trim().toLowerCase().email()`. */
  function ParseEmail(v: Value, isEmail: string -> bool): (r: Option<string>)
    ensures r.Some? <==> v.Str? && isEmail(ToLower(Trim(v.s)))
    ensures r.Some? ==> r.value == ToLower(Trim(v.s))
  {
    if v.Str? && isEmail(ToLower(Trim(v.s))) then Some(ToLower(Trim(v.s))) else None
  }

  /** `z.string().trim().min(1).max(64)`; zod measures `length`, in UTF-16 code units. */
  function ParseName(v: Value): (r: Option<string>)
    ensures r.Some? <==> v.Str? && 1 <= JsLength(Trim(v.s)) <= MAX_NAME
    ensures r.Some? ==> r.value == Trim(v.s) && r.value != ""
  {
    if v.Str? && 1 <= JsLength(Trim(v.s)) <= MAX_NAME then Some(Trim(v.s)) else None
  }

  function ParseCreateSession(o: Object): (r: Option<CreateSessionInput>)
    ensures r.Some? <==> ("name" in o && o["name"].Str? && Trim(o["name"].s) != ""
      && ("userId" !in o || (o["userId"].Str? && o["userId"].s != "")))
    ensures r.Some? ==> (r.value.name == Trim(o["name"].s) && r.value.name != ""
      && r.value.userId == (if "userId" in o then Some(o["userId"].s) else None))
  {
    if !("name" in o && o["name"].Str? && Trim(o["name"].s) != "") then None
    else if "userId" in o && !(o["userId"].Str? && o["userId"].s != "") then None
    else Some(CreateSessionInput(Trim(o["name"].s), if "userId" in o then Some(o["userId"].s) else None))
  }

  function ParseRegister(o: Object, isEmail: string -> bool): (r: Option<RegisterInput>)
    ensures r.Some? <==> ("email" in o && ParseEmail(o["email"], isEmail).Some?
      && "password" in o && o["password"].Str? && JsLength(o["password"].s) >= MIN_PASSWORD
      && ("name" !in o || ParseName(o["name"]).Some?))
    ensures r.Some? ==> (r.value.email == ToLower(Trim(o["email"].s)) && r.value.password == o["password"].s
      && r.value.name == (if "name" in o then Some(Trim(o["name"].s)) else None))
  {
    if "email" !in o || ParseEmail(o["email"], isEmail).None? then None
    else if !("password" in o && o["password"].Str? && JsLength(o["password"].s) >= MIN_PASSWORD) then None
    else if "name" in o && ParseName(o["name"]).None? then None
    else Some(RegisterInput(ParseEmail(o["email"], isEmail).value, o["password"].s,
                            if "name" in o then ParseName(o["name"]) else None))
  }

  function ParseLogin(o: Object, isEmail: string -> bool): (r: Option<LoginInput>)
    ensures r.Some? <==> ("email" in o && ParseEmail(o["email"], isEmail).Some?
      && "password" in o && o["password"].Str? && |o["password"].s| >= 1)
    ensures r.Some? ==> r.value.email == ToLower(Trim(o["email"].s)) && r.value.password == o["password"].s
  {
    if "email" !in o || ParseEmail(o["email"], isEmail).None? then None
    else if !("password" in o && o["password"].Str? && |o["password"].s| >= 1) then None
    else Some(LoginInput(ParseEmail(o["email"], isEmail).value, o["password"].s))
  }

  function ParseProfileUpdate(o: Object): (r: Option<ProfileUpdateInput>)
    ensures r.Some? <==> "name" in o && ParseName(o["name"]).Some?
    ensures r.Some? ==> 1 <= JsLength(r.value.name) <= MAX_NAME && r.value.name == Trim(o["name"].s)
  {
    if "name" in o && ParseName(o["name"]).Some? then Some(ProfileUpdateInput(ParseName(o["name"]).value)) else None
  }

  function ParseForgotPassword(o: Object, isEmail: string -> bool): (r: Option<ForgotPasswordInput>)
    ensures r.Some? <==> "email" !in o || ParseEmail(o["email"], isEmail).Some?
    ensures r.Some? && "email" in o ==> r.value.email == Some(ToLower(Trim(o["email"].s)))
    ensures r.Some? && "email" !in o ==> r.value.email == None
  {
    if "email" !in o then Some(ForgotPasswordInput(None))
    else if ParseEmail(o["email"], isEmail).Some? then Some(ForgotPasswordInput(ParseEmail(o["email"], isEmail)))
    else None
  }

  // ---------------------------------------------------------------------
  // Properties.

  /** A validated address is already in the form the user service looks it up by. */
  lemma ParsedEmailIsNormalized(v: Value, isEmail: string -> bool)
    requires ParseEmail(v, isEmail).Some?
    ensures UserService.NormalizeEmail(ParseEmail(v, isEmail).value) == ParseEmail(v, isEmail).value
  {
    UserService.NormalizeEmailIdempotent(v.s);
  }

  /** A validated name has no surrounding white space and from 1 to 64 UTF-16 code units. */
  lemma ParsedNameIsTrimmed(v: Value)
    requires ParseName(v).Some?
    ensures var n := ParseName(v).value;
      1 <= |n| && JsLength(n) <= MAX_NAME && !IsSpace(n[0]) && !IsSpace(n[|n| - 1]) && Trim(n) == n
  {
    var n := ParseName(v).value;
    assert SkipSpaces(n, 0) == 0;
    assert TrimEndIndex(n, 0, |n|) == |n|;
    assert n[0..|n|] == n;
  }

  /** White space alone is not a name. */
  lemma BlankNameRejected()
    ensures ParseProfileUpdate(map["name" := Str("   ")]).None?
  {
    TrimEmptyIff("   ");
  }

  /**
   * Lengths are UTF-16 code units: a name written only in characters above
   * U+FFFF (emoji, say) may have at most 32 of them, and four such characters
   * already make a long enough password.
   */
  lemma AstralLengths(s: string)
    requires forall i :: 0 <= i < |s| ==> s[i] as int > 0xFFFF
    ensures ParseName(Str(s)).Some? <==> 1 <= |s| <= MAX_NAME / 2
    ensures JsLength(s) >= MIN_PASSWORD <==> |s| >= MIN_PASSWORD / 2
  {
    AstralTrim(s);
    var n := JsLength(s);
    assert n == 2 * |s|;
    assert ParseName(Str(s)).Some? <==> 1 <= n <= MAX_NAME;
  }

  /** No character above U+FFFF is white space, so trimming such a string changes nothing. */
  lemma AstralTrim(s: string)
    requires forall i :: 0 <= i < |s| ==> s[i] as int > 0xFFFF
    ensures Trim(s) == s
  {
    if s != [] {
      assert !IsSpace(s[0]) && !IsSpace(s[|s| - 1]);
      assert SkipSpaces(s, 0) == 0;
      assert TrimEndIndex(s, 0, |s|) == |s|;
      assert s[0..|s|] == s;
    }
  }
}
