/**
 * Account registration, login and display names (backend/src/services/UserService.ts).
 *
 * The user repository is the list `users` held by the `UserService` class;
 * `bcrypt.hash`/`bcrypt.compare` are parameters, and so are `Date.now()`
 * and the id the database assigns to a new user.
 */
module UserService {
  import opened Wrappers
  import opened Strings
  import opened JsNumbers
  import opened ApiErrors

  const DEFAULT_NAME_PREFIX: string := "Designer"
  const MAX_NAME_ATTEMPTS: nat := 20
  const SUFFIX_MODULUS: nat := 1000000

  // ---------------------------------------------------------------------
  // Base 36: `Number.prototype.toString(36)` on a non-negative integer.

  predicate IsBase36Digit(c: char) { IsDigit(c) || IsAsciiLower(c) }

  predicate IsBase36(s: string) {
    forall k :: 0 <= k < |s| ==> IsBase36Digit(s[k])
  }

  function DigitValue(c: char): (d: nat)
    requires IsBase36Digit(c)
    ensures d < 36
  {
    if IsDigit(c) then c as int - '0' as int else c as int - 'a' as int + 10
  }

  function DigitChar(d: nat): (c: char)
    requires d < 36
    ensures IsBase36Digit(c) && DigitValue(c) == d
  {
    if d < 10 then ('0' as int + d) as char else ('a' as int + d - 10) as char
  }

  /** The number a string of base-36 digits denotes (leading zeros allowed). */
  function FromBase36(s: string): nat
    requires IsBase36(s)
  {
    if s == [] then 0 else FromBase36(s[..|s| - 1]) * 36 + DigitValue(s[|s| - 1])
  }

  /** `n.toString(36)`. */
  function ToBase36(n: nat): (r: string)
    ensures |r| >= 1 && IsBase36(r)
    ensures FromBase36(r) == n
  {
    if n < 36 then
      var r := [DigitChar(n)];
      assert r[..0] == [];
      r
    else
      var r := ToBase36(n / 36) + [DigitChar(n % 36)];
      assert r[..|r| - 1] == ToBase36(n / 36);
      r
  }

  function Pow36(k: nat): (p: nat)
    ensures p >= 1
  {
    if k == 0 then 1 else 36 * Pow36(k - 1)
  }

  /** A number below 36^k has at most k base-36 digits. */
  lemma {:induction false} Base36Length(n: nat, k: nat)
    requires k >= 1 && n < Pow36(k)
    ensures |ToBase36(n)| <= k
  {
    if n >= 36 {
      assert k >= 2;
      Base36Length(n / 36, k - 1);
    }
  }

  function Zeros(m: nat): (z: string)
    ensures |z| == m && IsBase36(z)
    ensures forall k :: 0 <= k < m ==> z[k] == '0'
  {
    seq(m, _ => '0')
  }

  /** `s.padStart(width, '0')`. */
  function PadStart(s: string, width: nat): (r: string)
    ensures |r| == if |s| >= width then |s| else width
    ensures r == (if |s| >= width then s else Zeros(width - |s|) + s)
  {
    if |s| >= width then s else Zeros(width - |s|) + s
  }

  lemma {:induction false} ZerosValue(m: nat)
    ensures FromBase36(Zeros(m)) == 0
  {
    if m > 0 {
      assert Zeros(m)[..m - 1] == Zeros(m - 1);
      ZerosValue(m - 1);
    }
  }

  /** Leading zeros do not change the value. */
  lemma {:induction false} ZeroPaddingValue(m: nat, s: string)
    requires IsBase36(s)
    ensures IsBase36(Zeros(m) + s) && FromBase36(Zeros(m) + s) == FromBase36(s)
    decreases |s|
  {
    var t := Zeros(m) + s;
    assert IsBase36(t) by {
      forall k | 0 <= k < |t| ensures IsBase36Digit(t[k]) {
        if k >= m { assert t[k] == s[k - m]; }
      }
    }
    if s == [] {
      assert t == Zeros(m);
      ZerosValue(m);
    } else {
      assert t[..|t| - 1] == Zeros(m) + s[..|s| - 1];
      ZeroPaddingValue(m, s[..|s| - 1]);
    }
  }

  /** `generateSuffix(seed)`: `Math.abs(seed % 1_000_000)` in base 36, padded to four digits. */
  function GenerateSuffix(seed: int): (r: string)
    ensures |r| == 4 && IsBase36(r)
    ensures FromBase36(r) == Abs(JsRem(seed, SUFFIX_MODULUS))
  {
    var n := Abs(JsRem(seed, SUFFIX_MODULUS));
    assert Pow36(4) == 1679616;
    Base36Length(n, 4);
    var digits := ToBase36(n);
    ZeroPaddingValue(4 - |digits|, digits);
    PadStart(digits, 4)
  }

  /** Distinct seeds below 1 000 000 get distinct suffixes. */
  lemma SuffixInjective(a: nat, b: nat)
    requires a < SUFFIX_MODULUS && b < SUFFIX_MODULUS && a != b
    ensures GenerateSuffix(a) != GenerateSuffix(b)
  {
  }

  // ---------------------------------------------------------------------
  // normalizeName.

  /** The ASCII letters and digits of `s`, in order. */
  function AlnumOf(s: string): (r: string)
    ensures |r| <= |s|
    ensures forall k :: 0 <= k < |r| ==> IsAsciiAlnum(r[k])
  {
    if s == [] then [] else (if IsAsciiAlnum(s[0]) then [s[0]] else []) + AlnumOf(s[1..])
  }

  /** `s` contains an ASCII letter or digit. */
  predicate HasAlnum(s: string) {
    AlnumOf(s) != []
  }

  lemma {:induction false} HasAlnumIff(s: string)
    ensures HasAlnum(s) <==> exists k :: 0 <= k < |s| && IsAsciiAlnum(s[k])
  {
    if s != [] {
      HasAlnumIff(s[1..]);
      if !IsAsciiAlnum(s[0]) {
        if HasAlnum(s[1..]) {
          var k :| 0 <= k < |s[1..]| && IsAsciiAlnum(s[1..][k]);
          assert IsAsciiAlnum(s[k + 1]);
        }
        forall k | 1 <= k < |s| && IsAsciiAlnum(s[k]) ensures HasAlnum(s[1..]) {
          assert s[1..][k - 1] == s[k];
        }
      }
    }
  }

  lemma {:induction false} NoAlnum(s: string)
    requires forall k :: 0 <= k < |s| ==> !IsAsciiAlnum(s[k])
    ensures AlnumOf(s) == []
  {
    if s != [] {
      NoAlnum(s[1..]);
    }
  }

  predicate IsSlugChar(c: char) { IsAsciiAlnum(c) || c == '-' }

  predicate NoDoubleDash(s: string) {
    forall k :: 0 <= k < |s| - 1 ==> !(s[k] == '-' && s[k + 1] == '-')
  }

  /** First index at or after `i` holding a letter or digit (or `|s|`). */
  function SkipNonAlnum(s: string, i: nat): (j: nat)
    requires i <= |s|
    ensures i <= j <= |s|
    ensures forall k :: i <= k < j ==> !IsAsciiAlnum(s[k])
    ensures j == |s| || IsAsciiAlnum(s[j])
    decreases |s| - i
  {
    if i == |s| || IsAsciiAlnum(s[i]) then i else SkipNonAlnum(s, i + 1)
  }

  /** `replace(/[^a-z0-9]+/gi, '-')`: each maximal run of other characters becomes one '-'. */
  function CollapseRuns(s: string): (r: string)
    ensures forall k :: 0 <= k < |r| ==> IsSlugChar(r[k])
    ensures NoDoubleDash(r)
    ensures |r| == 0 <==> |s| == 0
    ensures |r| > 0 ==> (r[0] == '-' <==> !IsAsciiAlnum(s[0]))
    decreases |s|
  {
    if s == [] then []
    else if IsAsciiAlnum(s[0]) then [s[0]] + CollapseRuns(s[1..])
    else ['-'] + CollapseRuns(s[SkipNonAlnum(s, 1)..])
  }

  /** First index at or after `i` not holding '-' (or `|s|`). */
  function SkipDashes(s: string, i: nat): (j: nat)
    requires i <= |s|
    ensures i <= j <= |s|
    ensures forall k :: i <= k < j ==> s[k] == '-'
    ensures j == |s| || s[j] != '-'
    decreases |s| - i
  {
    if i == |s| || s[i] != '-' then i else SkipDashes(s, i + 1)
  }

  /** Index just past the last character before `j`, at or after `lo`, that is not '-' (or `lo`). */
  function TrailingDashesStart(s: string, lo: nat, j: nat): (e: nat)
    requires lo <= j <= |s|
    ensures lo <= e <= j
    ensures forall k :: e <= k < j ==> s[k] == '-'
    ensures e == lo || s[e - 1] != '-'
    decreases j
  {
    if j == lo || s[j - 1] != '-' then j else TrailingDashesStart(s, lo, j - 1)
  }

  /** `replace(/^-+|-+$/g, '')`: drop the leading and the trailing dashes. */
  function StripDashes(s: string): (r: string)
    ensures r == [] || (r[0] != '-' && r[|r| - 1] != '-')
  {
    var i := SkipDashes(s, 0);
    s[i..TrailingDashesStart(s, i, |s|)]
  }

  /** `Designer-` and a four-digit suffix of the clock: the name of last resort. */
  function FallbackName(now: int): (r: string)
    ensures |r| == 13 && r[0] == 'D'
  {
    DEFAULT_NAME_PREFIX + "-" + GenerateSuffix(now)
  }

  /** `normalizeName(raw)`, with `now` standing for `Date.now()`. */
  function NormalizeName(raw: string, now: int): string {
    var trimmed := Trim(raw);
    if trimmed == [] then FallbackName(now)
    else
      var sanitized := StripDashes(CollapseRuns(trimmed));
      if sanitized == [] then FallbackName(now) else ToLower(sanitized)
  }

  /** A normalised name: lower-case letters, digits and single inner dashes. */
  predicate IsSlug(s: string) {
    |s| > 0 && s[0] != '-' && s[|s| - 1] != '-' && NoDoubleDash(s)
    && forall k :: 0 <= k < |s| ==> IsAsciiLower(s[k]) || IsDigit(s[k]) || s[k] == '-'
  }

  // Helpers for the normalisation proof: each step keeps the letters and digits.

  lemma {:induction false} AlnumOfAppend(a: string, b: string)
    ensures AlnumOf(a + b) == AlnumOf(a) + AlnumOf(b)
  {
    if a != [] {
      assert (a + b)[1..] == a[1..] + b;
      AlnumOfAppend(a[1..], b);
    } else {
      assert a + b == b;
    }
  }

  lemma {:induction false} CollapseKeepsAlnum(s: string)
    ensures AlnumOf(CollapseRuns(s)) == AlnumOf(s)
    decreases |s|
  {
    if s != [] {
      if IsAsciiAlnum(s[0]) {
        CollapseKeepsAlnum(s[1..]);
        AlnumOfAppend([s[0]], CollapseRuns(s[1..]));
        AlnumOfAppend([s[0]], s[1..]);
        assert s == [s[0]] + s[1..];
      } else {
        var j := SkipNonAlnum(s, 1);
        CollapseKeepsAlnum(s[j..]);
        AlnumOfAppend(['-'], CollapseRuns(s[j..]));
        AlnumOfAppend(s[..j], s[j..]);
        assert s == s[..j] + s[j..];
        NoAlnum(s[..j]);
      }
    }
  }

  /** Removing a prefix and a suffix without letters or digits keeps the letters and digits. */
  lemma AlnumOfMiddle(s: string, i: nat, j: nat)
    requires i <= j <= |s|
    requires AlnumOf(s[..i]) == [] && AlnumOf(s[j..]) == []
    ensures AlnumOf(s[i..j]) == AlnumOf(s)
  {
    var front, middle, back := s[..i], s[i..j], s[j..];
    SplitThree(s, i, j);
    AlnumOfThree(front, middle, back);
    assert [] + AlnumOf(middle) + [] == AlnumOf(middle);
  }

  lemma NoAlnumPrefix(s: string, i: nat)
    requires i <= |s|
    requires forall k :: 0 <= k < i ==> !IsAsciiAlnum(s[k])
    ensures AlnumOf(s[..i]) == []
  {
    NoAlnum(s[..i]);
  }

  lemma NoAlnumSuffix(s: string, j: nat)
    requires j <= |s|
    requires forall k :: j <= k < |s| ==> !IsAsciiAlnum(s[k])
    ensures AlnumOf(s[j..]) == []
  {
    NoAlnum(s[j..]);
  }

  lemma SplitThree(s: string, i: nat, j: nat)
    requires i <= j <= |s|
    ensures s == s[..i] + s[i..j] + s[j..]
  {
  }

  lemma AlnumOfThree(a: string, m: string, b: string)
    ensures AlnumOf(a + m + b) == AlnumOf(a) + AlnumOf(m) + AlnumOf(b)
  {
    AlnumOfAppend(a + m, b);
    AlnumOfAppend(a, m);
  }

  lemma StripKeepsAlnum(s: string)
    ensures AlnumOf(StripDashes(s)) == AlnumOf(s)
  {
    var i := SkipDashes(s, 0);
    var j := TrailingDashesStart(s, i, |s|);
    NoAlnumPrefix(s, i);
    NoAlnumSuffix(s, j);
    AlnumOfMiddle(s, i, j);
  }

  lemma TrimKeepsAlnum(s: string)
    ensures AlnumOf(Trim(s)) == AlnumOf(s)
  {
    var i, j := TrimSplits(s);
    NoAlnumPrefix(s, i);
    NoAlnumSuffix(s, j);
    AlnumOfMiddle(s, i, j);
  }

  lemma {:induction false} LowerKeepsAlnum(s: string)
    ensures AlnumOf(ToLower(s)) == ToLower(AlnumOf(s))
    decreases |s|
  {
    if s != [] {
      LowerKeepsAlnum(s[1..]);
      assert ToLower(s) == [LowerChar(s[0])] + ToLower(s[1..]);
      AlnumOfAppend([LowerChar(s[0])], ToLower(s[1..]));
      AlnumOfAppend([s[0]], s[1..]);
      assert s == [s[0]] + s[1..];
      if IsAsciiAlnum(s[0]) {
        assert ToLower([s[0]] + AlnumOf(s[1..])) == [LowerChar(s[0])] + ToLower(AlnumOf(s[1..]));
      } else {
        assert AlnumOf([s[0]]) == [];
      }
    }
  }

  /** A slug before lower-casing: letters of either case, digits and single inner dashes. */
  predicate IsMixedSlug(s: string) {
    |s| > 0 && s[0] != '-' && s[|s| - 1] != '-' && NoDoubleDash(s)
    && forall k :: 0 <= k < |s| ==> IsSlugChar(s[k])
  }

  /** Stripping the edge dashes of a dash-collapsed string leaves a slug or nothing. */
  lemma StripKeepsSlug(c: string)
    requires forall k :: 0 <= k < |c| ==> IsSlugChar(c[k])
    requires NoDoubleDash(c)
    ensures var r := StripDashes(c); r != [] ==> IsMixedSlug(r)
  {
    var i := SkipDashes(c, 0);
    var j := TrailingDashesStart(c, i, |c|);
    var r := c[i..j];
    assert forall k :: 0 <= k < |r| ==> r[k] == c[i + k];
    assert NoDoubleDash(r) by {
      forall k | 0 <= k < |r| - 1 ensures !(r[k] == '-' && r[k + 1] == '-') {
        assert r[k] == c[i + k] && r[k + 1] == c[i + k + 1];
      }
    }
  }

  /** Sanitising keeps exactly the letters and digits and is empty only when there are none. */
  lemma SanitizeCases(t: string)
    ensures var r := StripDashes(CollapseRuns(t));
            AlnumOf(r) == AlnumOf(t) && (r == [] <==> !HasAlnum(t)) && (r != [] ==> IsMixedSlug(r))
  {
    var c := CollapseRuns(t);
    var r := StripDashes(c);
    CollapseKeepsAlnum(t);
    StripKeepsAlnum(c);
    StripKeepsSlug(c);
    if r != [] {
      assert IsAsciiAlnum(r[0]);
      assert AlnumOf(r) != [];
    }
  }

  lemma LowerSlug(s: string)
    requires IsMixedSlug(s)
    ensures IsSlug(ToLower(s))
  {
    var r := ToLower(s);
    assert NoDoubleDash(r) by {
      forall k | 0 <= k < |r| - 1 ensures !(r[k] == '-' && r[k + 1] == '-') {
        assert r[k] == LowerChar(s[k]) && r[k + 1] == LowerChar(s[k + 1]);
      }
    }
  }

  /**
   * A raw name with at least one ASCII letter or digit normalises to a slug
   * holding exactly those letters and digits, lower-cased and in order; any
   * other raw name (blank, or punctuation only) gets the fallback.
   */
  lemma NormalizeNameCases(raw: string, now: int)
    ensures HasAlnum(raw) ==> IsSlug(NormalizeName(raw, now))
                              && AlnumOf(NormalizeName(raw, now)) == ToLower(AlnumOf(raw))
    ensures !HasAlnum(raw) ==> NormalizeName(raw, now) == FallbackName(now)
  {
    var trimmed := Trim(raw);
    TrimKeepsAlnum(raw);
    SanitizeCases(trimmed);
    var sanitized := StripDashes(CollapseRuns(trimmed));
    if trimmed == [] {
      assert AlnumOf(trimmed) == [];
    } else if sanitized != [] {
      LowerSlug(sanitized);
      LowerKeepsAlnum(sanitized);
    }
  }

  /** The fallback is never a slug, so a caller can tell the two outcomes apart. */
  lemma NormalizedIsFallbackIff(raw: string, now: int)
    ensures NormalizeName(raw, now) == FallbackName(now) <==> !HasAlnum(raw)
  {
    NormalizeNameCases(raw, now);
    assert !IsAsciiLower(FallbackName(now)[0]);
  }

  // ---------------------------------------------------------------------
  // The user repository, as a list of records.

  datatype User = User(id: string, email: string, passwordHash: string, displayName: string)

  /** `users.findByEmail(email)`: the first record with that email. */
  function FindByEmail(users: seq<User>, email: string): (r: Option<User>)
    ensures r.Some? <==> exists i :: 0 <= i < |users| && users[i].email == email
    ensures r.Some? ==> r.value in users && r.value.email == email
  {
    if users == [] then None
    else if users[0].email == email then Some(users[0])
    else FindByEmail(users[1..], email)
  }

  /** `users.findById(id)`: the first record with that id. */
  function FindById(users: seq<User>, id: string): (r: Option<User>)
    ensures r.Some? <==> exists i :: 0 <= i < |users| && users[i].id == id
    ensures r.Some? ==> r.value in users && r.value.id == id
  {
    if users == [] then None
    else if users[0].id == id then Some(users[0])
    else FindById(users[1..], id)
  }

  /** `users.isDisplayNameTaken(name)`: some record carries that display name. */
  predicate NameInUse(users: seq<User>, name: string) {
    exists i :: 0 <= i < |users| && users[i].displayName == name
  }

  /** The email as register and login look it up: trimmed and lower-cased. */
  function NormalizeEmail(email: string): (r: string)
    ensures |r| <= |email|
    ensures forall k :: 0 <= k < |r| ==> !IsAsciiUpper(r[k])
    ensures r == [] || (!IsSpace(r[0]) && !IsSpace(r[|r| - 1]))
  {
    ToLower(Trim(email))
  }

  /** Normalising an address twice is normalising it once, so a validated address passes through unchanged. */
  lemma NormalizeEmailIdempotent(email: string)
    ensures NormalizeEmail(NormalizeEmail(email)) == NormalizeEmail(email)
  {
    var l := NormalizeEmail(email);
    var t := Trim(email);
    if l != [] {
      assert l[0] == LowerChar(t[0]) && l[|l| - 1] == LowerChar(t[|t| - 1]);
      assert !IsSpace(l[0]) && !IsSpace(l[|l| - 1]);
      assert SkipSpaces(l, 0) == 0;
      assert TrimEndIndex(l, 0, |l|) == |l|;
      assert l[0..|l|] == l;
    }
    assert Trim(l) == l;
    assert ToLower(l) == l;
  }

  /** An optional user id is "given" when it is present and not the empty string. */
  predicate Given(id: Option<string>) {
    id.Some? && id.value != ""
  }

  /**
   * `isDisplayNameTaken(name, exclude)`: a name in use is still free for the
   * excluded user when that user's own current name is exactly it.
   */
  function IsDisplayNameTaken(users: seq<User>, name: string, exclude: Option<string>): (taken: bool)
    ensures taken ==> NameInUse(users, name)
    ensures !Given(exclude) ==> taken == NameInUse(users, name)
  {
    var taken := NameInUse(users, name);
    if !taken || !Given(exclude) then taken
    else
      match FindById(users, exclude.value)
      case Some(u) => if u.displayName == name then false else taken
      case None => taken
  }

  /** A name in use counts as taken unless it is the excluded user's own current name. */
  lemma TakenIff(users: seq<User>, name: string, exclude: Option<string>)
    ensures IsDisplayNameTaken(users, name, exclude) <==>
      NameInUse(users, name)
      && !(Given(exclude) && FindById(users, exclude.value).Some?
           && FindById(users, exclude.value).value.displayName == name)
  {
  }

  // ---------------------------------------------------------------------
  // generateUniqueDisplayName.

  /** The name tried at `attempt`: the base itself, then the base with a suffix of the attempt number. */
  function Candidate(base: string, attempt: nat): string {
    if attempt == 0 then base else base + "-" + GenerateSuffix(attempt)
  }

  /** `Designer-` and the clock in base 36: what is returned when every candidate is taken. */
  function ExhaustedName(now: nat): string {
    DEFAULT_NAME_PREFIX + "-" + ToBase36(now)
  }

  /** The names tried, in order: attempts 0 to 19. */
  function Candidates(base: string): (cs: seq<string>)
    ensures |cs| == MAX_NAME_ATTEMPTS
    ensures forall k :: 0 <= k < |cs| ==> cs[k] == Candidate(base, k)
  {
    seq(MAX_NAME_ATTEMPTS, k requires 0 <= k => Candidate(base, k))
  }

  /** The outcome of the attempt loop from attempt `i` on. */
  function FirstFreeFrom(users: seq<User>, cs: seq<string>, exclude: Option<string>, i: nat, fallback: string): string
    requires i <= |cs|
    decreases |cs| - i
  {
    if i == |cs| then fallback
    else if !IsDisplayNameTaken(users, cs[i], exclude) then cs[i]
    else FirstFreeFrom(users, cs, exclude, i + 1, fallback)
  }

  /** `generateUniqueDisplayName(raw, exclude)`, both clock readings being `now`. */
  function UniqueDisplayName(users: seq<User>, raw: string, exclude: Option<string>, now: nat): string {
    FirstFreeFrom(users, Candidates(NormalizeName(raw, now)), exclude, 0, ExhaustedName(now))
  }

  /** The twenty candidates are pairwise distinct, so twenty different names are tried. */
  lemma CandidatesDistinct(base: string, i: nat, j: nat)
    requires i < MAX_NAME_ATTEMPTS && j < MAX_NAME_ATTEMPTS && i != j
    ensures Candidate(base, i) != Candidate(base, j)
  {
    var ci, cj := Candidate(base, i), Candidate(base, j);
    if i > 0 && j > 0 {
      SuffixInjective(i, j);
      assert ci[|base| + 1..] == GenerateSuffix(i);
      assert cj[|base| + 1..] == GenerateSuffix(j);
    } else {
      assert |ci| != |cj|;
    }
  }

  /** Position `k` holds the first name from `from` on that is not taken. */
  predicate FirstFreeAt(users: seq<User>, cs: seq<string>, exclude: Option<string>, from: nat, k: nat) {
    from <= k < |cs|
    && !IsDisplayNameTaken(users, cs[k], exclude)
    && forall m :: from <= m < k ==> IsDisplayNameTaken(users, cs[m], exclude)
  }

  /** Every name from `from` on is taken. */
  predicate AllTaken(users: seq<User>, cs: seq<string>, exclude: Option<string>, from: nat) {
    forall m :: from <= m < |cs| ==> IsDisplayNameTaken(users, cs[m], exclude)
  }

  /**
   * The loop returns the first candidate that is not taken, every earlier
   * one being taken; when all are taken it returns the fallback.
   */
  lemma {:induction false} FirstFreeFromSpec(users: seq<User>, cs: seq<string>, exclude: Option<string>, i: nat, fallback: string)
    requires i <= |cs|
    ensures var r := FirstFreeFrom(users, cs, exclude, i, fallback);
      (exists k: nat :: FirstFreeAt(users, cs, exclude, i, k) && r == cs[k])
      || (r == fallback && AllTaken(users, cs, exclude, i))
    decreases |cs| - i
  {
    if i < |cs| {
      if IsDisplayNameTaken(users, cs[i], exclude) {
        FirstFreeFromSpec(users, cs, exclude, i + 1, fallback);
      } else {
        assert FirstFreeAt(users, cs, exclude, i, i);
      }
    }
  }

  /**
   * `generateUniqueDisplayName` returns the first of the twenty candidates
   * that is not taken, every earlier one being taken, or `Designer-` and the
   * clock in base 36 when all twenty are taken.
   */
  lemma UniqueDisplayNameSpec(users: seq<User>, raw: string, exclude: Option<string>, now: nat)
    ensures var cs := Candidates(NormalizeName(raw, now));
            var r := UniqueDisplayName(users, raw, exclude, now);
      (exists k: nat :: FirstFreeAt(users, cs, exclude, 0, k) && r == cs[k])
      || (r == ExhaustedName(now) && AllTaken(users, cs, exclude, 0))
  {
    FirstFreeFromSpec(users, Candidates(NormalizeName(raw, now)), exclude, 0, ExhaustedName(now));
  }

  /** With nobody else holding the normalised name, it is returned unchanged. */
  lemma FreeBaseIsKept(users: seq<User>, raw: string, exclude: Option<string>, now: nat)
    requires !NameInUse(users, NormalizeName(raw, now))
    ensures UniqueDisplayName(users, raw, exclude, now) == NormalizeName(raw, now)
  {
  }

  // ---------------------------------------------------------------------
  // register, login, updateDisplayName.

  const EMAIL_TAKEN: ApiError := Plain(CONFLICT, "EMAIL_TAKEN", "An account with this email already exists")
  const INVALID_CREDENTIALS: ApiError := Plain(UNAUTHORIZED, "INVALID_CREDENTIALS", "Invalid email or password")
  const USER_NOT_FOUND: ApiError := Plain(NOT_FOUND, "USER_NOT_FOUND", "User not found")

  /**
   * `register`: the new record, or `EMAIL_TAKEN` when the normalised email
   * is already registered. `hash` stands for `bcrypt.hash` and `newId` for
   * the id the database assigns.
   */
  function RegisterOutcome(users: seq<User>, email: string, password: string, name: Option<string>,
                           now: nat, hash: string -> string, newId: string): (r: Result<User, ApiError>)
    ensures r.Err? <==> FindByEmail(users, NormalizeEmail(email)).Some?
    ensures r.Err? ==> r.error == EMAIL_TAKEN
    ensures r.Ok? ==> r.value.id == newId && r.value.email == NormalizeEmail(email)
                      && r.value.passwordHash == hash(password)
    ensures r.Ok? ==> r.value.displayName == UniqueDisplayName(users, name.GetOr(NormalizeEmail(email)), None, now)
  {
    var normalizedEmail := NormalizeEmail(email);
    if FindByEmail(users, normalizedEmail).Some? then Err(EMAIL_TAKEN)
    else
      var displayName := UniqueDisplayName(users, name.GetOr(normalizedEmail), None, now);
      Ok(User(newId, normalizedEmail, hash(password), displayName))
  }

  /**
   * A new account's display name is not held by any existing account, unless
   * all twenty candidates were taken and the clock-based fallback was used.
   */
  lemma RegisteredNameIsFree(users: seq<User>, email: string, password: string, name: Option<string>,
                             now: nat, hash: string -> string, newId: string)
    requires RegisterOutcome(users, email, password, name, now, hash, newId).Ok?
    ensures var n := RegisterOutcome(users, email, password, name, now, hash, newId).value.displayName;
            !IsDisplayNameTaken(users, n, None) || n == ExhaustedName(now)
  {
    UniqueDisplayNameSpec(users, name.GetOr(NormalizeEmail(email)), None, now);
  }

  /** `login`: the record, or the same `INVALID_CREDENTIALS` for an unknown email and for a wrong password. */
  function LoginOutcome(users: seq<User>, email: string, password: string,
                        matches: (string, string) -> bool): (r: Result<User, ApiError>)
    ensures r.Ok? <==> (FindByEmail(users, NormalizeEmail(email)).Some?
                        && matches(password, FindByEmail(users, NormalizeEmail(email)).value.passwordHash))
    ensures r.Ok? ==> r.value == FindByEmail(users, NormalizeEmail(email)).value
    ensures r.Err? ==> r.error == INVALID_CREDENTIALS
  {
    match FindByEmail(users, NormalizeEmail(email))
    case None => Err(INVALID_CREDENTIALS)
    case Some(user) => if matches(password, user.passwordHash) then Ok(user) else Err(INVALID_CREDENTIALS)
  }

  /** Login does not reveal whether the email exists: both failures are the same error. */
  lemma LoginFailuresIndistinguishable(users: seq<User>, unknown: string, known: string, wrong: string,
                                       matches: (string, string) -> bool)
    requires FindByEmail(users, NormalizeEmail(unknown)).None?
    requires FindByEmail(users, NormalizeEmail(known)).Some?
    requires !matches(wrong, FindByEmail(users, NormalizeEmail(known)).value.passwordHash)
    ensures LoginOutcome(users, unknown, wrong, matches) == LoginOutcome(users, known, wrong, matches)
  {
  }

  class UserService {
    /** The user repository's records. */
    var users: seq<User>

    constructor (users: seq<User>)
      ensures this.users == users
    {
      this.users := users;
    }

    /** `generateUniqueDisplayName`: try the base, then up to nineteen suffixed names. */
    method GenerateUniqueDisplayName(raw: string, exclude: Option<string>, now: nat) returns (name: string)
      ensures name == UniqueDisplayName(users, raw, exclude, now)
    {
      var baseCandidate := NormalizeName(raw, now);
      ghost var cs := Candidates(baseCandidate);
      ghost var fallback := ExhaustedName(now);
      ghost var target := FirstFreeFrom(users, cs, exclude, 0, fallback);
      assert target == UniqueDisplayName(users, raw, exclude, now);
      var attempt := 0;
      while attempt < MAX_NAME_ATTEMPTS
        invariant attempt <= MAX_NAME_ATTEMPTS
        invariant FirstFreeFrom(users, cs, exclude, attempt, fallback) == target
      {
        var candidate := Candidate(baseCandidate, attempt);
        assert candidate == cs[attempt];
        var taken := IsDisplayNameTaken(users, candidate, exclude);
        if !taken {
          return candidate;
        }
        attempt := attempt + 1;
      }
      name := ExhaustedName(now);
    }

    method Register(email: string, password: string, name: Option<string>, now: nat,
                    hash: string -> string, newId: string) returns (r: Result<User, ApiError>)
      modifies this
      ensures r == RegisterOutcome(old(users), email, password, name, now, hash, newId)
      ensures users == if r.Ok? then old(users) + [r.value] else old(users)
    {
      var normalizedEmail := ToLower(Trim(email));
      var existing := FindByEmail(users, normalizedEmail);
      if existing.Some? {
        return Err(EMAIL_TAKEN);
      }
      var displayName := GenerateUniqueDisplayName(name.GetOr(normalizedEmail), None, now);
      var passwordHash := hash(password);
      var user := User(newId, normalizedEmail, passwordHash, displayName);
      users := users + [user];
      r := Ok(user);
    }

    method Login(email: string, password: string, matches: (string, string) -> bool) returns (r: Result<User, ApiError>)
      ensures r == LoginOutcome(users, email, password, matches)
    {
      var normalizedEmail := ToLower(Trim(email));
      var user := FindByEmail(users, normalizedEmail);
      if user.None? {
        return Err(INVALID_CREDENTIALS);
      }
      var valid := matches(password, user.value.passwordHash);
      if !valid {
        return Err(INVALID_CREDENTIALS);
      }
      r := Ok(user.value);
    }

    /**
     * `updateDisplayName`: the unique name is computed first (excluding the
     * user), then written to every record with that id; `USER_NOT_FOUND` when
     * there is none.
     */
    method UpdateDisplayName(userId: string, name: string, now: nat) returns (r: Result<User, ApiError>)
      modifies this
      ensures FindById(old(users), userId).None? ==> r == Err(USER_NOT_FOUND) && users == old(users)
      ensures FindById(old(users), userId).Some? ==>
        var displayName := UniqueDisplayName(old(users), name, Some(userId), now);
        r == Ok(FindById(old(users), userId).value.(displayName := displayName))
        && users == Rename(old(users), userId, displayName)
    {
      var displayName := GenerateUniqueDisplayName(name, Some(userId), now);
      var existing := FindById(users, userId);
      if existing.None? {
        return Err(USER_NOT_FOUND);
      }
      users := Rename(users, userId, displayName);
      r := Ok(existing.value.(displayName := displayName));
    }
  }

  /** `findByIdAndUpdate(id, { displayName })` on the record list. */
  function Rename(users: seq<User>, id: string, displayName: string): (r: seq<User>)
    ensures |r| == |users|
    ensures forall i :: 0 <= i < |users| ==>
      r[i] == if users[i].id == id then users[i].(displayName := displayName) else users[i]
  {
    seq(|users|, i requires 0 <= i < |users| => if users[i].id == id then users[i].(displayName := displayName) else users[i])
  }
}
