/**
 * The backend's configuration defaults (backend/src/config/env.ts): the
 * allowed client origins parsed from a comma-separated variable, and the
 * port. Environment variables are parameters (`None` when unset).
 */
module Env {
  import opened Wrappers
  import opened Strings

  const DEFAULT_CLIENT_URL := "http://localhost:5173"
  const DEFAULT_PORT := "4000"
  const DEFAULT_NODE_ENV := "development"
  const DEFAULT_MONGO_URI := "mongodb://localhost:27017/rocketium"

  /** `CLIENT_URLS ?? CLIENT_URL ?? default`: a set variable wins even when it is empty. */
  function RawClientUrls(clientUrls: Option<string>, clientUrl: Option<string>): (r: string)
    ensures clientUrls.Some? ==> r == clientUrls.value
    ensures clientUrls.None? && clientUrl.Some? ==> r == clientUrl.value
    ensures clientUrls.None? && clientUrl.None? ==> r == DEFAULT_CLIENT_URL
  {
    if clientUrls.Some? then clientUrls.value else if clientUrl.Some? then clientUrl.value else DEFAULT_CLIENT_URL
  }

  /** `.map(trim).filter(url => url.length > 0)`. */
  function TrimmedNonEmpty(parts: seq<string>): (r: seq<string>)
    ensures |r| <= |parts|
  {
    if parts == [] then []
    else
      var t := Trim(parts[0]);
      (if t == "" then [] else [t]) + TrimmedNonEmpty(parts[1..])
  }

  /** `raw.split(',').map(trim).filter(nonEmpty)`. */
  function ClientUrls(raw: string): seq<string> {
    TrimmedNonEmpty(Split(raw, ','))
  }

  /** Every entry is non-empty and already trimmed. */
  lemma {:induction false} TrimmedAreClean(parts: seq<string>)
    ensures var r := TrimmedNonEmpty(parts);
      forall i :: 0 <= i < |r| ==> r[i] != "" && Trim(r[i]) == r[i]
  {
    if parts != [] {
      TrimmedAreClean(parts[1..]);
      assert forall i :: 0 <= i < |TrimmedNonEmpty(parts[1..])| ==>
        TrimmedNonEmpty(parts[1..])[i] != "" && Trim(TrimmedNonEmpty(parts[1..])[i]) == TrimmedNonEmpty(parts[1..])[i];
      var t := Trim(parts[0]);
      var head: seq<string> := if t == "" then [] else [t];
      var rest := TrimmedNonEmpty(parts[1..]);
      var r := TrimmedNonEmpty(parts);
      assert r == head + rest;
      if t != "" {
        TrimIdempotent(parts[0]);
      }
      forall i | 0 <= i < |r| ensures r[i] != "" && Trim(r[i]) == r[i] {
        if i >= |head| {
          assert r[i] == rest[i - |head|];
        }
      }
    }
  }

  /** Every piece that is not blank is kept, trimmed. */
  lemma {:induction false} TrimmedKeepsNonBlank(parts: seq<string>)
    ensures var r := TrimmedNonEmpty(parts);
      forall p :: p in parts && Trim(p) != "" ==> Trim(p) in r
  {
    if parts != [] {
      TrimmedKeepsNonBlank(parts[1..]);
      forall p | p in parts && Trim(p) != "" ensures Trim(p) in TrimmedNonEmpty(parts) {
        if p != parts[0] {
          assert p in parts[1..];
        }
      }
    }
  }

  /** Every entry is the trimmed form of one of the pieces. */
  lemma {:induction false} TrimmedFromParts(parts: seq<string>)
    ensures var r := TrimmedNonEmpty(parts);
      forall u :: u in r ==> exists p :: p in parts && u == Trim(p)
  {
    if parts != [] {
      TrimmedFromParts(parts[1..]);
      assert forall u :: u in TrimmedNonEmpty(parts[1..]) ==> exists p :: p in parts[1..] && u == Trim(p);
      var t := Trim(parts[0]);
      var head: seq<string> := if t == "" then [] else [t];
      var rest := TrimmedNonEmpty(parts[1..]);
      assert TrimmedNonEmpty(parts) == head + rest;
      forall u | u in TrimmedNonEmpty(parts) ensures exists p :: p in parts && u == Trim(p) {
        if u in head {
          assert parts[0] in parts;
        } else {
          var p :| p in parts[1..] && u == Trim(p);
          assert p in parts;
        }
      }
    }
  }

  /** The entries are exactly the trimmed non-blank pieces. */
  lemma TrimmedNonEmptySpec(parts: seq<string>)
    ensures var r := TrimmedNonEmpty(parts);
      (forall i :: 0 <= i < |r| ==> r[i] != "" && Trim(r[i]) == r[i])
      && (forall p :: p in parts && Trim(p) != "" ==> Trim(p) in r)
      && (forall u :: u in r ==> exists p :: p in parts && u == Trim(p))
  {
    TrimmedAreClean(parts);
    TrimmedKeepsNonBlank(parts);
    TrimmedFromParts(parts);
  }

  /** Trimming and filtering distribute over concatenation, so the entries keep the pieces' order. */
  lemma {:induction false} TrimmedNonEmptyAppend(a: seq<string>, b: seq<string>)
    ensures TrimmedNonEmpty(a + b) == TrimmedNonEmpty(a) + TrimmedNonEmpty(b)
  {
    if a != [] {
      assert (a + b)[1..] == a[1..] + b;
      TrimmedNonEmptyAppend(a[1..], b);
    } else {
      assert a + b == b;
    }
  }

  /** The first separator of `a + [c] + b` is the one after `a` when `a` has none. */
  lemma {:induction false} FirstIndexAfterPrefix(a: string, b: string, c: char)
    requires c !in a
    ensures c in a + [c] + b && FirstIndexOf(a + [c] + b, c) == |a|
  {
    var s := a + [c] + b;
    assert s[|a|] == c;
    if a != [] {
      assert s[1..] == a[1..] + [c] + b;
      FirstIndexAfterPrefix(a[1..], b, c);
    }
  }

  /**
   * The origins named before the first comma come first, then those after it:
   * the allowed origins are listed in the order the variable names them.
   */
  lemma ClientUrlsOfJoined(a: string, b: string)
    requires ',' !in a
    ensures ClientUrls(a + [','] + b) == ClientUrls(a) + ClientUrls(b)
  {
    var s := a + [','] + b;
    FirstIndexAfterPrefix(a, b, ',');
    assert s[..|a|] == a && s[|a| + 1..] == b;
    assert Split(s, ',') == [a] + Split(b, ',');
    TrimmedNonEmptyAppend([a], Split(b, ','));
  }

  /** Trimming an already trimmed string changes nothing. */
  lemma TrimIdempotent(s: string)
    ensures Trim(Trim(s)) == Trim(s)
  {
    var t := Trim(s);
    if t != [] {
      assert SkipSpaces(t, 0) == 0;
      assert TrimEndIndex(t, 0, |t|) == |t|;
      assert t[0..|t|] == t;
    }
  }

  /** Trimming cannot bring in a character the string lacks. */
  lemma TrimKeepsAbsent(p: string, c: char)
    requires c !in p
    ensures c !in Trim(p)
  {
    var a, b := TrimSplits(p);
    assert forall x :: x in p[a..b] ==> x in p;
  }

  /** Every allowed origin is trimmed and non-empty; each non-blank piece of the raw string is one of them. */
  lemma ClientUrlsSpec(raw: string)
    ensures var r := ClientUrls(raw);
      (forall i :: 0 <= i < |r| ==> r[i] != "" && Trim(r[i]) == r[i] && ',' !in r[i])
      && (forall p :: p in Split(raw, ',') && Trim(p) != "" ==> Trim(p) in r)
  {
    var parts := Split(raw, ',');
    TrimmedAreClean(parts);
    TrimmedKeepsNonBlank(parts);
    TrimmedFromParts(parts);
    var r := TrimmedNonEmpty(parts);
    forall i | 0 <= i < |r| ensures ',' !in r[i] {
      assert r[i] in r;
      var p :| p in parts && r[i] == Trim(p);
      TrimKeepsAbsent(p, ',');
    }
  }

  /** Without a comma there is at most one origin, and a set but empty `CLIENT_URLS` allows none. */
  lemma FewOrigins(raw: string, clientUrl: Option<string>)
    ensures ',' !in raw ==> |ClientUrls(raw)| <= 1
    ensures ClientUrls(RawClientUrls(Some(""), clientUrl)) == []
  {
    assert ',' !in "";
    assert Trim("") == "";
  }

  /** `parseInt(s, 10)`: leading white space, an optional sign, then the longest run of digits; `None` is NaN. */
  function DigitsEnd(s: string, i: nat): (e: nat)
    requires i <= |s|
    ensures i <= e <= |s|
    ensures forall k :: i <= k < e ==> IsDigit(s[k])
    ensures e == |s| || !IsDigit(s[e])
    decreases |s| - i
  {
    if i < |s| && IsDigit(s[i]) then DigitsEnd(s, i + 1) else i
  }

  /** The value of a run of decimal digits, most significant first. */
  function DecimalValue(digits: string): (n: int)
    requires forall k :: 0 <= k < |digits| ==> IsDigit(digits[k])
    ensures n >= 0
  {
    if digits == [] then 0
    else
      var last := digits[|digits| - 1];
      assert IsDigit(digits[|digits| - 1]);
      10 * DecimalValue(digits[..|digits| - 1]) + (last as int - '0' as int)
  }

  function ParseInt(s: string): (r: Option<int>)
  {
    var i := SkipSpaces(s, 0);
    var negative := i < |s| && s[i] == '-';
    var start := if i < |s| && (s[i] == '-' || s[i] == '+') then i + 1 else i;
    var end := DigitsEnd(s, start);
    if end == start then None
    else
      var n: int := DecimalValue(s[start..end]);
      Some(if negative then -n else n)
  }

  /** `parseInt(PORT ?? '4000', 10)`. */
  function Port(portVar: Option<string>): Option<int> {
    ParseInt(if portVar.Some? then portVar.value else DEFAULT_PORT)
  }

  lemma DefaultPort()
    ensures Port(None) == Some(4000)
  {
    var s := DEFAULT_PORT;
    assert !IsSpace(s[0]);
    assert DigitsEnd(s, 0) == 4;
    assert s[0..4] == s;
    assert DecimalValue("4") == 4;
    assert DecimalValue("40") == 40 by { assert "40"[..1] == "4"; }
    assert DecimalValue("400") == 400 by { assert "400"[..2] == "40"; }
    assert DecimalValue("4000") == 4000 by { assert "4000"[..3] == "400"; }
  }

  predicate AllSpaces(ws: string) { forall k :: 0 <= k < |ws| ==> IsSpace(ws[k]) }
  predicate AllDigits(digits: string) { forall k :: 0 <= k < |digits| ==> IsDigit(digits[k]) }

  /**
   * `parseInt(s, 10)` on any string made of leading white space, an optional
   * sign, a non-empty run of digits and a rest that does not go on with a
   * digit: the value of that run, negated after a `-`; the rest is ignored.
   */
  lemma ParseIntOfParts(ws: string, sign: string, digits: string, rest: string)
    requires AllSpaces(ws)
    requires sign == "" || sign == "-" || sign == "+"
    requires digits != [] && AllDigits(digits)
    requires rest == [] || !IsDigit(rest[0])
    ensures ParseInt(ws + sign + digits + rest) ==
      Some(if sign == "-" then -DecimalValue(digits) else DecimalValue(digits))
  {
    var s, i, start := ws + sign + digits + rest, |ws|, |ws| + |sign|;
    PartsLayout(ws, sign, digits, rest);
    ParseIntAt(s, i, sign == "-", start, digits);
  }

  /** `ParseInt` once the white space, the sign and the digit run have been located. */
  lemma ParseIntAt(s: string, i: nat, negative: bool, start: nat, digits: string)
    requires SkipSpaces(s, 0) == i && i < |s| && (s[i] == '-' <==> negative)
    requires start == if s[i] == '-' || s[i] == '+' then i + 1 else i
    requires digits != [] && AllDigits(digits)
    requires start + |digits| <= |s| && DigitsEnd(s, start) == start + |digits|
    requires s[start..start + |digits|] == digits
    ensures ParseInt(s) == Some(if negative then -DecimalValue(digits) else DecimalValue(digits))
  {
  }

  /** Where `ParseInt` finds the white space, the sign and the digit run of a string built from those parts. */
  lemma PartsLayout(ws: string, sign: string, digits: string, rest: string)
    requires AllSpaces(ws)
    requires sign == "" || sign == "-" || sign == "+"
    requires digits != [] && AllDigits(digits)
    requires rest == [] || !IsDigit(rest[0])
    ensures var s, i, start := ws + sign + digits + rest, |ws|, |ws| + |sign|;
      && SkipSpaces(s, 0) == i && i < |s|
      && ((s[i] == '-' || s[i] == '+') <==> sign != "")
      && (s[i] == '-' <==> sign == "-")
      && DigitsEnd(s, start) == start + |digits|
      && s[start..start + |digits|] == digits
  {
    var s := ws + sign + digits + rest;
    var i, start := |ws|, |ws| + |sign|;
    assert s == ws + (sign + digits + rest);
    assert s[i] == if sign == "" then digits[0] else sign[0];
    assert IsDigit(digits[0]);
    SpacesThen(ws, sign + digits + rest);
    assert s == (ws + sign) + digits + rest;
    DigitRunThen(ws + sign, digits, rest);
    assert i < |s| && (s[i] == '-' || s[i] == '+') <==> sign != "";
    assert i < |s| && s[i] == '-' <==> sign == "-";
  }

  /**
   * `parseInt(s, 10)` is `NaN` when, after the white space and an optional
   * sign, no digit follows.
   */
  lemma ParseIntNoDigits(ws: string, sign: string, rest: string)
    requires AllSpaces(ws)
    requires sign == "-" || sign == "+" || rest == [] || (!IsSpace(rest[0]) && rest[0] != '-' && rest[0] != '+')
    requires sign == "" || sign == "-" || sign == "+"
    requires rest == [] || !IsDigit(rest[0])
    ensures ParseInt(ws + sign + rest) == None
  {
    var s := ws + sign + rest;
    assert s == ws + (sign + rest);
    if sign != "" {
      assert (sign + rest)[0] == sign[0];
    }
    SpacesThen(ws, sign + rest);
    DigitRunThen(ws + sign, "", rest);
  }

  /** White space followed by a non-space: `SkipSpaces` lands right after the white space. */
  lemma SpacesThen(ws: string, t: string)
    requires AllSpaces(ws)
    requires t == [] || !IsSpace(t[0])
    ensures SkipSpaces(ws + t, 0) == |ws|
  {
    var s := ws + t;
    assert forall k :: 0 <= k < |ws| ==> s[k] == ws[k];
    assert |ws| < |s| ==> s[|ws|] == t[0];
  }

  /** A digit run followed by a non-digit: `DigitsEnd` stops right after the run, which is the slice it returns. */
  lemma DigitRunThen(p: string, digits: string, rest: string)
    requires AllDigits(digits)
    requires rest == [] || !IsDigit(rest[0])
    ensures DigitsEnd(p + digits + rest, |p|) == |p| + |digits|
    ensures (p + digits + rest)[|p|..|p| + |digits|] == digits
  {
    var s := p + digits + rest;
    var j := |p| + |digits|;
    assert forall k :: |p| <= k < j ==> s[k] == digits[k - |p|];
    assert j < |s| ==> s[j] == rest[0];
    assert s[|p|..j] == digits;
  }

  /** A PORT made only of digits gives the port with that decimal value. */
  lemma PortOfDigits(p: string)
    requires p != [] && AllDigits(p)
    ensures Port(Some(p)) == Some(DecimalValue(p))
  {
    var empty: string := [];
    assert empty + empty + p + empty == p;
    ParseIntOfParts(empty, empty, p, empty);
  }

  /** `parseInt` stops at the first non-digit and ignores leading white space. */
  lemma ParseIntExamples()
    ensures ParseInt(" 8080abc") == Some(8080)
    ensures ParseInt("abc") == None
  {
    var s := " 8080abc";
    assert IsSpace(s[0]) && !IsSpace(s[1]);
    assert SkipSpaces(s, 0) == 1;
    assert DigitsEnd(s, 1) == 5;
    var d := s[1..5];
    assert d == "8080";
    assert DecimalValue("8") == 8;
    assert DecimalValue("80") == 80 by { assert "80"[..1] == "8"; }
    assert DecimalValue("808") == 808 by { assert "808"[..2] == "80"; }
    assert DecimalValue("8080") == 8080 by { assert "8080"[..3] == "808"; }
    assert !IsSpace("abc"[0]) && !IsDigit("abc"[0]);
  }
}
