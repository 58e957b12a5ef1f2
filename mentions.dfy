/**
 * Mention extraction (backend/src/utils/mentions.ts): scan a comment for
 * `@name` tokens with the global regex `/@([a-zA-Z0-9._-]+)/g` and collect
 * the captured names in a `Set`, which keeps insertion order.
 *
 * `Captures` is what the regex yields, match by match; `Dedup` is what the
 * `Set` keeps of it; `ExtractMentions` is the scanning loop, proved equal
 * to `Mentions`.
 */
module Mentions {
  import opened Strings

  /** The character class `[a-zA-Z0-9._-]`. */
  predicate IsMentionChar(c: char) {
    IsAsciiAlnum(c) || c == '.' || c == '_' || c == '-'
  }

  /** A name the regex can capture: non-empty, made of class characters only. */
  predicate IsMentionName(m: string) {
    |m| > 0 && forall k :: 0 <= k < |m| ==> IsMentionChar(m[k])
  }

  /** The end of the run of class characters that starts at `i` (the greedy `+`). */
  function RunEnd(s: string, i: nat): (e: nat)
    requires i <= |s|
    ensures i <= e <= |s|
    ensures forall k :: i <= k < e ==> IsMentionChar(s[k])
    ensures e == |s| || !IsMentionChar(s[e])
    decreases |s| - i
  {
    if i < |s| && IsMentionChar(s[i]) then RunEnd(s, i + 1) else i
  }

  /** The regex matches starting at position `i`: an '@' followed by at least one class character. */
  predicate MatchesAt(s: string, i: nat) {
    i + 1 < |s| && s[i] == '@' && IsMentionChar(s[i + 1])
  }

  /** `m` is the capture of a match at `i`: it follows the '@' and the run cannot be extended. */
  predicate IsMaximalMentionAt(s: string, i: nat, m: string) {
    i + 1 + |m| <= |s| && s[i] == '@' && s[i + 1..i + 1 + |m|] == m
    && (i + 1 + |m| == |s| || !IsMentionChar(s[i + 1 + |m|]))
  }

  /**
   * The captures successive `exec` calls return when `lastIndex` starts at
   * `from`: the search resumes where the previous match ended.
   */
  function Captures(s: string, from: nat): (r: seq<string>)
    requires from <= |s|
    ensures forall k :: 0 <= k < |r| ==> IsMentionName(r[k])
    decreases |s| - from
  {
    if from == |s| then []
    else if MatchesAt(s, from) then
      var e := RunEnd(s, from + 1);
      [s[from + 1..e]] + Captures(s, e)
    else Captures(s, from + 1)
  }

  predicate NoDuplicates(xs: seq<string>) {
    forall i, j :: 0 <= i < j < |xs| ==> xs[i] != xs[j]
  }

  /** What a `Set` filled from `xs` in order holds, in its iteration order. */
  function Dedup(xs: seq<string>): (r: seq<string>)
    ensures forall x :: x in r <==> x in xs
    ensures NoDuplicates(r)
  {
    if xs == [] then []
    else
      var p := xs[..|xs| - 1];
      var x := xs[|xs| - 1];
      assert xs == p + [x];
      var d := Dedup(p);
      if x in d then d else d + [x]
  }

  /** The value of `extractMentions(message)`. */
  function Mentions(message: string): seq<string> {
    Dedup(Captures(message, 0))
  }

  /** The index of the first occurrence of `x` in `xs`. */
  function FirstIndex(xs: seq<string>, x: string): (k: nat)
    requires x in xs
    ensures k < |xs| && xs[k] == x && x !in xs[..k]
  {
    if xs[0] == x then 0
    else
      var k := FirstIndex(xs[1..], x);
      assert xs[..k + 1] == [xs[0]] + xs[1..][..k];
      k + 1
  }

  // ---------------------------------------------------------------------
  // The loop.

  /** The greedy `[a-zA-Z0-9._-]+`: where the run of class characters starting at `start` ends. */
  method ScanRun(message: string, start: nat) returns (end: nat)
    requires start <= |message|
    ensures end == RunEnd(message, start)
  {
    end := start;
    while end < |message| && IsMentionChar(message[end])
      invariant start <= end <= |message|
      invariant RunEnd(message, end) == RunEnd(message, start)
    {
      end := end + 1;
    }
  }

  /** `extractMentions`: the `exec` loop, with the regex's own search inlined. */
  method ExtractMentions(message: string) returns (mentions: seq<string>)
    ensures mentions == Mentions(message)
  {
    mentions := [];
    ghost var seen: seq<string> := [];
    var lastIndex := 0;
    while lastIndex < |message|
      invariant lastIndex <= |message|
      invariant Captures(message, 0) == seen + Captures(message, lastIndex)
      invariant mentions == Dedup(seen)
    {
      if MatchesAt(message, lastIndex) {
        var end := ScanRun(message, lastIndex + 1);
        var mention := message[lastIndex + 1..end];
        CapturesAfterMatch(message, seen, lastIndex, end);
        DedupSnoc(seen, mention);
        if |mention| > 0 {
          if mention !in mentions {
            mentions := mentions + [mention];
          }
        }
        seen := seen + [mention];
        lastIndex := end;
      } else {
        CapturesNoMatch(message, lastIndex);
        lastIndex := lastIndex + 1;
      }
    }
    assert seen + Captures(message, lastIndex) == seen;
  }

  /** The loop's step at a match: the capture joins `seen` and the search resumes at the run's end. */
  lemma CapturesAfterMatch(s: string, seen: seq<string>, i: nat, e: nat)
    requires MatchesAt(s, i) && e == RunEnd(s, i + 1)
    requires Captures(s, 0) == seen + Captures(s, i)
    ensures |s[i + 1..e]| > 0
    ensures Captures(s, 0) == (seen + [s[i + 1..e]]) + Captures(s, e)
  {
    CapturesAtMatch(s, i, e);
  }

  /** Adding one name to the `Set`: kept when new, ignored when already present. */
  lemma DedupSnoc(xs: seq<string>, x: string)
    ensures Dedup(xs + [x]) == if x in Dedup(xs) then Dedup(xs) else Dedup(xs) + [x]
  {
    assert (xs + [x])[..|xs|] == xs;
  }

  /** A position where the regex does not match contributes nothing. */
  lemma CapturesNoMatch(s: string, i: nat)
    requires i < |s| && !MatchesAt(s, i)
    ensures Captures(s, i) == Captures(s, i + 1)
  {
  }

  // ---------------------------------------------------------------------
  // Properties.

  /** Every returned mention is a non-empty run of class characters that occurs in the message. */
  lemma MentionsAreNames(message: string)
    ensures forall m :: m in Mentions(message) ==> IsMentionName(m)
  {
    forall m | m in Mentions(message) ensures IsMentionName(m) {
      var cs := Captures(message, 0);
      var k :| 0 <= k < |cs| && cs[k] == m;
    }
  }

  /** The result has no duplicates, and a name is in it exactly when the regex captured it. */
  lemma MentionsAreTheDistinctCaptures(message: string)
    ensures NoDuplicates(Mentions(message))
    ensures forall m :: m in Mentions(message) <==> m in Captures(message, 0)
  {
  }

  /** Each capture is a maximal run right after an '@'. */
  lemma {:induction false} CapturesAreMaximal(s: string, from: nat)
    requires from <= |s|
    ensures forall m :: m in Captures(s, from) ==> exists i :: from <= i && IsMaximalMentionAt(s, i, m)
    decreases |s| - from
  {
    if from < |s| {
      if MatchesAt(s, from) {
        var e := RunEnd(s, from + 1);
        CapturesAreMaximal(s, e);
        var m0 := s[from + 1..e];
        assert IsMaximalMentionAt(s, from, m0);
      } else {
        CapturesAreMaximal(s, from + 1);
      }
    }
  }

  lemma MentionsAreMaximal(message: string)
    ensures forall m :: m in Mentions(message) ==> exists i :: IsMaximalMentionAt(message, i, m)
  {
    CapturesAreMaximal(message, 0);
  }

  /** A message without '@' mentions nobody. */
  lemma {:induction false} NoAtNoCaptures(s: string, from: nat)
    requires from <= |s| && '@' !in s
    ensures Captures(s, from) == []
    decreases |s| - from
  {
    if from < |s| {
      NoAtNoCaptures(s, from + 1);
    }
  }

  lemma NoAtNoMentions(message: string)
    requires '@' !in message
    ensures Mentions(message) == []
  {
    NoAtNoCaptures(message, 0);
  }

  lemma FirstIndexIsUnique(xs: seq<string>, x: string, k: nat)
    requires k < |xs| && xs[k] == x && x !in xs[..k]
    ensures FirstIndex(xs, x) == k
  {
  }

  /** The `Set` lists names in order of their first occurrence in the input. */
  lemma {:induction false} DedupKeepsFirstOccurrenceOrder(xs: seq<string>)
    ensures forall i, j :: 0 <= i < j < |Dedup(xs)| ==> FirstIndex(xs, Dedup(xs)[i]) < FirstIndex(xs, Dedup(xs)[j])
  {
    if xs != [] {
      var p := xs[..|xs| - 1];
      var x := xs[|xs| - 1];
      assert xs == p + [x];
      DedupKeepsFirstOccurrenceOrder(p);
      var d := Dedup(p);
      forall y | y in p ensures FirstIndex(xs, y) == FirstIndex(p, y) {
        var k := FirstIndex(p, y);
        assert xs[..k] == p[..k];
        FirstIndexIsUnique(xs, y, k);
      }
      if x !in p {
        assert xs[..|p|] == p;
        FirstIndexIsUnique(xs, x, |p|);
        var r := d + [x];
        assert Dedup(xs) == r;
        forall i, j | 0 <= i < j < |r| ensures FirstIndex(xs, r[i]) < FirstIndex(xs, r[j]) {
          assert r[i] == d[i] && d[i] in p;
          assert FirstIndex(xs, r[i]) == FirstIndex(p, d[i]) < |p|;
          if j < |d| {
            assert r[j] == d[j] && d[j] in p;
            assert FirstIndex(xs, r[j]) == FirstIndex(p, d[j]);
            assert FirstIndex(p, d[i]) < FirstIndex(p, d[j]);
          } else {
            assert r[j] == x;
            assert FirstIndex(xs, x) == |p|;
          }
        }
      } else {
        assert Dedup(xs) == d;
        forall i, j | 0 <= i < j < |d| ensures FirstIndex(xs, d[i]) < FirstIndex(xs, d[j]) {
          assert d[i] in p && d[j] in p;
          assert FirstIndex(xs, d[i]) == FirstIndex(p, d[i]);
          assert FirstIndex(xs, d[j]) == FirstIndex(p, d[j]);
        }
      }
    }
  }

  lemma MentionsInFirstOccurrenceOrder(message: string)
    ensures forall i, j :: 0 <= i < j < |Mentions(message)| ==>
      FirstIndex(Captures(message, 0), Mentions(message)[i]) < FirstIndex(Captures(message, 0), Mentions(message)[j])
  {
    DedupKeepsFirstOccurrenceOrder(Captures(message, 0));
  }

  /** Positions without an '@' contribute nothing: the search moves past them. */
  lemma {:induction false} CapturesSkip(s: string, from: nat, to: nat)
    requires from <= to <= |s|
    requires forall k :: from <= k < to ==> s[k] != '@'
    ensures Captures(s, from) == Captures(s, to)
    decreases |s| - from
  {
    if from < to {
      CapturesSkip(s, from + 1, to);
    }
  }

  /** A run of class characters from `i` stopped at `e` is the greedy run. */
  lemma {:induction false} RunEndIs(s: string, i: nat, e: nat)
    requires i <= e <= |s|
    requires forall k :: i <= k < e ==> IsMentionChar(s[k])
    requires e == |s| || !IsMentionChar(s[e])
    ensures RunEnd(s, i) == e
    decreases |s| - i
  {
    if i < e {
      RunEndIs(s, i + 1, e);
    }
  }

  lemma DedupPairExample(a: string, b: string)
    requires a != b
    ensures Dedup([a, b]) == [a, b]
  {
    assert [a, b][..1] == [a];
    assert [a][..0] == [];
    assert Dedup([a]) == [a];
  }

  /** A match at `i` contributes its greedy run, and the search resumes where the run ends. */
  lemma CapturesAtMatch(s: string, i: nat, e: nat)
    requires MatchesAt(s, i) && i + 1 <= |s| && RunEnd(s, i + 1) == e
    ensures Captures(s, i) == [s[i + 1..e]] + Captures(s, e)
  {
  }

  /** A match of the name `w` at `i`, followed by a character outside the class, contributes `w`. */
  lemma CaptureOf(s: string, i: nat, w: string)
    requires i + 1 + |w| <= |s| && s[i] == '@' && s[i + 1..i + 1 + |w|] == w && IsMentionName(w)
    requires i + 1 + |w| == |s| || !IsMentionChar(s[i + 1 + |w|])
    ensures Captures(s, i) == [w] + Captures(s, i + 1 + |w|)
  {
    var e := i + 1 + |w|;
    forall k | i + 1 <= k < e ensures IsMentionChar(s[k]) {
      assert s[k] == s[i + 1..e][k - i - 1];
    }
    RunEndIs(s, i + 1, e);
    CapturesAtMatch(s, i, e);
  }

  const GREETING := "Hello @alex and @jordan, ping @alex again"

  lemma AlexIsAName()
    ensures IsMentionName("alex")
  {
    assert forall k :: 0 <= k < 4 ==> "alex"[k] in "alex";
  }

  lemma JordanIsAName()
    ensures IsMentionName("jordan")
  {
    assert forall k :: 0 <= k < 6 ==> "jordan"[k] in "jordan";
  }

  // The characters of GREETING, one segment at a time.

  lemma GreetingHello()
    ensures forall k :: 0 <= k < 6 ==> GREETING[k] != '@'
  {
    var s := GREETING;
    assert s[0] == 'H' && s[1] == 'e' && s[2] == 'l' && s[3] == 'l' && s[4] == 'o' && s[5] == ' ';
  }

  lemma GreetingFirstAlex()
    ensures GREETING[6] == '@' && GREETING[7..11] == "alex" && GREETING[11] == ' '
    ensures forall k :: 11 <= k < 16 ==> GREETING[k] != '@'
  {
    var s := GREETING;
    assert s[7] == 'a' && s[8] == 'l' && s[9] == 'e' && s[10] == 'x';
    assert s[11] == ' ' && s[12] == 'a' && s[13] == 'n' && s[14] == 'd' && s[15] == ' ';
  }

  lemma GreetingJordan()
    ensures GREETING[16] == '@' && GREETING[17..23] == "jordan" && GREETING[23] == ','
    ensures forall k :: 23 <= k < 30 ==> GREETING[k] != '@'
  {
    var s := GREETING;
    assert s[17] == 'j' && s[18] == 'o' && s[19] == 'r' && s[20] == 'd' && s[21] == 'a' && s[22] == 'n';
    assert s[23] == ',' && s[24] == ' ' && s[25] == 'p' && s[26] == 'i' && s[27] == 'n' && s[28] == 'g' && s[29] == ' ';
  }

  lemma GreetingSecondAlex()
    ensures GREETING[30] == '@' && GREETING[31..35] == "alex" && GREETING[35] == ' '
    ensures forall k :: 35 <= k < 41 ==> GREETING[k] != '@'
  {
    var s := GREETING;
    assert s[31] == 'a' && s[32] == 'l' && s[33] == 'e' && s[34] == 'x';
    assert s[35] == ' ' && s[36] == 'a' && s[37] == 'g' && s[38] == 'a' && s[39] == 'i' && s[40] == 'n';
  }

  lemma GreetingFrom30()
    ensures Captures(GREETING, 30) == ["alex"]
  {
    GreetingSecondAlex();
    AlexIsAName();
    CaptureOf(GREETING, 30, "alex");
    CapturesSkip(GREETING, 35, 41);
  }

  lemma GreetingFrom16()
    ensures Captures(GREETING, 16) == ["jordan", "alex"]
  {
    GreetingJordan();
    JordanIsAName();
    CaptureOf(GREETING, 16, "jordan");
    CapturesSkip(GREETING, 23, 30);
    GreetingFrom30();
  }

  lemma GreetingFrom6()
    ensures Captures(GREETING, 6) == ["alex", "jordan", "alex"]
  {
    GreetingFirstAlex();
    AlexIsAName();
    CaptureOf(GREETING, 6, "alex");
    CapturesSkip(GREETING, 11, 16);
    GreetingFrom16();
  }

  lemma GreetingFrom0()
    ensures Captures(GREETING, 0) == ["alex", "jordan", "alex"]
  {
    GreetingHello();
    CapturesSkip(GREETING, 0, 6);
    GreetingFrom6();
  }

  /** The repeated `@alex` is listed once, and a message without mentions gives nothing. */
  lemma Examples()
    ensures Mentions(GREETING) == ["alex", "jordan"]
    ensures Mentions("No mentions here") == []
  {
    GreetingFrom0();
    DedupPairExample("alex", "jordan");
    var cs := ["alex", "jordan", "alex"];
    assert cs[..2] == ["alex", "jordan"];
    assert Dedup(cs) == Dedup(cs[..2]);
    NoAtNoMentions("No mentions here");
  }

  /** Matching is case-sensitive: `@Alex` and `@alex` are two mentions. */
  lemma CaseSensitive()
    ensures Mentions("@Alex @alex") == ["Alex", "alex"]
  {
    var s := "@Alex @alex";
    RunEndIs(s, 1, 5);
    assert Captures(s, 0) == [s[1..5]] + Captures(s, 5);
    CapturesSkip(s, 5, 6);
    RunEndIs(s, 7, 11);
    assert MatchesAt(s, 6);
    CapturesAtMatch(s, 6, 11);
    assert Captures(s, 11) == [];
    assert s[1..5] == "Alex" && s[7..11] == "alex";
    assert Captures(s, 0) == ["Alex", "alex"];
    assert "Alex"[0] != "alex"[0];
    DedupPairExample("Alex", "alex");
  }
}
