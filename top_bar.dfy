/**
 * The editor toolbar's computed values (frontend/src/components/toolbar/TopBar.tsx):
 * a collaborator's initials, whether undo and redo are enabled, and how
 * many collaborator chips are shown.
 */
module TopBar {
  import opened Wrappers
  import opened Strings
  import CanvasStore
  import PresenceSlice

  /** Index of the first white-space character at or after `i`, or `|s|`. */
  function WordEnd(s: string, i: nat): (e: nat)
    requires i <= |s|
    ensures i <= e <= |s|
    ensures forall k :: i <= k < e ==> !IsSpace(s[k])
    ensures e == |s| || IsSpace(s[e])
    decreases |s| - i
  {
    if i == |s| || IsSpace(s[i]) then i else WordEnd(s, i + 1)
  }

  /** `s.split(/\s+/)` for a string with no white space at either end: its words, in order. */
  function Words(s: string): (ws: seq<string>)
    decreases |s|
  {
    if s == [] then []
    else if IsSpace(s[0]) then Words(s[SkipSpaces(s, 0)..])
    else
      var e := WordEnd(s, 0);
      [s[..e]] + Words(s[e..])
  }

  /** `initialsFor(name)`: `?` for a blank name, else the first letters of the first two words, upper-cased. */
  function InitialsFor(name: string): (r: string)
    ensures |r| == 1 || |r| == 2
    ensures Trim(name) == "" ==> r == "?"
    ensures Trim(name) != "" ==> r[0] == UpperChar(Trim(name)[0])
    ensures Trim(name) != "" ==> (|r| == 2 <==> exists k :: 0 <= k < |Trim(name)| && IsSpace(Trim(name)[k]))
  {
    var t := Trim(name);
    if t == "" then "?"
    else
      var e := WordEnd(t, 0);
      if e == |t| then ToUpper([t[0]])
      else ToUpper([t[0], t[SkipSpaces(t, e)]])
  }

  /** The reference reading: upper-case the first character of each of the first two words. */
  function FirstLetters(words: seq<string>): string {
    if words == [] then []
    else (if words[0] == [] then [] else [words[0][0]]) + (if |words| < 2 || words[1] == [] then [] else [words[1][0]])
  }

  /** On a string that starts with a word, `Words` gives that word first and a non-empty second word starting after the gap. */
  lemma {:induction false} SecondWord(t: string, e: nat)
    requires t != [] && !IsSpace(t[0]) && !IsSpace(t[|t| - 1])
    requires e == WordEnd(t, 0) && e < |t|
    ensures var k := SkipSpaces(t, e);
      k < |t| && |Words(t)| >= 2 && Words(t)[0] == t[..e] && Words(t)[1] != [] && Words(t)[1][0] == t[k]
  {
    var k := SkipSpaces(t, e);
    assert IsSpace(t[e]);
    assert e > 0;
    var rest := t[e..];
    assert rest[0] == t[e];
    assert SkipSpaces(rest, 0) == k - e by {
      SkipSpacesShift(t, e, 0);
    }
    assert Words(rest) == Words(rest[k - e..]);
    assert rest[k - e..] == t[k..];
    var u := t[k..];
    assert u != [] && u[0] == t[k] && !IsSpace(u[0]);
    var e2 := WordEnd(u, 0);
    assert e2 > 0;
    assert Words(u) == [u[..e2]] + Words(u[e2..]);
  }

  /** Skipping spaces in a suffix is skipping them in the whole string, shifted. */
  lemma {:induction false} SkipSpacesShift(t: string, e: nat, i: nat)
    requires e + i <= |t|
    ensures SkipSpaces(t[e..], i) == SkipSpaces(t, e + i) - e
    decreases |t| - e - i
  {
    if e + i < |t| && IsSpace(t[e + i]) {
      assert t[e..][i] == t[e + i];
      SkipSpacesShift(t, e, i + 1);
    } else if e + i < |t| {
      assert t[e..][i] == t[e + i];
    }
  }

  /** `initialsFor` agrees with the reference reading over the words of the trimmed name. */
  lemma InitialsAreFirstLetters(name: string)
    requires Trim(name) != ""
    ensures InitialsFor(name) == ToUpper(FirstLetters(Words(Trim(name))))
  {
    var t := Trim(name);
    var e := WordEnd(t, 0);
    assert e > 0;
    if e == |t| {
      assert t[e..] == [];
      assert Words(t) == [t[..e]];
    } else {
      SecondWord(t, e);
    }
  }

  /** Initials for a three-word name and for a blank one. */
  lemma InitialsExamples()
    ensures InitialsFor(" ada king lovelace") == "AK"
    ensures InitialsFor("  ") == "?"
  {
    InitialsOfBlank();
    InitialsOfThreeWords();
  }

  lemma InitialsOfBlank()
    ensures InitialsFor("  ") == "?"
  {
    TrimEmptyIff("  ");
  }

  lemma InitialsOfThreeWords()
    ensures InitialsFor(" ada king lovelace") == "AK"
  {
    PaddedNameTrim();
    var t := "ada king lovelace";
    assert !IsSpace(t[0]) && !IsSpace(t[1]) && !IsSpace(t[2]) && IsSpace(t[3]) && !IsSpace(t[4]);
    assert WordEnd(t, 0) == 3;
    assert SkipSpaces(t, 3) == 4;
  }

  /** Trimming the example name drops only its leading space. */
  lemma PaddedNameTrim()
    ensures Trim(" ada king lovelace") == "ada king lovelace"
  {
    var n := " ada king lovelace";
    var i, j := TrimSplits(n);
    assert IsSpace(n[0]) && !IsSpace(n[1]) && !IsSpace(n[|n| - 1]);
    assert i == 1 && j == |n|;
  }

  /** The undo button is enabled exactly when the undo reducer would change the state, and likewise redo. */
  predicate CanUndo(historyLength: nat) { historyLength > 1 }
  predicate CanRedo(futureLength: nat) { futureLength > 0 }

  lemma ButtonsMatchReducers(s: CanvasStore.CanvasState)
    ensures CanUndo(|s.history|) <==> CanvasStore.Undo(s) != s
    ensures CanRedo(|s.future|) <==> CanvasStore.Redo(s) != s
  {
    if CanUndo(|s.history|) {
      assert CanvasStore.Undo(s).version == s.version + 1;
    }
    if CanRedo(|s.future|) {
      assert CanvasStore.Redo(s).version == s.version + 1;
    }
  }

  const MAX_CHIPS := 3

  /** The collaborators shown as chips: the first three. */
  function VisibleChips(collaborators: seq<PresenceSlice.PresenceUser>): (r: seq<PresenceSlice.PresenceUser>)
    ensures |r| <= MAX_CHIPS && r <= collaborators
    ensures |collaborators| <= MAX_CHIPS ==> r == collaborators
    ensures |collaborators| > MAX_CHIPS ==> |r| == MAX_CHIPS
  {
    if |collaborators| <= MAX_CHIPS then collaborators else collaborators[..MAX_CHIPS]
  }

  /** The `+N` overflow chip, present only when there are more than three collaborators. */
  function OverflowCount(collaborators: seq<PresenceSlice.PresenceUser>): (r: Option<nat>)
    ensures r.Some? <==> |collaborators| > MAX_CHIPS
    ensures r.Some? ==> r.value > 0 && r.value == |collaborators| - MAX_CHIPS
  {
    if |collaborators| > MAX_CHIPS then Some(|collaborators| - MAX_CHIPS) else None
  }

  /** Every collaborator is counted once: shown as a chip or counted in the overflow. */
  lemma ChipsAccountForEveryone(collaborators: seq<PresenceSlice.PresenceUser>)
    ensures |VisibleChips(collaborators)| + OverflowCount(collaborators).GetOr(0) == |collaborators|
  {
  }
}
