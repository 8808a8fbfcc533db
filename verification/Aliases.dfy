/** Which projects a text names: the aliases of a rule set, searched together from left to right. */
module Aliases {
  import opened Wrappers

  /** What this module needs to know of characters: how each folds, and which are blanks, parts of
      words, or letters and digits. */
  datatype Alphabet = Alphabet(
    fold: char -> string,
    isSpace: char -> bool,
    isWord: char -> bool,
    isAlphanumeric: char -> bool)

  const NUL: char := '\0'

  /** Folding twice changes nothing; only NUL folds to NUL, and it is neither a blank nor part of a word;
      the plain blank is one; a letter or digit does not fold to blanks alone. */
  ghost predicate Regular(abc: Alphabet) {
    && (forall c, d | d in abc.fold(c) :: abc.fold(d) == [d])
    && (forall c | c != NUL :: NUL !in abc.fold(c))
    && abc.fold(NUL) == [NUL] && !abc.isSpace(NUL) && !abc.isWord(NUL)
    && abc.isSpace(' ')
    && (forall c | abc.isAlphanumeric(c) :: exists d | d in abc.fold(c) :: !abc.isSpace(d))
  }

  function Fold(abc: Alphabet, s: string): string {
    if s == [] then [] else abc.fold(s[0]) + Fold(abc, s[1..])
  }

  function SkipSpaces(abc: Alphabet, s: string, i: nat): (j: nat)
    requires i <= |s|
    ensures i <= j <= |s|
    decreases |s| - i
  {
    if i < |s| && abc.isSpace(s[i]) then SkipSpaces(abc, s, i + 1) else i
  }

  /** Each run of blanks replaced by one. */
  function Collapse(abc: Alphabet, s: string): string
    decreases |s|
  {
    if s == [] then []
    else if abc.isSpace(s[0]) then [' '] + Collapse(abc, s[SkipSpaces(abc, s, 1)..])
    else [s[0]] + Collapse(abc, s[1..])
  }

  function StripRight(abc: Alphabet, s: string): string {
    if s != [] && abc.isSpace(s[|s| - 1]) then StripRight(abc, s[..|s| - 1]) else s
  }

  function Strip(abc: Alphabet, s: string): string {
    StripRight(abc, s[SkipSpaces(abc, s, 0)..])
  }

  /** The identity of an alias: folded, blanks collapsed, ends trimmed. */
  function AliasKey(abc: Alphabet, alias: string): string {
    Strip(abc, Collapse(abc, Fold(abc, alias)))
  }

  /** A key as `AliasKey` makes them: single plain blanks, and only between words. */
  ghost predicate IsKey(abc: Alphabet, key: string) {
    && key != [] && !abc.isSpace(key[0]) && !abc.isSpace(key[|key| - 1])
    && Spaced(abc, key)
  }

  ghost predicate Spaced(abc: Alphabet, s: string) {
    && (forall i | 0 <= i < |s| && abc.isSpace(s[i]) :: s[i] == ' ')
    && (forall i | 0 < i < |s| :: !(abc.isSpace(s[i - 1]) && abc.isSpace(s[i])))
  }

  // ---------------------------------------------------------------------------------------------
  // One alias at one position
  // ---------------------------------------------------------------------------------------------

  /** Where the key's characters end when they stand at `i`, a blank standing for any run of blanks. */
  function Walk(abc: Alphabet, key: string, text: string, i: nat): (end: Option<nat>)
    requires i <= |text|
    ensures end.Some? ==> i <= end.value <= |text|
    decreases |key|
  {
    if key == [] then Some(i)
    else if i == |text| then None
    else if key[0] == ' ' then
      if abc.isSpace(text[i]) then Walk(abc, key[1..], text, SkipSpaces(abc, text, i)) else None
    else if text[i] == key[0] then Walk(abc, key[1..], text, i + 1)
    else None
  }

  /** The boundary a key that starts with a word character asks for before it. */
  predicate OpensWord(abc: Alphabet, key: string, text: string, i: nat)
    requires key != [] && i <= |text|
  {
    abc.isWord(key[0]) ==> i == 0 || !abc.isWord(text[i - 1])
  }

  predicate ClosesWord(abc: Alphabet, key: string, text: string, end: nat)
    requires key != [] && end <= |text|
  {
    abc.isWord(key[|key| - 1]) ==> end == |text| || !abc.isWord(text[end])
  }

  /** The alias matched at `i`, and where the match ends. */
  function MatchAt(abc: Alphabet, key: string, text: string, i: nat): (end: Option<nat>)
    requires key != [] && i <= |text|
    ensures end.Some? ==> i < end.value <= |text|
  {
    WalkAdvances(abc, key, text, i);
    var end := Walk(abc, key, text, i);
    if end.Some? && OpensWord(abc, key, text, i) && ClosesWord(abc, key, text, end.value) then end else None
  }

  lemma {:induction false} WalkAdvances(abc: Alphabet, key: string, text: string, i: nat)
    requires key != [] && i <= |text|
    ensures Walk(abc, key, text, i).Some? ==> i < Walk(abc, key, text, i).value
  {
  }

  /** Two keys of one length cannot both stand at one position: which of them is tried first never
      matters. */
  lemma {:induction false} SameLengthSameKey(abc: Alphabet, a: string, b: string, text: string, i: nat)
    requires i <= |text| && |a| == |b| && Spaced(abc, a) && Spaced(abc, b) && abc.isSpace(' ')
    requires Walk(abc, a, text, i).Some? && Walk(abc, b, text, i).Some?
    ensures a == b
    decreases |a|
  {
    if a != [] {
      assert a[0] == b[0] by {
        assert a[0] != ' ' ==> !abc.isSpace(a[0]);
        assert b[0] != ' ' ==> !abc.isSpace(b[0]);
      }
      SpacedRest(abc, a);
      SpacedRest(abc, b);
      SameLengthSameKey(abc, a[1..], b[1..], text, if a[0] == ' ' then SkipSpaces(abc, text, i) else i + 1);
      assert a == [a[0]] + a[1..] && b == [b[0]] + b[1..];
    }
  }

  lemma {:induction false} SpacedRest(abc: Alphabet, s: string)
    requires Spaced(abc, s) && s != []
    ensures Spaced(abc, s[1..])
  {
    forall i | 0 < i < |s[1..]|
      ensures !(abc.isSpace(s[1..][i - 1]) && abc.isSpace(s[1..][i]))
    {
      assert s[1..][i - 1] == s[i] && s[1..][i] == s[i + 1];
    }
  }

  // ---------------------------------------------------------------------------------------------
  // All aliases, over a whole text
  // ---------------------------------------------------------------------------------------------

  datatype Found = Found(key: string, end: nat)

  predicate NoneEmpty(ordered: seq<string>) {
    forall i | 0 <= i < |ordered| :: ordered[i] != []
  }

  ghost predicate Keys(abc: Alphabet, ordered: seq<string>) {
    forall i | 0 <= i < |ordered| :: ordered[i] != [] && IsKey(abc, ordered[i])
  }

  predicate NulFree(ordered: seq<string>) {
    forall i | 0 <= i < |ordered| :: NUL !in ordered[i]
  }

  /** The first alternative that matches at `i`. */
  function FirstMatch(abc: Alphabet, ordered: seq<string>, text: string, i: nat): (found: Option<Found>)
    requires i <= |text| && NoneEmpty(ordered)
    ensures found.Some? ==> i < found.value.end <= |text| && found.value.key in ordered
    ensures found.Some? ==> MatchAt(abc, found.value.key, text, i) == Some(found.value.end)
  {
    if ordered == [] then None
    else
      match MatchAt(abc, ordered[0], text, i)
      case Some(end) => Some(Found(ordered[0], end))
      case None => FirstMatch(abc, ordered[1..], text, i)
  }

  /** The matches of the alternation from `i` on: leftmost first, and never overlapping. */
  function Matches(abc: Alphabet, ordered: seq<string>, text: string, i: nat): seq<string>
    requires i <= |text| && NoneEmpty(ordered)
    decreases |text| - i
  {
    if i == |text| then []
    else
      match FirstMatch(abc, ordered, text, i)
      case None => Matches(abc, ordered, text, i + 1)
      case Some(found) => [text[i..found.end]] + Matches(abc, ordered, text, found.end)
  }

  /** The keys matched, rather than the text matched. */
  function KeysMatched(abc: Alphabet, ordered: seq<string>, text: string, i: nat): set<string>
    requires i <= |text| && NoneEmpty(ordered)
    decreases |text| - i
  {
    if i == |text| then {}
    else
      match FirstMatch(abc, ordered, text, i)
      case None => KeysMatched(abc, ordered, text, i + 1)
      case Some(found) => {found.key} + KeysMatched(abc, ordered, text, found.end)
  }

  /** A text that folding leaves alone. */
  ghost predicate IsFolded(abc: Alphabet, text: string) {
    forall c | c in text :: abc.fold(c) == [c]
  }

  lemma {:induction false} FoldIsFolded(abc: Alphabet, s: string)
    requires Regular(abc)
    ensures IsFolded(abc, Fold(abc, s))
  {
    if s != [] {
      FoldIsFolded(abc, s[1..]);
    }
  }

  lemma {:induction false} FoldedStays(abc: Alphabet, text: string)
    requires IsFolded(abc, text)
    ensures Fold(abc, text) == text
  {
    if text != [] {
      assert text[0] in text;
      FoldedStays(abc, text[1..]);
    }
  }

  lemma {:induction false} SkipFrom(abc: Alphabet, text: string, from: nat, i: nat, e: nat)
    requires from <= i <= |text| && SkipSpaces(abc, text, i) <= e <= |text|
    ensures SkipSpaces(abc, text[from..e], i - from) == SkipSpaces(abc, text, i) - from
    decreases e - i
  {
    if i < e && abc.isSpace(text[i]) {
      SkipFrom(abc, text, from, i + 1, e);
    }
  }

  /** The text a key matched collapses to the key. */
  lemma {:induction false} WalkCollapses(abc: Alphabet, key: string, text: string, i: nat)
    requires abc.isSpace(' ') && Spaced(abc, key) && (key != [] ==> !abc.isSpace(key[|key| - 1]))
    requires i <= |text| && Walk(abc, key, text, i).Some?
    ensures Collapse(abc, text[i..Walk(abc, key, text, i).value]) == key
    decreases |key|
  {
    var e := Walk(abc, key, text, i).value;
    if key != [] {
      SpacedRest(abc, key);
      WalkAdvances(abc, key, text, i);
      var found := text[i..e];
      if key[0] == ' ' {
        var next := SkipSpaces(abc, text, i);
        WalkCollapses(abc, key[1..], text, next);
        SkipFrom(abc, text, i, i, e);
        assert SkipSpaces(abc, found, 0) == SkipSpaces(abc, found, 1);
        assert found[next - i..] == text[next..e];
      } else {
        WalkCollapses(abc, key[1..], text, i + 1);
        assert !abc.isSpace(key[0]);
        assert found[1..] == text[i + 1..e];
      }
      assert key == [key[0]] + key[1..];
    }
  }

  /** What an alias matched has that alias's key: looking the match up finds the alias. */
  lemma {:induction false} MatchHasItsKey(abc: Alphabet, key: string, text: string, i: nat)
    requires Regular(abc) && IsKey(abc, key) && IsFolded(abc, text)
    requires i <= |text| && MatchAt(abc, key, text, i).Some?
    ensures AliasKey(abc, text[i..MatchAt(abc, key, text, i).value]) == key
  {
    var found := text[i..MatchAt(abc, key, text, i).value];
    WalkCollapses(abc, key, text, i);
    FoldedStays(abc, found);
    assert key[0..] == key;
  }

  lemma {:induction false} KeysGrow(abc: Alphabet, first: string, rest: seq<string>)
    ensures var found := [first] + rest;
      (set m | 0 <= m < |found| :: AliasKey(abc, found[m]))
      == {AliasKey(abc, first)} + (set m | 0 <= m < |rest| :: AliasKey(abc, rest[m]))
  {
    var found := [first] + rest;
    forall m | 0 <= m < |rest| ensures AliasKey(abc, rest[m]) in (set m | 0 <= m < |found| :: AliasKey(abc, found[m])) {
      assert found[m + 1] == rest[m];
    }
    assert found[0] == first;
  }

  /** Looking matches up by key finds the keys that matched, each of them one of the aliases'. */
  lemma {:induction false} MatchesHaveTheirKeys(abc: Alphabet, ordered: seq<string>, text: string, i: nat)
    requires Regular(abc) && Keys(abc, ordered) && IsFolded(abc, text) && i <= |text|
    ensures var found := Matches(abc, ordered, text, i);
      && (forall m | 0 <= m < |found| :: AliasKey(abc, found[m]) in ordered)
      && (set m | 0 <= m < |found| :: AliasKey(abc, found[m])) == KeysMatched(abc, ordered, text, i)
    decreases |text| - i
  {
    if i < |text| {
      match FirstMatch(abc, ordered, text, i) {
        case None => MatchesHaveTheirKeys(abc, ordered, text, i + 1);
        case Some(Found(key, end)) =>
          MatchesHaveTheirKeys(abc, ordered, text, end);
          MatchHasItsKey(abc, key, text, i);
          KeysGrow(abc, text[i..end], Matches(abc, ordered, text, end));
      }
    }
  }

  // ---------------------------------------------------------------------------------------------
  // Every alias that holds a letter or a digit has a key
  // ---------------------------------------------------------------------------------------------

  predicate HasAlphanumeric(abc: Alphabet, s: string) {
    exists i | 0 <= i < |s| :: abc.isAlphanumeric(s[i])
  }

  predicate HasInk(abc: Alphabet, s: string) {
    exists i | 0 <= i < |s| :: !abc.isSpace(s[i])
  }

  lemma {:induction false} SkipStopsAtInk(abc: Alphabet, s: string, i: nat)
    requires i <= |s|
    ensures var j := SkipSpaces(abc, s, i);
      && (j < |s| ==> !abc.isSpace(s[j]))
      && (forall k | i <= k < j :: abc.isSpace(s[k]))
    decreases |s| - i
  {
    if i < |s| && abc.isSpace(s[i]) {
      SkipStopsAtInk(abc, s, i + 1);
    }
  }

  lemma {:induction false} CollapseSpaces(abc: Alphabet, s: string)
    requires abc.isSpace(' ')
    ensures Spaced(abc, Collapse(abc, s))
    ensures s != [] && !abc.isSpace(s[0]) ==> Collapse(abc, s) != [] && Collapse(abc, s)[0] == s[0]
    ensures HasInk(abc, s) ==> HasInk(abc, Collapse(abc, s))
    ensures NUL !in s ==> NUL !in Collapse(abc, s)
    decreases |s|
  {
    if s != [] {
      var next := if abc.isSpace(s[0]) then SkipSpaces(abc, s, 1) else 1;
      SkipStopsAtInk(abc, s, 1);
      CollapseSpaces(abc, s[next..]);
      var rest, whole := Collapse(abc, s[next..]), Collapse(abc, s);
      assert whole[1..] == rest;
      forall i | 0 < i < |whole| ensures !(abc.isSpace(whole[i - 1]) && abc.isSpace(whole[i])) {
        assert whole[i] == rest[i - 1];
        if i == 1 && abc.isSpace(s[0]) {
          assert s[next..] != [];
        } else if i > 1 {
          assert whole[i - 1] == rest[i - 2];
        }
      }
      if HasInk(abc, s) {
        var i :| 0 <= i < |s| && !abc.isSpace(s[i]);
        if abc.isSpace(s[0]) || i > 0 {
          assert i >= next && s[next..][i - next] == s[i];
          var k :| 0 <= k < |rest| && !abc.isSpace(rest[k]);
          assert whole[k + 1] == rest[k];
        } else {
          assert !abc.isSpace(whole[0]);
        }
      }
    }
  }

  lemma {:induction false} StripRightEnds(abc: Alphabet, s: string)
    requires HasInk(abc, s) && Spaced(abc, s) && !abc.isSpace(s[0])
    ensures IsKey(abc, StripRight(abc, s)) && StripRight(abc, s) <= s
    decreases |s|
  {
    if abc.isSpace(s[|s| - 1]) {
      var shorter := s[..|s| - 1];
      assert HasInk(abc, shorter) by {
        assert shorter[0] == s[0];
      }
      StripRightEnds(abc, shorter);
    }
  }

  lemma {:induction false} FoldKeepsInk(abc: Alphabet, s: string)
    requires Regular(abc) && HasAlphanumeric(abc, s)
    ensures HasInk(abc, Fold(abc, s))
    decreases |s|
  {
    var i :| 0 <= i < |s| && abc.isAlphanumeric(s[i]);
    var first, rest := abc.fold(s[0]), Fold(abc, s[1..]);
    if i == 0 {
      var d :| d in first && !abc.isSpace(d);
      var k :| 0 <= k < |first| && first[k] == d;
      assert (first + rest)[k] == d;
    } else {
      assert s[1..][i - 1] == s[i];
      FoldKeepsInk(abc, s[1..]);
      var k :| 0 <= k < |rest| && !abc.isSpace(rest[k]);
      assert (first + rest)[|first| + k] == rest[k];
    }
  }

  lemma {:induction false} FoldKeepsNulOut(abc: Alphabet, s: string)
    requires Regular(abc) && NUL !in s
    ensures NUL !in Fold(abc, s)
  {
    if s != [] {
      assert s[0] in s;
      FoldKeepsNulOut(abc, s[1..]);
    }
  }

  lemma {:induction false} AliasHasKey(abc: Alphabet, alias: string)
    requires Regular(abc) && HasAlphanumeric(abc, alias)
    ensures IsKey(abc, AliasKey(abc, alias))
    ensures NUL !in alias ==> NUL !in AliasKey(abc, alias)
  {
    var collapsed := Collapse(abc, Fold(abc, alias));
    FoldKeepsInk(abc, alias);
    CollapseSpaces(abc, Fold(abc, alias));
    SkipStopsAtInk(abc, collapsed, 0);
    var first := SkipSpaces(abc, collapsed, 0);
    var ink :| 0 <= ink < |collapsed| && !abc.isSpace(collapsed[ink]);
    assert first <= ink;
    var trimmed := collapsed[first..];
    assert trimmed[ink - first] == collapsed[ink];
    assert Spaced(abc, trimmed) by {
      forall i | 0 < i < |trimmed| ensures !(abc.isSpace(trimmed[i - 1]) && abc.isSpace(trimmed[i])) {
        assert trimmed[i - 1] == collapsed[first + i - 1] && trimmed[i] == collapsed[first + i];
      }
    }
    StripRightEnds(abc, trimmed);
    if NUL !in alias {
      FoldKeepsNulOut(abc, alias);
      assert AliasKey(abc, alias) <= trimmed;
    }
  }

  // ---------------------------------------------------------------------------------------------
  // Longest first
  // ---------------------------------------------------------------------------------------------

  ghost predicate LongestFirst(ordered: seq<string>) {
    forall i, j | 0 <= i < j < |ordered| :: |ordered[i]| >= |ordered[j]|
  }

  /** At each position the longest alias that matches there is the one found. */
  lemma {:induction false} LongestWins(abc: Alphabet, ordered: seq<string>, text: string, i: nat, key: string)
    requires i <= |text| && LongestFirst(ordered) && NoneEmpty(ordered)
    requires key in ordered && MatchAt(abc, key, text, i).Some?
    ensures var found := FirstMatch(abc, ordered, text, i); found.Some? && |found.value.key| >= |key|
    decreases |ordered|
  {
    if MatchAt(abc, ordered[0], text, i).None? {
      assert key in ordered[1..];
      LongestWins(abc, ordered[1..], text, i, key);
    } else {
      var j :| 0 <= j < |ordered| && ordered[j] == key;
      assert j > 0 ==> |ordered[0]| >= |ordered[j]|;
    }
  }

  /** The sorted alternatives of a set of keys. */
  ghost predicate Lists(ordered: seq<string>, keys: set<string>) {
    LongestFirst(ordered) && forall k :: k in ordered <==> k in keys
  }

  ghost predicate Stands(abc: Alphabet, key: string, text: string, i: nat)
    requires i <= |text|
  {
    key != [] && MatchAt(abc, key, text, i).Some?
  }

  ghost predicate IsLongest(abc: Alphabet, keys: set<string>, text: string, i: nat, key: string)
    requires i <= |text|
  {
    key in keys && Stands(abc, key, text, i) && forall k | k in keys && Stands(abc, k, text, i) :: |k| <= |key|
  }

  /** The longest key that stands at `i`, whatever order the keys are in. */
  ghost function LongestMatch(abc: Alphabet, keys: set<string>, text: string, i: nat): (found: Option<Found>)
    requires i <= |text|
    ensures found.Some? ==> i < found.value.end <= |text|
  {
    if exists key :: IsLongest(abc, keys, text, i, key) then
      var key :| IsLongest(abc, keys, text, i, key);
      Some(Found(key, MatchAt(abc, key, text, i).value))
    else None
  }

  /** The keys a text names: leftmost, then longest, never overlapping. */
  ghost function KeysNamed(abc: Alphabet, keys: set<string>, text: string, i: nat): set<string>
    requires i <= |text|
    decreases |text| - i
  {
    if i == |text| then {}
    else
      match LongestMatch(abc, keys, text, i)
      case None => KeysNamed(abc, keys, text, i + 1)
      case Some(found) => {found.key} + KeysNamed(abc, keys, text, found.end)
  }

  /** Trying the longest first and stopping at the first success finds the longest: ties between
      keys of one length cannot arise, so no order of the rules shows through. */
  lemma {:induction false} FirstIsLongest(abc: Alphabet, ordered: seq<string>, keys: set<string>, text: string, i: nat)
    requires abc.isSpace(' ') && i <= |text| && Lists(ordered, keys) && Keys(abc, ordered)
    ensures FirstMatch(abc, ordered, text, i) == LongestMatch(abc, keys, text, i)
  {
    var first, longest := FirstMatch(abc, ordered, text, i), LongestMatch(abc, keys, text, i);
    forall k | k in keys && Stands(abc, k, text, i)
      ensures first.Some? && |k| <= |first.value.key|
    {
      LongestWins(abc, ordered, text, i, k);
    }
    if first.Some? {
      assert IsLongest(abc, keys, text, i, first.value.key);
      SameLengthSameKey(abc, first.value.key, longest.value.key, text, i);
    }
  }

  lemma {:induction false} KeysMatchedAreNamed(abc: Alphabet, ordered: seq<string>, keys: set<string>, text: string, i: nat)
    requires abc.isSpace(' ') && i <= |text| && Lists(ordered, keys) && Keys(abc, ordered)
    ensures KeysMatched(abc, ordered, text, i) == KeysNamed(abc, keys, text, i)
    decreases |text| - i
  {
    FirstIsLongest(abc, ordered, keys, text, i);
    if i < |text| {
      match FirstMatch(abc, ordered, text, i) {
        case None => KeysMatchedAreNamed(abc, ordered, keys, text, i + 1);
        case Some(found) => KeysMatchedAreNamed(abc, ordered, keys, text, found.end);
      }
    }
  }

  // ---------------------------------------------------------------------------------------------
  // Fields joined by NUL
  // ---------------------------------------------------------------------------------------------

  lemma {:induction false} SkipStaysInField(abc: Alphabet, a: string, b: string, i: nat)
    requires i <= |a| && !abc.isSpace(NUL)
    ensures SkipSpaces(abc, a + [NUL] + b, i) == SkipSpaces(abc, a, i)
    decreases |a| - i
  {
    if i < |a| && abc.isSpace(a[i]) {
      SkipStaysInField(abc, a, b, i + 1);
    }
  }

  lemma {:induction false} WalkStaysInField(abc: Alphabet, key: string, a: string, b: string, i: nat)
    requires i <= |a| && NUL !in key && !abc.isSpace(NUL)
    ensures Walk(abc, key, a + [NUL] + b, i) == Walk(abc, key, a, i)
    decreases |key|
  {
    if key != [] && i < |a| {
      assert key[0] in key;
      if key[0] == ' ' {
        SkipStaysInField(abc, a, b, i);
        WalkStaysInField(abc, key[1..], a, b, SkipSpaces(abc, a, i));
      } else {
        WalkStaysInField(abc, key[1..], a, b, i + 1);
      }
    }
  }

  lemma {:induction false} SkipShifts(abc: Alphabet, a: string, b: string, i: nat)
    requires i <= |b|
    ensures SkipSpaces(abc, a + b, |a| + i) == |a| + SkipSpaces(abc, b, i)
    decreases |b| - i
  {
    if i < |b| && abc.isSpace(b[i]) {
      SkipShifts(abc, a, b, i + 1);
    }
  }

  lemma {:induction false} WalkShifts(abc: Alphabet, key: string, a: string, b: string, i: nat)
    requires i <= |b|
    ensures Walk(abc, key, a + b, |a| + i).Some? <==> Walk(abc, key, b, i).Some?
    ensures Walk(abc, key, b, i).Some? ==> Walk(abc, key, a + b, |a| + i).value == |a| + Walk(abc, key, b, i).value
    decreases |key|
  {
    if key != [] && i < |b| {
      if key[0] == ' ' {
        SkipShifts(abc, a, b, i);
        WalkShifts(abc, key[1..], a, b, SkipSpaces(abc, b, i));
      } else {
        WalkShifts(abc, key[1..], a, b, i + 1);
      }
    }
  }

  /** Before the separator, what matches is what matches in the first field alone. */
  lemma {:induction false} FirstField(abc: Alphabet, ordered: seq<string>, a: string, b: string, i: nat)
    requires Regular(abc) && i <= |a| && Keys(abc, ordered) && NulFree(ordered)
    ensures FirstMatch(abc, ordered, a + [NUL] + b, i) == FirstMatch(abc, ordered, a, i)
    decreases |ordered|
  {
    if ordered != [] {
      WalkStaysInField(abc, ordered[0], a, b, i);
      FirstField(abc, ordered[1..], a, b, i);
    }
  }

  function Shifted(found: Option<Found>, n: nat): Option<Found> {
    match found
    case None => None
    case Some(Found(key, end)) => Some(Found(key, end + n))
  }

  lemma {:induction false} MatchShifts(abc: Alphabet, key: string, before: string, b: string, i: nat)
    requires key != [] && i <= |b| && before != [] && !abc.isWord(before[|before| - 1])
    ensures MatchAt(abc, key, before + b, |before| + i).Some? <==> MatchAt(abc, key, b, i).Some?
    ensures MatchAt(abc, key, b, i).Some? ==>
      MatchAt(abc, key, before + b, |before| + i).value == |before| + MatchAt(abc, key, b, i).value
  {
    WalkShifts(abc, key, before, b, i);
    assert OpensWord(abc, key, before + b, |before| + i) == OpensWord(abc, key, b, i);
    if Walk(abc, key, b, i).Some? {
      var end := Walk(abc, key, b, i).value;
      assert ClosesWord(abc, key, before + b, |before| + end) == ClosesWord(abc, key, b, end);
    }
  }

  /** After it, what matches is what matches in the fields after, alone. */
  lemma {:induction false} LaterField(abc: Alphabet, ordered: seq<string>, before: string, b: string, i: nat)
    requires NoneEmpty(ordered) && i <= |b| && before != [] && !abc.isWord(before[|before| - 1])
    ensures FirstMatch(abc, ordered, before + b, |before| + i) == Shifted(FirstMatch(abc, ordered, b, i), |before|)
    decreases |ordered|
  {
    if ordered != [] {
      MatchShifts(abc, ordered[0], before, b, i);
      LaterField(abc, ordered[1..], before, b, i);
    }
  }

  lemma {:induction false} LaterKeys(abc: Alphabet, ordered: seq<string>, before: string, b: string, i: nat)
    requires NoneEmpty(ordered) && i <= |b| && before != [] && !abc.isWord(before[|before| - 1])
    ensures KeysMatched(abc, ordered, before + b, |before| + i) == KeysMatched(abc, ordered, b, i)
    decreases |b| - i
  {
    if i < |b| {
      LaterField(abc, ordered, before, b, i);
      match FirstMatch(abc, ordered, b, i) {
        case None => LaterKeys(abc, ordered, before, b, i + 1);
        case Some(found) => LaterKeys(abc, ordered, before, b, found.end);
      }
    }
  }

  /** A joined text names what each side names alone, and nothing else. */
  lemma {:induction false} JoinedKeys(abc: Alphabet, ordered: seq<string>, a: string, b: string, i: nat)
    requires Regular(abc) && i <= |a| && Keys(abc, ordered) && NulFree(ordered)
    ensures KeysMatched(abc, ordered, a + [NUL] + b, i)
         == KeysMatched(abc, ordered, a, i) + KeysMatched(abc, ordered, b, 0)
    decreases |a| - i
  {
    FirstField(abc, ordered, a, b, i);
    if i == |a| {
      LaterKeys(abc, ordered, a + [NUL], b, 0);
    } else {
      match FirstMatch(abc, ordered, a, i) {
        case None => JoinedKeys(abc, ordered, a, b, i + 1);
        case Some(found) => JoinedKeys(abc, ordered, a, b, found.end);
      }
    }
  }

  function Joined(fields: seq<string>): string {
    if fields == [] then []
    else if |fields| == 1 then fields[0]
    else fields[0] + [NUL] + Joined(fields[1..])
  }

  function FoldAll(abc: Alphabet, fields: seq<string>): (r: seq<string>)
    ensures |r| == |fields|
  {
    if fields == [] then [] else [Fold(abc, fields[0])] + FoldAll(abc, fields[1..])
  }

  lemma {:induction false} FoldSum(abc: Alphabet, a: string, b: string)
    ensures Fold(abc, a + b) == Fold(abc, a) + Fold(abc, b)
  {
    if a == [] {
      assert a + b == b;
    } else {
      FoldSum(abc, a[1..], b);
      assert (a + b)[1..] == a[1..] + b;
    }
  }

  lemma {:induction false} FoldJoined(abc: Alphabet, fields: seq<string>)
    requires abc.fold(NUL) == [NUL]
    ensures Fold(abc, Joined(fields)) == Joined(FoldAll(abc, fields))
  {
    if |fields| > 1 {
      FoldJoined(abc, fields[1..]);
      FoldSum(abc, fields[0] + [NUL], Joined(fields[1..]));
      FoldSum(abc, fields[0], [NUL]);
      assert [NUL][1..] == [];
    } else if |fields| == 1 {
      assert fields[1..] == [];
    }
  }

  /** The keys named by each of the fields alone. */
  function KeysOfEach(abc: Alphabet, ordered: seq<string>, fields: seq<string>): set<string>
    requires NoneEmpty(ordered)
  {
    if fields == [] then {} else KeysMatched(abc, ordered, fields[0], 0) + KeysOfEach(abc, ordered, fields[1..])
  }

  /** Joining fields with NUL forges no alias across two of them, and hides none inside one. */
  lemma {:induction false} JoinForgesNothing(abc: Alphabet, ordered: seq<string>, fields: seq<string>)
    requires Regular(abc) && Keys(abc, ordered) && NulFree(ordered)
    ensures KeysMatched(abc, ordered, Joined(fields), 0) == KeysOfEach(abc, ordered, fields)
  {
    if |fields| > 1 {
      JoinedKeys(abc, ordered, fields[0], Joined(fields[1..]), 0);
      JoinForgesNothing(abc, ordered, fields[1..]);
    } else if |fields| == 1 {
      assert KeysOfEach(abc, ordered, fields[1..]) == {};
    }
  }
}
