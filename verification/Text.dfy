/**
Python's text operations that the models need. Which characters are white space, and what lower case
is, are parameters: every result holds for any choice.
*/
module Text {
  type Space = char -> bool

  /** `s.strip()` */
  function Strip(s: string, space: Space): string {
    StripRight(StripLeft(s, space), space)
  }

  function StripLeft(s: string, space: Space): string {
    if s != "" && space(s[0]) then StripLeft(s[1..], space) else s
  }

  function StripRight(s: string, space: Space): string {
    if s != "" && space(s[|s| - 1]) then StripRight(s[..|s| - 1], space) else s
  }

  /** Nothing to strip at either end. */
  predicate Tidy(s: string, space: Space) {
    s != "" ==> !space(s[0]) && !space(s[|s| - 1])
  }

  lemma {:induction false} StripLeftIs(s: string, space: Space)
    ensures var r := StripLeft(s, space); |r| <= |s| && r == s[|s| - |r|..] && (r != "" ==> !space(r[0]))
    ensures StripLeft(s, space) == "" <==> forall c :: c in s ==> space(c)
  {
    if s != "" && space(s[0]) {
      StripLeftIs(s[1..], space);
      assert s == [s[0]] + s[1..];
    }
  }

  lemma {:induction false} StripRightIs(s: string, space: Space)
    ensures StripRight(s, space) <= s
    ensures var r := StripRight(s, space); r != "" ==> !space(r[|r| - 1])
    ensures StripRight(s, space) == "" <==> forall c :: c in s ==> space(c)
  {
    if s != "" && space(s[|s| - 1]) {
      StripRightIs(s[..|s| - 1], space);
      assert s == s[..|s| - 1] + [s[|s| - 1]];
    }
  }

  /** The part of the text from i to j, with only white space outside. */
  predicate IsInner(s: string, part: string, i: int, j: int, space: Space) {
    && 0 <= i <= j <= |s| && part == s[i..j]
    && (forall k :: 0 <= k < i ==> space(s[k])) && (forall k :: j <= k < |s| ==> space(s[k]))
  }

  lemma {:induction false} StripLeftSkips(s: string, space: Space)
    ensures forall k :: 0 <= k < |s| - |StripLeft(s, space)| ==> space(s[k])
  {
    if s != "" && space(s[0]) {
      StripLeftSkips(s[1..], space);
      StripLeftIs(s[1..], space);
      assert forall k :: 0 < k < |s| ==> s[k] == s[1..][k - 1];
    }
  }

  lemma {:induction false} StripRightSkips(s: string, space: Space)
    ensures forall k :: |StripRight(s, space)| <= k < |s| ==> space(s[k])
  {
    if s != "" && space(s[|s| - 1]) {
      StripRightSkips(s[..|s| - 1], space);
    }
  }

  /** What is left is one contiguous part of the text, and only white space is around it. */
  lemma StripIsInner(s: string, space: Space)
    ensures exists i, j :: IsInner(s, Strip(s, space), i, j, space)
  {
    var left, r := StripLeft(s, space), Strip(s, space);
    StripLeftIs(s, space);
    StripLeftSkips(s, space);
    StripRightIs(left, space);
    StripRightSkips(left, space);
    var i := |s| - |left|;
    var j := i + |r|;
    assert r == s[i..j];
    forall k | j <= k < |s| ensures space(s[k]) {
      assert s[k] == left[k - i];
    }
    assert IsInner(s, r, i, j, space);
  }

  lemma StripBlank(s: string, space: Space)
    ensures Strip(s, space) == "" <==> forall c :: c in s ==> space(c)
  {
    StripLeftIs(s, space);
    StripRightIs(StripLeft(s, space), space);
  }

  lemma StripEnds(s: string, space: Space)
    ensures Tidy(Strip(s, space), space) && |Strip(s, space)| <= |s|
    ensures forall c :: c in Strip(s, space) ==> c in s
  {
    var left, r := StripLeft(s, space), Strip(s, space);
    StripLeftIs(s, space);
    StripRightIs(left, space);
    assert r != "" ==> r[0] == left[0];
  }

  /** Stripping leaves a tidy text, and changes nothing that is tidy. */
  lemma StripIsTidy(s: string, space: Space)
    ensures Tidy(Strip(s, space), space) && (Tidy(s, space) ==> Strip(s, space) == s)
    ensures Strip(s, space) == "" <==> forall c :: c in s ==> space(c)
    ensures forall c :: c in Strip(s, space) ==> c in s
    ensures |Strip(s, space)| <= |s|
  {
    StripEnds(s, space);
    StripBlank(s, space);
  }

  /** So `strip` gives the tidy inner part of the text, and nothing exactly when the text is blank. */
  lemma StripIs(s: string, space: Space)
    ensures exists i, j :: IsInner(s, Strip(s, space), i, j, space)
    ensures Tidy(Strip(s, space), space) && (Tidy(s, space) ==> Strip(s, space) == s)
    ensures Strip(s, space) == "" <==> forall c :: c in s ==> space(c)
  {
    StripIsInner(s, space);
    StripIsTidy(s, space);
  }

  /** `s.split()` */
  function Words(s: string, space: Space): seq<string>
    decreases |s|
  {
    if s == "" then []
    else if space(s[0]) then Words(s[1..], space)
    else
      var n := WordLength(s, space);
      [s[..n]] + Words(s[n..], space)
  }

  function WordLength(s: string, space: Space): (n: nat)
    ensures n <= |s| && (s != "" && !space(s[0]) ==> n > 0)
  {
    if s == "" || space(s[0]) then 0 else 1 + WordLength(s[1..], space)
  }

  predicate Blank(s: string, space: Space) {
    forall i :: 0 <= i < |s| ==> space(s[i])
  }

  /** A word of the text starts at i and ends at j: nothing but white space before it, and none in it or right after. */
  predicate FirstWord(s: string, i: int, j: int, space: Space) {
    && 0 <= i < j <= |s| && (j == |s| || space(s[j]))
    && (forall k :: 0 <= k < i ==> space(s[k])) && (forall k :: i <= k < j ==> !space(s[k]))
  }

  /** These are the words of the text: the first, then those of what follows it. */
  ghost predicate AreWords(s: string, words: seq<string>, space: Space)
    decreases |words|
  {
    if words == [] then Blank(s, space)
    else exists i, j :: FirstWord(s, i, j, space) && words[0] == s[i..j] && AreWords(s[j..], words[1..], space)
  }

  lemma {:induction false} WordLengthIs(s: string, space: Space)
    ensures var n := WordLength(s, space); (forall k :: 0 <= k < n ==> !space(s[k])) && (n == |s| || space(s[n]))
  {
    if s != "" && !space(s[0]) {
      WordLengthIs(s[1..], space);
      assert forall k :: 0 < k < |s| ==> s[k] == s[1..][k - 1];
    }
  }

  lemma FirstWordLater(s: string, i: int, j: int, space: Space)
    requires s != "" && space(s[0]) && FirstWord(s[1..], i, j, space)
    ensures FirstWord(s, i + 1, j + 1, space)
  {
    var rest := s[1..];
    assert forall k :: 0 < k < |s| ==> s[k] == rest[k - 1];
  }

  lemma AfterSpace(s: string, words: seq<string>, space: Space)
    requires s != "" && space(s[0]) && AreWords(s[1..], words, space)
    ensures AreWords(s, words, space)
  {
    var rest := s[1..];
    if words == [] {
      assert forall i :: 0 < i < |s| ==> s[i] == rest[i - 1];
    } else {
      var i, j :| FirstWord(rest, i, j, space) && words[0] == rest[i..j] && AreWords(rest[j..], words[1..], space);
      FirstWordLater(s, i, j, space);
      assert rest[i..j] == s[i + 1..j + 1];
      assert rest[j..] == s[j + 1..];
    }
  }

  /** `split` cuts the text into its maximal runs without white space, in order. */
  lemma {:induction false} WordsAre(s: string, space: Space)
    ensures AreWords(s, Words(s, space), space)
    decreases |s|
  {
    if s != "" {
      if space(s[0]) {
        WordsAre(s[1..], space);
        AfterSpace(s, Words(s[1..], space), space);
      } else {
        var n := WordLength(s, space);
        WordLengthIs(s, space);
        WordsAre(s[n..], space);
        assert s[0..n] == s[..n];
        assert FirstWord(s, 0, n, space);
        assert ([s[..n]] + Words(s[n..], space))[1..] == Words(s[n..], space);
      }
    }
  }

  /** `part in s` */
  predicate Contains(s: string, part: string) {
    exists i :: 0 <= i <= |s| && Occurs(s, part, i)
  }

  predicate Occurs(s: string, part: string, i: int) {
    0 <= i <= |s| - |part| && s[i..i + |part|] == part
  }

  lemma OccursLater(s: string, part: string, n: nat)
    requires n <= |s| && Contains(s[n..], part)
    ensures Contains(s, part)
  {
    var i :| 0 <= i <= |s[n..]| && Occurs(s[n..], part, i);
    assert s[n..][i..i + |part|] == s[n + i..n + i + |part|];
    assert Occurs(s, part, n + i);
  }

  /** A text contains each of its words; it has none exactly when it is all white space. */
  lemma {:induction false} WordsAreInside(s: string, space: Space)
    ensures forall w :: w in Words(s, space) ==> Contains(s, w)
    ensures Words(s, space) == [] <==> forall c :: c in s ==> space(c)
    decreases |s|
  {
    if s != "" {
      var n := if space(s[0]) then 1 else WordLength(s, space);
      WordsAreInside(s[n..], space);
      forall w | w in Words(s[n..], space) ensures Contains(s, w) {
        OccursLater(s, w, n);
      }
      assert s[0] in s;
      if space(s[0]) {
        assert s == [s[0]] + s[1..];
      } else {
        assert Occurs(s, s[..n], 0);
      }
    }
  }
}
