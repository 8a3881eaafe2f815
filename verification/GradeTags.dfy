/** The tag cleaning of app/schemas/grade.py, `_clean_tags`. */
module GradeTags {
  import opened Wrappers
  import opened Text

  const MAX_TAGS := 12
  const MAX_TAG_LENGTH := 24

  /** An element of the raw list. */
  datatype Item = Tag(text: string) | NotText

  /** `str.lower` and the white space of `strip`. */
  datatype Locale = Locale(lower: string -> string, space: Space)

  /** The control characters the pattern removes: all but tab, line feed and carriage return. */
  predicate IsControl(c: char) {
    c <= '\U{8}' || c == '\U{b}' || c == '\U{c}' || '\U{e}' <= c <= '\U{1f}' || c == '\U{7f}'
  }

  function WithoutControls(s: string): string {
    if s == "" then "" else (if IsControl(s[0]) then "" else [s[0]]) + WithoutControls(s[1..])
  }

  function Cut(s: string): string {
    if |s| <= MAX_TAG_LENGTH then s else s[..MAX_TAG_LENGTH]
  }

  function Clean(loc: Locale, raw: string): string {
    Strip(Cut(Strip(WithoutControls(raw), loc.space)), loc.space)
  }

  /** A tag as the vault shows it. */
  predicate IsClean(loc: Locale, tag: string) {
    && tag != "" && |tag| <= MAX_TAG_LENGTH && Tidy(tag, loc.space)
    && forall c :: c in tag ==> !IsControl(c)
  }

  /** The pattern's character class, by code points. */
  lemma ControlsAre(c: char)
    ensures IsControl(c) <==> var n := c as int; n <= 8 || n == 11 || n == 12 || 14 <= n <= 31 || n == 127
  {
  }

  lemma {:induction false} WithoutControlsParts(a: string, b: string)
    ensures WithoutControls(a + b) == WithoutControls(a) + WithoutControls(b)
  {
    if a == "" {
      assert a + b == b;
    } else {
      assert (a + b)[1..] == a[1..] + b;
      WithoutControlsParts(a[1..], b);
    }
  }

  /** A text of at most 24 characters is kept whole; of a longer one its first 24, trimmed again. */
  lemma LongTagsAreCut(loc: Locale, raw: string)
    ensures
      var tidy := Strip(WithoutControls(raw), loc.space);
      && (|tidy| <= 24 ==> Clean(loc, raw) == tidy)
      && (|tidy| > 24 ==> Clean(loc, raw) == Strip(tidy[..24], loc.space))
  {
    StripIsTidy(WithoutControls(raw), loc.space);
    StripIsTidy(Strip(WithoutControls(raw), loc.space), loc.space);
  }

  // ---- Reference ---------------------------------------------------------------------------------

  /** The non-empty cleaned inputs, in order. */
  function Candidates(loc: Locale, items: seq<Item>): seq<string> {
    if items == [] then []
    else
      var last := items[|items| - 1];
      Candidates(loc, items[..|items| - 1])
      + (if last.Tag? && Clean(loc, last.text) != "" then [Clean(loc, last.text)] else [])
  }

  /** The tag at i differs from every earlier one, ignoring case. */
  predicate IsFirst(loc: Locale, tags: seq<string>, i: nat)
    requires i < |tags|
  {
    forall j :: 0 <= j < i ==> loc.lower(tags[j]) != loc.lower(tags[i])
  }

  function Firsts(loc: Locale, tags: seq<string>): seq<string> {
    if tags == [] then []
    else Firsts(loc, tags[..|tags| - 1]) + if IsFirst(loc, tags, |tags| - 1) then [tags[|tags| - 1]] else []
  }

  function Capped(tags: seq<string>): seq<string> {
    if |tags| <= MAX_TAGS then tags else tags[..MAX_TAGS]
  }

  /** The first 12 case-insensitively distinct non-empty cleaned inputs. */
  function CleanTags(loc: Locale, items: seq<Item>): seq<string> {
    Capped(Firsts(loc, Candidates(loc, items)))
  }

  // ---- The loop ------------------------------------------------------------------------------------

  /** The lower-case forms of some tags: the `seen` set. */
  function Keys(loc: Locale, tags: seq<string>): set<string> {
    if tags == [] then {} else Keys(loc, tags[..|tags| - 1]) + {loc.lower(tags[|tags| - 1])}
  }

  lemma {:induction false} KeysAre(loc: Locale, tags: seq<string>, key: string)
    ensures key in Keys(loc, tags) <==> exists i :: 0 <= i < |tags| && loc.lower(tags[i]) == key
  {
    if tags != [] {
      KeysAre(loc, tags[..|tags| - 1], key);
    }
  }

  lemma {:induction false} FirstsKeepKeys(loc: Locale, tags: seq<string>)
    ensures Keys(loc, Firsts(loc, tags)) == Keys(loc, tags)
  {
    if tags != [] {
      var init, last := tags[..|tags| - 1], tags[|tags| - 1];
      FirstsKeepKeys(loc, init);
      KeysAre(loc, init, loc.lower(last));
      if IsFirst(loc, tags, |tags| - 1) {
        assert Firsts(loc, tags)[..|Firsts(loc, init)|] == Firsts(loc, init);
      } else {
        assert Firsts(loc, tags) == Firsts(loc, init);
        var j :| 0 <= j < |tags| - 1 && loc.lower(tags[j]) == loc.lower(last);
        assert init[j] == tags[j];
      }
    }
  }

  /** One more candidate joins the firsts exactly when its lower-case form was not seen. */
  lemma FirstsSnoc(loc: Locale, tags: seq<string>, tag: string)
    ensures Firsts(loc, tags + [tag])
         == Firsts(loc, tags) + if loc.lower(tag) in Keys(loc, Firsts(loc, tags)) then [] else [tag]
  {
    var more := tags + [tag];
    assert more[..|more| - 1] == tags;
    FirstsKeepKeys(loc, tags);
    KeysAre(loc, tags, loc.lower(tag));
    if i :| 0 <= i < |tags| && loc.lower(tags[i]) == loc.lower(tag) {
      assert loc.lower(more[i]) == loc.lower(more[|tags|]);
    }
  }

  lemma {:induction false} CandidatesGrow(loc: Locale, items: seq<Item>, n: nat)
    requires n <= |items|
    ensures Firsts(loc, Candidates(loc, items[..n])) <= Firsts(loc, Candidates(loc, items))
    decreases |items| - n
  {
    if n == |items| {
      assert items[..n] == items;
    } else {
      CandidatesGrow(loc, items, n + 1);
      CandidateSnoc(loc, items, n);
    }
  }

  lemma CandidateSnoc(loc: Locale, items: seq<Item>, n: nat)
    requires n < |items|
    ensures
      var before, item := Candidates(loc, items[..n]), items[n];
      var after := Candidates(loc, items[..n + 1]);
      && Firsts(loc, before) <= Firsts(loc, after)
      && (if item.Tag? && Clean(loc, item.text) != "" then
            Firsts(loc, after) == Firsts(loc, before)
              + if Lower(loc, item.text) in Keys(loc, Firsts(loc, before)) then [] else [Clean(loc, item.text)]
          else Firsts(loc, after) == Firsts(loc, before))
  {
    assert items[..n + 1][..n] == items[..n];
    var before, item := Candidates(loc, items[..n]), items[n];
    if item.Tag? && Clean(loc, item.text) != "" {
      FirstsSnoc(loc, before, Clean(loc, item.text));
    } else {
      assert before + [] == before;
    }
  }

  function Lower(loc: Locale, raw: string): string {
    loc.lower(Clean(loc, raw))
  }

  /** The tags and the keys seen after i items, and no early stop so far. */
  ghost predicate Collected(loc: Locale, items: seq<Item>, i: nat, tags: seq<string>, seen: set<string>)
    requires i <= |items|
  {
    tags == Firsts(loc, Candidates(loc, items[..i])) && seen == Keys(loc, tags)
  }

  lemma CollectOne(loc: Locale, items: seq<Item>, i: nat, tags: seq<string>, seen: set<string>)
    requires i < |items| && Collected(loc, items, i, tags, seen)
    ensures
      var tag := if items[i].Tag? then Clean(loc, items[i].text) else "";
      if tag == "" || loc.lower(tag) in seen then Collected(loc, items, i + 1, tags, seen)
      else Collected(loc, items, i + 1, tags + [tag], seen + {loc.lower(tag)})
  {
    CandidateSnoc(loc, items, i);
    if items[i].Tag? {
      assert (tags + [Clean(loc, items[i].text)])[..|tags|] == tags;
    }
  }

  /** The list is finished at its end, or as soon as it holds 12 tags. */
  lemma CollectedEnough(loc: Locale, items: seq<Item>, i: nat, tags: seq<string>, seen: set<string>)
    requires i <= |items| && Collected(loc, items, i, tags, seen) && |tags| <= MAX_TAGS
    requires i == |items| || |tags| == MAX_TAGS
    ensures tags == CleanTags(loc, items)
  {
    CandidatesGrow(loc, items, i);
    assert i == |items| ==> items[..i] == items;
  }

  /** `_clean_tags`; None passes through. */
  method CleanTagsLoop(loc: Locale, value: Option<seq<Item>>) returns (out: Option<seq<string>>)
    ensures value.None? ==> out.None?
    ensures value.Some? ==> out == Some(CleanTags(loc, value.value))
  {
    if value.None? {
      return None;
    }
    var items := value.value;
    var seen: set<string>, tags: seq<string> := {}, [];
    for i := 0 to |items|
      invariant Collected(loc, items, i, tags, seen) && |tags| < MAX_TAGS
    {
      CollectOne(loc, items, i, tags, seen);
      if items[i].NotText? {
        continue;
      }
      var tag := Clean(loc, items[i].text);
      if tag == "" {
        continue;
      }
      var key := loc.lower(tag);
      if key in seen {
        continue;
      }
      seen, tags := seen + {key}, tags + [tag];
      if |tags| >= MAX_TAGS {
        CollectedEnough(loc, items, i + 1, tags, seen);
        return Some(tags);
      }
    }
    CollectedEnough(loc, items, |items|, tags, seen);
    out := Some(tags);
  }

  // ---- What the tags are ----------------------------------------------------------------------------

  lemma {:induction false} WithoutControlsIs(s: string)
    ensures forall c :: c in WithoutControls(s) <==> c in s && !IsControl(c)
    ensures (forall c :: c in s ==> !IsControl(c)) ==> WithoutControls(s) == s
  {
    if s != "" {
      WithoutControlsIs(s[1..]);
      assert s == [s[0]] + s[1..];
    }
  }

  /** Cleaning gives a clean tag or nothing, and leaves a clean tag alone. */
  lemma CleanIs(loc: Locale, raw: string)
    ensures Clean(loc, raw) == "" || IsClean(loc, Clean(loc, raw))
    ensures IsClean(loc, raw) ==> Clean(loc, raw) == raw
  {
    var plain := WithoutControls(raw);
    WithoutControlsIs(raw);
    StripIsTidy(plain, loc.space);
    StripIsTidy(Cut(Strip(plain, loc.space)), loc.space);
  }

  ghost predicate Distinct(loc: Locale, tags: seq<string>) {
    forall i, j :: 0 <= i < j < |tags| ==> loc.lower(tags[i]) != loc.lower(tags[j])
  }

  lemma {:induction false} FirstsAreDistinct(loc: Locale, tags: seq<string>)
    ensures Distinct(loc, Firsts(loc, tags)) && forall t :: t in Firsts(loc, tags) ==> t in tags
    ensures Distinct(loc, tags) ==> Firsts(loc, tags) == tags
  {
    if tags != [] {
      var init, last := tags[..|tags| - 1], tags[|tags| - 1];
      FirstsAreDistinct(loc, init);
      assert tags == init + [last];
      FirstsSnoc(loc, init, last);
      var kept := Firsts(loc, init);
      KeysAre(loc, kept, loc.lower(last));
    }
  }

  lemma {:induction false} CandidatesAreClean(loc: Locale, items: seq<Item>)
    ensures forall t :: t in Candidates(loc, items) ==> IsClean(loc, t)
  {
    if items != [] {
      CandidatesAreClean(loc, items[..|items| - 1]);
      if items[|items| - 1].Tag? {
        CleanIs(loc, items[|items| - 1].text);
      }
    }
  }

  /** The candidates stand in the order of the inputs. */
  lemma {:induction false} CandidatesParts(loc: Locale, a: seq<Item>, b: seq<Item>)
    ensures Candidates(loc, a + b) == Candidates(loc, a) + Candidates(loc, b)
    decreases |b|
  {
    if b == [] {
      assert a + b == a;
    } else {
      assert (a + b)[..|a + b| - 1] == a + b[..|b| - 1];
      CandidatesParts(loc, a, b[..|b| - 1]);
    }
  }

  /** The first tags win, and nothing is lost below the cap: every candidate is represented, ignoring case, unless 12 tags are kept. */
  lemma CleanTagsCover(loc: Locale, items: seq<Item>)
    ensures
      var out := CleanTags(loc, items);
      && out <= Firsts(loc, Candidates(loc, items)) && |out| <= 12
      && (|out| == 12 || Keys(loc, out) == Keys(loc, Candidates(loc, items)))
  {
    FirstsKeepKeys(loc, Candidates(loc, items));
  }

  function AsItems(tags: seq<string>): seq<Item> {
    seq(|tags|, i requires 0 <= i < |tags| => Tag(tags[i]))
  }

  lemma {:induction false} CleanCandidatesStay(loc: Locale, tags: seq<string>)
    requires forall t :: t in tags ==> IsClean(loc, t)
    ensures Candidates(loc, AsItems(tags)) == tags
  {
    if tags != [] {
      var init, last := tags[..|tags| - 1], tags[|tags| - 1];
      assert tags == init + [last];
      CleanCandidatesStay(loc, init);
      var items := AsItems(tags);
      assert items[..|items| - 1] == AsItems(init) && items[|items| - 1] == Tag(last);
      assert last in tags;
      CleanIs(loc, last);
      assert Clean(loc, items[|items| - 1].text) == last != "";
      assert Candidates(loc, items) == init + [last];
    }
  }

  /**
  The output is at most 12 tags, each trimmed, free of control characters and at most 24 characters long,
  no two equal ignoring case; and cleaning it again changes nothing. For any notion of case and white space.
  */
  lemma CleanTagsAreClean(loc: Locale, items: seq<Item>)
    ensures
      var out := CleanTags(loc, items);
      && |out| <= MAX_TAGS && Distinct(loc, out) && (forall t :: t in out ==> IsClean(loc, t))
      && CleanTags(loc, AsItems(out)) == out
  {
    var candidates := Candidates(loc, items);
    CandidatesAreClean(loc, items);
    FirstsAreDistinct(loc, candidates);
    var out := CleanTags(loc, items);
    CleanCandidatesStay(loc, out);
    FirstsAreDistinct(loc, out);
  }
}
