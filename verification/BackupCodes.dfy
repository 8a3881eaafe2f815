/**
Recovery codes, app/auth/mfa.py `consume_backup_code`. Password verification is a deterministic predicate
on the cleaned code and the hash; nothing is claimed about the cryptography.
*/
module BackupCodes {
  import opened Wrappers
  import opened Text

  /** `verify_password`, `str.lower`, and the white space of `strip`. */
  datatype World = World(verify: (string, string) -> bool, lower: string -> string, space: Space)

  function WithoutSpaces(s: string): string {
    if s == "" then "" else (if s[0] == ' ' then "" else [s[0]]) + WithoutSpaces(s[1..])
  }

  /** `code.strip().lower().replace(" ", "")` */
  function Cleaned(w: World, code: string): string {
    WithoutSpaces(w.lower(Strip(code, w.space)))
  }

  lemma {:induction false} WithoutSpacesParts(a: string, b: string)
    ensures WithoutSpaces(a + b) == WithoutSpaces(a) + WithoutSpaces(b)
  {
    if a == "" {
      assert a + b == b;
    } else {
      assert (a + b)[1..] == a[1..] + b;
      WithoutSpacesParts(a[1..], b);
    }
  }

  lemma {:induction false} WithoutSpacesIs(s: string)
    ensures ' ' !in WithoutSpaces(s) && (' ' !in s ==> WithoutSpaces(s) == s)
    ensures forall c :: c != ' ' ==> multiset(WithoutSpaces(s))[c] == multiset(s)[c]
  {
    if s != "" {
      WithoutSpacesIs(s[1..]);
      assert s == [s[0]] + s[1..];
    }
  }

  /** A code is trimmed and lower-cased, and exactly its spaces are dropped. */
  lemma CleanedIs(w: World, code: string)
    ensures
      var plain, cleaned := w.lower(Strip(code, w.space)), Cleaned(w, code);
      && ' ' !in cleaned && (' ' !in plain ==> cleaned == plain)
      && (forall c :: c != ' ' ==> multiset(cleaned)[c] == multiset(plain)[c])
  {
    WithoutSpacesIs(w.lower(Strip(code, w.space)));
  }

  function FirstMatch(w: World, hashes: seq<string>, cleaned: string): (i: Option<nat>)
    ensures i.Some? ==> i.value < |hashes| && w.verify(cleaned, hashes[i.value])
  {
    if hashes == [] then None
    else if w.verify(cleaned, hashes[0]) then Some(0)
    else
      var later := FirstMatch(w, hashes[1..], cleaned);
      if later.None? then None else Some(later.value + 1)
  }

  /** `(matched, remaining)`; a missing list or a missing or empty code matches nothing. */
  function Consume(w: World, hashes: Option<seq<string>>, code: Option<string>): (bool, seq<string>) {
    if hashes.None? || hashes.value == [] then (false, [])
    else if code.None? || code.value == "" then (false, hashes.value)
    else
      var i := FirstMatch(w, hashes.value, Cleaned(w, code.value));
      if i.Some? then (true, hashes.value[..i.value] + hashes.value[i.value + 1..])
      else (false, hashes.value)
  }

  predicate Matches(w: World, code: Option<string>, hash: string) {
    code.Some? && code.value != "" && w.verify(Cleaned(w, code.value), hash)
  }

  lemma {:induction false} FirstMatchIs(w: World, hashes: seq<string>, cleaned: string)
    ensures
      var i := FirstMatch(w, hashes, cleaned);
      && (i.None? <==> forall h :: h in hashes ==> !w.verify(cleaned, h))
      && (i.Some? ==> forall j :: 0 <= j < i.value ==> !w.verify(cleaned, hashes[j]))
  {
    if hashes != [] {
      FirstMatchIs(w, hashes[1..], cleaned);
      assert hashes == [hashes[0]] + hashes[1..];
    }
  }

  predicate IsEarliest(w: World, hashes: seq<string>, code: Option<string>, i: int) {
    && 0 <= i < |hashes| && Matches(w, code, hashes[i])
    && forall j :: 0 <= j < i ==> !Matches(w, code, hashes[j])
  }

  /** One attempt: accepted exactly when some hash matches, and then the earliest match, and only it, is gone. */
  lemma ConsumeRemovesEarliest(w: World, hashes: seq<string>, code: Option<string>)
    ensures
      var (matched, rest) := Consume(w, Some(hashes), code);
      && (matched <==> exists i :: 0 <= i < |hashes| && Matches(w, code, hashes[i]))
      && (!matched ==> rest == hashes)
      && (matched ==> exists i :: IsEarliest(w, hashes, code, i) && rest == hashes[..i] + hashes[i + 1..])
  {
    if code.Some? && code.value != "" {
      FirstMatchIs(w, hashes, Cleaned(w, code.value));
      if FirstMatch(w, hashes, Cleaned(w, code.value)).Some? {
        var i := FirstMatch(w, hashes, Cleaned(w, code.value)).value;
        assert IsEarliest(w, hashes, code, i);
      }
    }
  }

  /** A missing or empty list of hashes accepts nothing and leaves nothing; no code is accepted when none is given. */
  lemma NothingToConsume(w: World, hashes: Option<seq<string>>, code: Option<string>)
    ensures hashes.None? || hashes.value == [] ==> Consume(w, hashes, code) == (false, [])
    ensures hashes.Some? && (code.None? || code.value == "") ==> Consume(w, hashes, code) == (false, hashes.value)
  {
  }

  // ---- Runs of attempts, each on the hashes the last one left ---------------------------------------

  function Remaining(w: World, hashes: seq<string>, codes: seq<Option<string>>): seq<string> {
    if codes == [] then hashes else Remaining(w, Consume(w, Some(hashes), codes[0]).1, codes[1..])
  }

  /** How many attempts that come down to this cleaned code are accepted, however they spell it. */
  function Accepted(w: World, hashes: seq<string>, codes: seq<Option<string>>, cleaned: string): nat {
    if codes == [] then 0
    else
      var (matched, rest) := Consume(w, Some(hashes), codes[0]);
      (if matched && Cleaned(w, codes[0].value) == cleaned then 1 else 0) + Accepted(w, rest, codes[1..], cleaned)
  }

  function Successes(w: World, hashes: seq<string>, codes: seq<Option<string>>): nat {
    if codes == [] then 0
    else
      var (matched, rest) := Consume(w, Some(hashes), codes[0]);
      (if matched then 1 else 0) + Successes(w, rest, codes[1..])
  }

  /** How many hashes a cleaned code matches. */
  function Matching(w: World, hashes: seq<string>, cleaned: string): nat {
    if hashes == [] then 0 else (if w.verify(cleaned, hashes[0]) then 1 else 0) + Matching(w, hashes[1..], cleaned)
  }

  lemma {:induction false} MatchingParts(w: World, xs: seq<string>, ys: seq<string>, cleaned: string)
    ensures Matching(w, xs + ys, cleaned) == Matching(w, xs, cleaned) + Matching(w, ys, cleaned)
  {
    if xs == [] {
      assert xs + ys == ys;
    } else {
      assert (xs + ys)[1..] == xs[1..] + ys;
      MatchingParts(w, xs[1..], ys, cleaned);
    }
  }

  /** Removing hash i lowers a code's matches by one when it matched hash i. */
  lemma MatchingWithout(w: World, hashes: seq<string>, i: nat, cleaned: string)
    requires i < |hashes|
    ensures Matching(w, hashes[..i] + hashes[i + 1..], cleaned)
         == Matching(w, hashes, cleaned) - if w.verify(cleaned, hashes[i]) then 1 else 0
  {
    assert hashes == hashes[..i] + ([hashes[i]] + hashes[i + 1..]);
    MatchingParts(w, hashes[..i], [hashes[i]] + hashes[i + 1..], cleaned);
    MatchingParts(w, hashes[..i], hashes[i + 1..], cleaned);
    assert ([hashes[i]] + hashes[i + 1..])[1..] == hashes[i + 1..];
  }

  /**
  One-time use, over any run of attempts with any codes in any order: a code, in all its spellings together, is
  accepted at most as often as there were hashes matching it (so at most once when it matched one), and every
  success uses up one hash.
  */
  lemma {:induction false} CodesAreUsedUp(w: World, hashes: seq<string>, codes: seq<Option<string>>, cleaned: string)
    ensures Accepted(w, hashes, codes, cleaned) <= Matching(w, hashes, cleaned)
    ensures Successes(w, hashes, codes) + |Remaining(w, hashes, codes)| == |hashes|
    decreases |codes|
  {
    if codes != [] {
      ConsumeRemovesEarliest(w, hashes, codes[0]);
      var (matched, rest) := Consume(w, Some(hashes), codes[0]);
      if matched {
        var i :| IsEarliest(w, hashes, codes[0], i) && rest == hashes[..i] + hashes[i + 1..];
        MatchingWithout(w, hashes, i, cleaned);
      }
      CodesAreUsedUp(w, rest, codes[1..], cleaned);
    }
  }
}
