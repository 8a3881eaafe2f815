/** The NUL stripping of JSON columns, app/db/types.py. */
module DbTypes {
  import opened Wrappers
  import opened Json

  const NUL: char := '\0'

  /** `value.replace(_NUL, "")` */
  function StripText(s: string): string {
    if s == "" then "" else (if s[0] == NUL then "" else [s[0]]) + StripText(s[1..])
  }

  /** `d[key] = value`: a key that is already there keeps its place and takes the new value. */
  function Assign(members: seq<Member>, key: string, value: Json): seq<Member> {
    if members == [] then [Member(key, value)]
    else if members[0].key == key then [Member(key, value)] + members[1..]
    else [members[0]] + Assign(members[1..], key, value)
  }

  /** The dict a comprehension builds from these pairs, in this order. */
  function DictOf(pairs: seq<Member>): seq<Member> {
    if pairs == [] then []
    else
      var last := pairs[|pairs| - 1];
      Assign(DictOf(pairs[..|pairs| - 1]), last.key, last.value)
  }

  function StripNul(j: Json): Json {
    match j
    case Str(s) => Str(StripText(s))
    case Arr(items) => Arr(seq(|items|, i requires 0 <= i < |items| => StripNul(items[i])))
    case Obj(members) => Obj(DictOf(StripPairs(members)))
    case _ => j
  }

  function StripPairs(members: seq<Member>): seq<Member>
    decreases members
  {
    seq(|members|, i requires 0 <= i < |members| => Member(StripText(members[i].key), StripNul(members[i].value)))
  }

  predicate NulFree(j: Json) {
    match j
    case Str(s) => NUL !in s
    case Arr(items) => forall i :: 0 <= i < |items| ==> NulFree(items[i])
    case Obj(members) =>
      forall i :: 0 <= i < |members| ==> NUL !in members[i].key && NulFree(members[i].value)
    case _ => true
  }

  /** The order is kept: any cut of the text is a cut of the result. */
  lemma {:induction false} StripTextParts(a: string, b: string)
    ensures StripText(a + b) == StripText(a) + StripText(b)
  {
    if a == "" {
      assert a + b == b;
    } else {
      assert (a + b)[1..] == a[1..] + b;
      StripTextParts(a[1..], b);
    }
  }

  lemma {:induction false} StripTextIs(s: string)
    ensures NUL !in StripText(s)
    ensures NUL !in s ==> StripText(s) == s
    ensures forall c :: c != NUL ==> multiset(StripText(s))[c] == multiset(s)[c]
  {
    if s != "" {
      StripTextIs(s[1..]);
      assert s == [s[0]] + s[1..];
    }
  }

  lemma {:induction false} AssignIs(members: seq<Member>, key: string, value: Json)
    requires DistinctKeys(members)
    ensures
      var after := Assign(members, key, value);
      && DistinctKeys(after)
      && (forall m :: m in after <==> m == Member(key, value) || (m in members && m.key != key))
  {
    if members != [] && members[0].key != key {
      AssignIs(members[1..], key, value);
      assert forall m :: m in members <==> m == members[0] || m in members[1..];
    }
  }

  /** The pair a dict keeps for `key`: the last one. */
  function LastPair(pairs: seq<Member>, key: string): Option<Member> {
    if pairs == [] then None
    else if pairs[|pairs| - 1].key == key then Some(pairs[|pairs| - 1])
    else LastPair(pairs[..|pairs| - 1], key)
  }

  lemma {:induction false} DictKeepsLastPairs(pairs: seq<Member>)
    ensures DistinctKeys(DictOf(pairs))
    ensures forall m :: m in DictOf(pairs) <==> LastPair(pairs, m.key) == Some(m)
  {
    if pairs != [] {
      var init, last := pairs[..|pairs| - 1], pairs[|pairs| - 1];
      DictKeepsLastPairs(init);
      AssignIs(DictOf(init), last.key, last.value);
    }
  }

  lemma {:induction false} LastPairIsMember(pairs: seq<Member>, key: string)
    ensures LastPair(pairs, key).Some? ==> LastPair(pairs, key).value in pairs && LastPair(pairs, key).value.key == key
    ensures LastPair(pairs, key).None? ==> forall m :: m in pairs ==> m.key != key
  {
    if pairs != [] {
      LastPairIsMember(pairs[..|pairs| - 1], key);
      assert pairs == pairs[..|pairs| - 1] + [pairs[|pairs| - 1]];
    }
  }

  lemma {:induction false} AssignNew(members: seq<Member>, key: string, value: Json)
    requires forall i :: 0 <= i < |members| ==> members[i].key != key
    ensures Assign(members, key, value) == members + [Member(key, value)]
  {
    if members != [] {
      AssignNew(members[1..], key, value);
    }
  }

  lemma {:induction false} DistinctPairsStay(pairs: seq<Member>)
    requires DistinctKeys(pairs)
    ensures DictOf(pairs) == pairs
  {
    if pairs != [] {
      var init := pairs[..|pairs| - 1];
      DistinctPairsStay(init);
      AssignNew(init, pairs[|pairs| - 1].key, pairs[|pairs| - 1].value);
    }
  }

  /** No NUL is left in any key or string, and every object of the result is a dict. */
  lemma {:induction false} StripLeavesNoNul(j: Json)
    ensures NulFree(StripNul(j)) && WellFormed(StripNul(j))
  {
    match j {
      case Str(s) => StripTextIs(s);
      case Arr(items) =>
        forall i | 0 <= i < |items| ensures NulFree(StripNul(items[i])) && WellFormed(StripNul(items[i])) {
          StripLeavesNoNul(items[i]);
        }
      case Obj(members) =>
        var pairs := StripPairs(members);
        DictKeepsLastPairs(pairs);
        forall m | m in pairs ensures NUL !in m.key && NulFree(m.value) && WellFormed(m.value) {
          var i :| 0 <= i < |pairs| && pairs[i] == m;
          StripTextIs(members[i].key);
          StripLeavesNoNul(members[i].value);
        }
        var out := DictOf(pairs);
        forall i | 0 <= i < |out| ensures out[i] in pairs {
          LastPairIsMember(pairs, out[i].key);
        }
      case _ =>
    }
  }

  /** A document is left alone exactly when it holds no NUL. */
  lemma {:induction false} StripIsIdentityIff(j: Json)
    requires WellFormed(j)
    ensures StripNul(j) == j <==> NulFree(j)
  {
    if NulFree(j) {
      NulFreeStays(j);
    } else {
      StripLeavesNoNul(j);
    }
  }

  lemma {:induction false} NulFreeStays(j: Json)
    requires WellFormed(j) && NulFree(j)
    ensures StripNul(j) == j
  {
    match j {
      case Str(s) => StripTextIs(s);
      case Arr(items) =>
        forall i | 0 <= i < |items| ensures StripNul(items[i]) == items[i] {
          NulFreeStays(items[i]);
        }
      case Obj(members) =>
        forall i | 0 <= i < |members| ensures StripPairs(members)[i] == members[i] {
          StripTextIs(members[i].key);
          NulFreeStays(members[i].value);
        }
        assert StripPairs(members) == members;
        DistinctPairsStay(members);
      case _ =>
    }
  }

  lemma StripIsIdempotent(j: Json)
    ensures StripNul(StripNul(j)) == StripNul(j)
  {
    StripLeavesNoNul(j);
    NulFreeStays(StripNul(j));
  }

  /**
  The shape that is kept: scalars unchanged, texts stripped, arrays element by element, and an object whose keys are
  exactly the stripped keys, each with the stripped value of the last member whose key strips to it.
  */
  lemma StripKeepsShape(j: Json)
    ensures j.Null? || j.Bool? || j.Number? ==> StripNul(j) == j
    ensures j.Str? ==> StripNul(j) == Str(StripText(j.s))
    ensures j.Arr? ==>
      StripNul(j).Arr? && |StripNul(j).items| == |j.items|
      && forall i :: 0 <= i < |j.items| ==> StripNul(j).items[i] == StripNul(j.items[i])
    ensures j.Obj? ==>
      StripNul(j).Obj? && DistinctKeys(StripNul(j).members)
      && (forall k, v :: Member(k, v) in StripNul(j).members <==>
            exists i :: LastToStripTo(j.members, k, i) && v == StripNul(j.members[i].value))
  {
    if j.Obj? {
      var pairs := StripPairs(j.members);
      DictKeepsLastPairs(pairs);
      forall k, v
        ensures Member(k, v) in StripNul(j).members <==>
                exists i :: LastToStripTo(j.members, k, i) && v == StripNul(j.members[i].value)
      {
        LastPairAt(j.members, k);
        assert LastPair(pairs, Member(k, v).key) == Some(Member(k, v)) <==> Member(k, v) in DictOf(pairs);
      }
    }
  }

  /** Member i is the last one whose key becomes `key` once stripped. */
  predicate LastToStripTo(members: seq<Member>, key: string, i: int) {
    && 0 <= i < |members| && StripText(members[i].key) == key
    && forall j :: i < j < |members| ==> StripText(members[j].key) != key
  }

  lemma {:induction false} LastPairAt(members: seq<Member>, key: string)
    ensures
      var last := LastPair(StripPairs(members), key);
      && (last.Some? ==> exists i :: LastToStripTo(members, key, i) && last.value == StripPairs(members)[i])
      && (last.None? ==> forall i :: !LastToStripTo(members, key, i))
  {
    if members != [] {
      var n := |members| - 1;
      var init := members[..n];
      assert StripPairs(members)[..n] == StripPairs(init);
      if StripText(members[n].key) == key {
        assert LastToStripTo(members, key, n);
      } else {
        LastPairAt(init, key);
        forall i ensures LastToStripTo(members, key, i) <==> LastToStripTo(init, key, i) {
          if LastToStripTo(init, key, i) {
            assert LastToStripTo(members, key, i);
          }
          if LastToStripTo(members, key, i) {
            assert forall j :: i < j < n ==> init[j] == members[j];
          }
        }
      }
    }
  }
}
