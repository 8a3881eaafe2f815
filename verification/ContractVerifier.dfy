/**
The consumer-contract walker of scripts/verify_consumer_contracts.py: does an OpenAPI document still
declare the response field a consumer needs?

Schemas are JSON values of one document, tied together by `$ref`, so they form a graph. A malformed
document can make the Python raise, and `_branches` has no recursion bound of its own; both show as
`Raises`. `depth` stands for the frames left below Python's recursion limit.
*/
module ContractVerifier {
  import opened Wrappers
  import opened Json

  datatype PythonError = RecursionError | TypeError | AttributeError

  datatype Outcome<+T> = Ok(value: T) | Raises(error: PythonError) {
    predicate IsFailure() {
      Raises?
    }

    function PropagateFailure<U>(): Outcome<U>
      requires Raises?
    {
      Raises(error)
    }

    function Extract(): T
      requires Ok?
    {
      value
    }
  }

  const MAX_REFS := 20
  const COMPOSITION := ["anyOf", "oneOf", "allOf"]

  // ---- Text -----------------------------------------------------------------------------------

  /** Python's `s.split(sep)`. */
  function Split(s: string, sep: char): (parts: seq<string>)
    ensures parts != []
  {
    if s == "" then [""]
    else
      var rest := Split(s[1..], sep);
      if s[0] == sep then [""] + rest else [[s[0]] + rest[0]] + rest[1..]
  }

  function Join(parts: seq<string>, sep: char): string {
    if parts == [] then "" else if |parts| == 1 then parts[0] else parts[0] + [sep] + Join(parts[1..], sep)
  }

  lemma JoinCons(first: string, rest: seq<string>, sep: char)
    requires rest != []
    ensures Join([first] + rest, sep) == first + [sep] + Join(rest, sep)
  {
    assert ([first] + rest)[1..] == rest;
  }

  lemma JoinLonger(c: char, parts: seq<string>, sep: char)
    requires parts != []
    ensures Join([[c] + parts[0]] + parts[1..], sep) == [c] + Join(parts, sep)
  {
    assert ([[c] + parts[0]] + parts[1..])[1..] == parts[1..];
  }

  /** Splitting is the one way to read the text as parts without the separator. */
  lemma {:induction false} SplitJoins(s: string, sep: char)
    ensures Join(Split(s, sep), sep) == s
    ensures forall i :: 0 <= i < |Split(s, sep)| ==> sep !in Split(s, sep)[i]
  {
    if s != "" {
      SplitJoins(s[1..], sep);
      var rest := Split(s[1..], sep);
      assert s == [s[0]] + s[1..];
      if s[0] == sep {
        JoinCons("", rest, sep);
      } else {
        JoinLonger(s[0], rest, sep);
      }
    }
  }

  lemma {:induction false} SplitPrefix(a: string, rest: string, sep: char)
    requires sep !in a
    ensures Split(a + [sep] + rest, sep) == [a] + Split(rest, sep)
  {
    if a == "" {
      assert a + [sep] + rest == [sep] + rest;
      assert ([sep] + rest)[1..] == rest;
    } else {
      var whole := a + [sep] + rest;
      assert whole[1..] == a[1..] + [sep] + rest;
      SplitPrefix(a[1..], rest, sep);
      assert [a[0]] + a[1..] == a;
    }
  }

  lemma {:induction false} SplitPlain(a: string, sep: char)
    requires sep !in a
    ensures Split(a, sep) == [a]
  {
    if a != "" {
      SplitPlain(a[1..], sep);
      assert [a[0]] + a[1..] == a;
    }
  }

  /** Parts without the separator are read back from their joined text. */
  lemma {:induction false} JoinSplits(parts: seq<string>, sep: char)
    requires parts != [] && forall p :: p in parts ==> sep !in p
    ensures Split(Join(parts, sep), sep) == parts
  {
    if |parts| == 1 {
      SplitPlain(parts[0], sep);
    } else {
      SplitPrefix(parts[0], Join(parts[1..], sep), sep);
      JoinSplits(parts[1..], sep);
    }
  }

  // ---- $ref -----------------------------------------------------------------------------------

  /** From the root of the document along the keys of a pointer. */
  function Follow(node: Json, parts: seq<string>): Option<Json> {
    if parts == [] then Some(node)
    else
      var child := Get(node, parts[0]);
      if child.None? then None else Follow(child.value, parts[1..])
  }

  predicate IsRef(schema: Option<Json>) {
    schema.Some? && Get(schema.value, "$ref").Some?
  }

  function RefTarget(ref: Json, spec: Json): Outcome<Option<Json>> {
    if !ref.Str? then Raises(AttributeError)
    else if !("#/" <= ref.s) then Ok(None)
    else Ok(Follow(spec, Split(ref.s[2..], '/')))
  }

  function DerefFrom(schema: Option<Json>, spec: Json, left: nat): (r: Outcome<Option<Json>>)
    ensures r.Ok? && r.value.Some? ==> r.value.value.Obj?
    decreases left, spec
  {
    if left > 0 && IsRef(schema) then
      var target :- RefTarget(Get(schema.value, "$ref").value, spec);
      if target.None? then Ok(None) else DerefFrom(target, spec, left - 1)
    else Ok(if schema.Some? && schema.value.Obj? then schema else None)
  }

  /** `_deref`: the object a schema stands for, or None when there is none. */
  function Deref(schema: Option<Json>, spec: Json): Outcome<Option<Json>> {
    DerefFrom(schema, spec, MAX_REFS)
  }

  method DerefLoop(schema: Option<Json>, spec: Json) returns (r: Outcome<Option<Json>>)
    ensures r == Deref(schema, spec)
  {
    var current, seen := schema, 0;
    while seen < MAX_REFS && IsRef(current)
      invariant seen <= MAX_REFS
      invariant DerefFrom(current, spec, MAX_REFS - seen) == Deref(schema, spec)
    {
      var ref := Get(current.value, "$ref").value;
      if !ref.Str? {
        return Raises(AttributeError);
      }
      if !("#/" <= ref.s) {
        return Ok(None);
      }
      var node, parts := spec, Split(ref.s[2..], '/');
      for i := 0 to |parts|
        invariant Follow(node, parts[i..]) == Follow(spec, parts)
      {
        var child := Get(node, parts[i]);
        if child.None? {
          return Ok(None);
        }
        node := child.value;
      }
      current := Some(node);
      seen := seen + 1;
    }
    r := Ok(if current.Some? && current.value.Obj? then current else None);
  }

  /** A reference that is no text makes `_deref` raise, and a composition that is a number or true `_branches`. */
  lemma RaisesFor(ref: Json, spec: Json, list: Option<Json>)
    ensures RefTarget(ref, spec) == Raises(AttributeError) <==> !ref.Str?
    ensures RefTarget(ref, spec).Raises? <==> !ref.Str?
    ensures Elements(list) == Raises(TypeError) <==> list.Some? && (list.value == Bool(true) || (list.value.Number? && list.value.n != 0.0))
    ensures Elements(list).Raises? ==> Elements(list) == Raises(TypeError)
  {
  }

  // ---- What a reference resolves to ------------------------------------------------------------------------

  lemma {:induction false} FollowOn(node: Json, a: seq<string>, b: seq<string>)
    ensures Follow(node, a + b) == var mid := Follow(node, a); if mid.None? then None else Follow(mid.value, b)
    decreases |a|
  {
    if a == [] {
      assert a + b == b;
    } else {
      assert (a + b)[1..] == a[1..] + b;
      var child := Get(node, a[0]);
      if child.Some? {
        FollowOn(child.value, a[1..], b);
      }
    }
  }

  /** The text is `#/` and a path of keys, and the path leads from the root of the document to the node. */
  ghost predicate PointsTo(ref: Json, spec: Json, node: Json) {
    ref.Str? && exists parts :: IsPointer(ref.s, parts) && Follow(spec, parts) == Some(node)
  }

  ghost predicate IsPointer(text: string, parts: seq<string>) {
    parts != [] && text == "#/" + Join(parts, '/') && forall p :: p in parts ==> '/' !in p
  }

  lemma RefTargetIs(ref: Json, spec: Json, node: Json)
    ensures RefTarget(ref, spec) == Ok(Some(node)) <==> PointsTo(ref, spec, node)
  {
    if ref.Str? && "#/" <= ref.s {
      SplitJoins(ref.s[2..], '/');
      assert ref.s == "#/" + ref.s[2..];
      assert IsPointer(ref.s, Split(ref.s[2..], '/'));
    }
    if parts :| ref.Str? && IsPointer(ref.s, parts) && Follow(spec, parts) == Some(node) {
      JoinSplits(parts, '/');
      assert ref.s[2..] == Join(parts, '/');
    }
  }

  /** `to` is n references away from the schema. */
  ghost predicate Jumps(schema: Json, to: Json, n: nat, spec: Json)
    decreases n
  {
    if n == 0 then to == schema
    else exists mid :: HasRefTo(schema, mid, spec) && Jumps(mid, to, n - 1, spec)
  }

  ghost predicate HasRefTo(schema: Json, mid: Json, spec: Json) {
    Get(schema, "$ref").Some? && PointsTo(Get(schema, "$ref").value, spec, mid)
  }

  /** Some number of references, at most `most`, leads to an object; fewer only if it is no reference itself. */
  ghost predicate Lands(schema: Json, to: Json, most: nat, spec: Json) {
    to.Obj? && exists n: nat :: n <= most && Jumps(schema, to, n, spec) && (n == most || Get(to, "$ref").None?)
  }

  lemma LandsByRef(schema: Json, mid: Json, to: Json, most: nat, spec: Json)
    requires most > 0 && Get(schema, "$ref").Some? && RefTarget(Get(schema, "$ref").value, spec) == Ok(Some(mid))
    ensures Lands(schema, to, most, spec) <==> Lands(mid, to, most - 1, spec)
  {
    var ref := Get(schema, "$ref").value;
    if Lands(schema, to, most, spec) {
      var n: nat :| n <= most && Jumps(schema, to, n, spec) && (n == most || Get(to, "$ref").None?);
      var m :| HasRefTo(schema, m, spec) && Jumps(m, to, n - 1, spec);
      RefTargetIs(ref, spec, m);
      assert m == mid && n - 1 <= most - 1;
    }
    if Lands(mid, to, most - 1, spec) {
      var n: nat :| n <= most - 1 && Jumps(mid, to, n, spec) && (n == most - 1 || Get(to, "$ref").None?);
      RefTargetIs(ref, spec, mid);
      assert HasRefTo(schema, mid, spec) && Jumps(schema, to, n + 1, spec);
    }
  }

  lemma LandsNowhere(schema: Json, to: Json, most: nat, spec: Json)
    requires most > 0 && Get(schema, "$ref").Some? && forall mid :: !HasRefTo(schema, mid, spec)
    ensures !Lands(schema, to, most, spec)
  {
  }

  lemma LandsHere(schema: Json, to: Json, most: nat, spec: Json)
    requires most == 0 || Get(schema, "$ref").None?
    ensures Lands(schema, to, most, spec) <==> to == schema && to.Obj?
  {
    if to == schema && to.Obj? {
      assert Jumps(schema, to, 0, spec);
    }
  }

  lemma {:induction false} DerefFromIs(schema: Json, to: Json, spec: Json, left: nat)
    ensures DerefFrom(Some(schema), spec, left) == Ok(Some(to)) <==> Lands(schema, to, left, spec)
    decreases left
  {
    if left == 0 || Get(schema, "$ref").None? {
      LandsHere(schema, to, left, spec);
    } else {
      var ref := Get(schema, "$ref").value;
      var target := RefTarget(ref, spec);
      if target.Ok? && target.value.Some? {
        LandsByRef(schema, target.value.value, to, left, spec);
        DerefFromIs(target.value.value, to, spec, left - 1);
      } else {
        forall mid ensures !HasRefTo(schema, mid, spec) {
          RefTargetIs(ref, spec, mid);
        }
        LandsNowhere(schema, to, left, spec);
      }
    }
  }

  /**
  What `_deref` finds: the object that at most 20 references lead to, each a pointer into the document, where fewer
  than 20 were followed only because it is no reference itself.
  */
  lemma DerefIs(schema: Json, to: Json, spec: Json)
    ensures Deref(Some(schema), spec) == Ok(Some(to)) <==> Lands(schema, to, 20, spec)
  {
    DerefFromIs(schema, to, spec, MAX_REFS);
  }

  // ---- Branches ---------------------------------------------------------------------------------

  /** What `for sub in schema.get(key) or []` runs over. */
  function Elements(j: Option<Json>): Outcome<seq<Json>> {
    if j.None? || !Truthy(j.value) then Ok([])
    else
      match j.value
      case Arr(items) => Ok(items)
      case Obj(members) => Ok(seq(|members|, i requires 0 <= i < |members| => Str(members[i].key)))
      case Str(s) => Ok(seq(|s|, i requires 0 <= i < |s| => Str([s[i]])))
      case _ => Raises(TypeError)
  }

  /** `_branches`: the schema itself, then everything under its three composition keys, depth first. */
  function Branches(schema: Json, spec: Json, depth: nat): Outcome<seq<Json>>
    decreases depth, 0, 0
  {
    if depth == 0 then Raises(RecursionError)
    else
      var rest :- BranchesUnder(schema, spec, COMPOSITION, depth - 1);
      Ok([schema] + rest)
  }

  function BranchesUnder(schema: Json, spec: Json, keys: seq<string>, depth: nat): Outcome<seq<Json>>
    decreases depth, 2, |keys|
  {
    if keys == [] then Ok([])
    else
      var subs :- Elements(Get(schema, keys[0]));
      var first :- BranchesOf(subs, spec, depth);
      var rest :- BranchesUnder(schema, spec, keys[1..], depth);
      Ok(first + rest)
  }

  function BranchesOf(subs: seq<Json>, spec: Json, depth: nat): Outcome<seq<Json>>
    decreases depth, 1, |subs|
  {
    if subs == [] then Ok([])
    else
      var resolved :- Deref(Some(subs[0]), spec);
      var first :- if resolved.Some? then Branches(resolved.value, spec, depth) else Ok([]);
      var rest :- BranchesOf(subs[1..], spec, depth);
      Ok(first + rest)
  }

  /** `sub` is what one element under one composition key of `schema` resolves to. */
  predicate Composes(schema: Json, sub: Json, spec: Json) {
    ComposesUnder(schema, COMPOSITION, sub, spec)
  }

  predicate ComposesUnder(schema: Json, keys: seq<string>, sub: Json, spec: Json) {
    keys != [] &&
    (|| (var subs := Elements(Get(schema, keys[0])); subs.Ok? && ResolvesIn(subs.value, sub, spec))
     || ComposesUnder(schema, keys[1..], sub, spec))
  }

  predicate ResolvesIn(subs: seq<Json>, sub: Json, spec: Json) {
    subs != [] && (Deref(Some(subs[0]), spec) == Ok(Some(sub)) || ResolvesIn(subs[1..], sub, spec))
  }

  predicate ListsAt(schema: Json, key: string, i: int, sub: Json, spec: Json) {
    var list := Get(schema, key);
    list.Some? && list.value.Arr? && 0 <= i < |list.value.items| && Deref(Some(list.value.items[i]), spec) == Ok(Some(sub))
  }

  ghost predicate Lists(schema: Json, key: string, sub: Json, spec: Json) {
    exists i :: ListsAt(schema, key, i, sub, spec)
  }

  predicate ResolvesAt(subs: seq<Json>, i: int, sub: Json, spec: Json) {
    0 <= i < |subs| && Deref(Some(subs[i]), spec) == Ok(Some(sub))
  }

  lemma {:induction false} ResolvesInIs(subs: seq<Json>, sub: Json, spec: Json)
    ensures ResolvesIn(subs, sub, spec) <==> exists i :: ResolvesAt(subs, i, sub, spec)
  {
    if subs != [] {
      ResolvesInIs(subs[1..], sub, spec);
      if i :| ResolvesAt(subs[1..], i, sub, spec) {
        assert ResolvesAt(subs, i + 1, sub, spec);
      }
      if i :| ResolvesAt(subs, i, sub, spec) {
        assert i > 0 ==> ResolvesAt(subs[1..], i - 1, sub, spec);
      }
      assert Deref(Some(subs[0]), spec) == Ok(Some(sub)) <==> ResolvesAt(subs, 0, sub, spec);
    }
  }

  lemma ElementsList(schema: Json, key: string, sub: Json, spec: Json)
    ensures
      var subs := Elements(Get(schema, key));
      subs.Ok? && ResolvesIn(subs.value, sub, spec) <==> Lists(schema, key, sub, spec)
  {
    var list, subs := Get(schema, key), Elements(Get(schema, key));
    if subs.Ok? {
      ResolvesInIs(subs.value, sub, spec);
      if list.Some? && list.value.Arr? {
        assert subs.value == list.value.items;
        forall i ensures ResolvesAt(subs.value, i, sub, spec) <==> ListsAt(schema, key, i, sub, spec) {}
      } else {
        forall i ensures !ResolvesAt(subs.value, i, sub, spec) {}
      }
    }
  }

  lemma ListedFirst(schema: Json, key: string, rest: seq<string>, sub: Json, spec: Json)
    ensures ComposesUnder(schema, [key] + rest, sub, spec) <==> Lists(schema, key, sub, spec) || ComposesUnder(schema, rest, sub, spec)
  {
    ElementsList(schema, key, sub, spec);
    assert ([key] + rest)[1..] == rest;
  }

  /** The compositions of a schema are what the elements of its three lists resolve to. */
  lemma ComposesIff(schema: Json, sub: Json, spec: Json)
    ensures Composes(schema, sub, spec)
       <==> Lists(schema, "anyOf", sub, spec) || Lists(schema, "oneOf", sub, spec) || Lists(schema, "allOf", sub, spec)
  {
    var none, last: seq<string> := [], ["allOf"];
    ListedFirst(schema, "anyOf", ["oneOf"] + (last + none), sub, spec);
    ListedFirst(schema, "oneOf", last + none, sub, spec);
    ListedFirst(schema, "allOf", none, sub, spec);
    assert COMPOSITION == ["anyOf"] + (["oneOf"] + (last + none));
  }

  /** `b` is n compositions away from `schema`. */
  ghost predicate Chain(schema: Json, b: Json, n: nat, spec: Json)
    decreases n
  {
    if n == 0 then b == schema else exists sub :: Composes(schema, sub, spec) && Chain(sub, b, n - 1, spec)
  }

  ghost predicate HasChain(schema: Json, n: nat, spec: Json) {
    exists b :: Chain(schema, b, n, spec)
  }

  ghost predicate IsBranch(schema: Json, b: Json, spec: Json) {
    exists n: nat :: Chain(schema, b, n, spec)
  }

  /** The branches under one composition key, in the order of its elements. */
  function Under(schema: Json, key: string, spec: Json, depth: nat): Outcome<seq<Json>> {
    var subs :- Elements(Get(schema, key));
    BranchesOf(subs, spec, depth)
  }

  lemma UnderFirst(schema: Json, key: string, rest: seq<string>, spec: Json, depth: nat)
    requires BranchesUnder(schema, spec, [key] + rest, depth).Ok?
    ensures Under(schema, key, spec, depth).Ok? && BranchesUnder(schema, spec, rest, depth).Ok?
    ensures BranchesUnder(schema, spec, [key] + rest, depth).value
         == Under(schema, key, spec, depth).value + BranchesUnder(schema, spec, rest, depth).value
  {
    assert ([key] + rest)[1..] == rest;
  }

  /** The order in which a lookup tries them: the schema itself, then `anyOf`, `oneOf` and `allOf`. */
  lemma BranchesInOrder(schema: Json, spec: Json, depth: nat)
    requires Branches(schema, spec, depth).Ok?
    ensures depth > 0 && Under(schema, "anyOf", spec, depth - 1).Ok?
    ensures Under(schema, "oneOf", spec, depth - 1).Ok? && Under(schema, "allOf", spec, depth - 1).Ok?
    ensures Branches(schema, spec, depth).value
         == [schema] + (Under(schema, "anyOf", spec, depth - 1).value
                        + (Under(schema, "oneOf", spec, depth - 1).value + Under(schema, "allOf", spec, depth - 1).value))
  {
    var none, last: seq<string> := [], ["allOf"];
    assert COMPOSITION == ["anyOf"] + (["oneOf"] + (last + none));
    UnderFirst(schema, "anyOf", ["oneOf"] + (last + none), spec, depth - 1);
    UnderFirst(schema, "oneOf", last + none, spec, depth - 1);
    UnderFirst(schema, "allOf", none, spec, depth - 1);
    var all := Under(schema, "allOf", spec, depth - 1).value;
    assert all + [] == all;
  }

  lemma {:induction false} BranchesOfParts(a: seq<Json>, b: seq<Json>, spec: Json, depth: nat)
    requires BranchesOf(a, spec, depth).Ok? && BranchesOf(b, spec, depth).Ok?
    ensures BranchesOf(a + b, spec, depth) == Ok(BranchesOf(a, spec, depth).value + BranchesOf(b, spec, depth).value)
    decreases |a|
  {
    if a == [] {
      assert a + b == b;
      var rest := BranchesOf(b, spec, depth).value;
      assert [] + rest == rest;
    } else {
      assert (a + b)[1..] == a[1..] + b;
      BranchesOfParts(a[1..], b, spec, depth);
      var resolved := Deref(Some(a[0]), spec).value;
      var first := if resolved.Some? then Branches(resolved.value, spec, depth).value else [];
      assert first + (BranchesOf(a[1..], spec, depth).value + BranchesOf(b, spec, depth).value)
          == (first + BranchesOf(a[1..], spec, depth).value) + BranchesOf(b, spec, depth).value;
    }
  }

  /** One level: the branches under the elements are the branches of what the elements resolve to. */
  ghost predicate Collects(found: seq<Json>, starts: iset<Json>, spec: Json) {
    forall b :: b in found <==> exists sub :: sub in starts && IsBranch(sub, b, spec)
  }

  lemma ChainGrows(schema: Json, sub: Json, b: Json, n: nat, spec: Json)
    requires Composes(schema, sub, spec) && Chain(sub, b, n, spec)
    ensures Chain(schema, b, n + 1, spec)
  {
  }

  lemma BranchIffComposed(schema: Json, b: Json, spec: Json)
    ensures IsBranch(schema, b, spec) <==> b == schema || exists sub :: Composes(schema, sub, spec) && IsBranch(sub, b, spec)
  {
    if IsBranch(schema, b, spec) && b != schema {
      var n: nat :| Chain(schema, b, n, spec);
      var sub :| Composes(schema, sub, spec) && Chain(sub, b, n - 1, spec);
      assert IsBranch(sub, b, spec);
    }
    if sub :| Composes(schema, sub, spec) && IsBranch(sub, b, spec) {
      var n: nat :| Chain(sub, b, n, spec);
      ChainGrows(schema, sub, b, n, spec);
    }
    assert Chain(schema, schema, 0, spec);
  }

  /** `_branches`, when it returns, returns exactly the schemas any number of compositions away. */
  lemma {:induction false} BranchesAreAllCompositions(schema: Json, spec: Json, depth: nat)
    requires Branches(schema, spec, depth).Ok?
    ensures forall b :: b in Branches(schema, spec, depth).value <==> IsBranch(schema, b, spec)
    decreases depth, 0, 0
  {
    UnderCollects(schema, spec, COMPOSITION, depth - 1);
    forall b ensures b in Branches(schema, spec, depth).value <==> IsBranch(schema, b, spec) {
      BranchIffComposed(schema, b, spec);
    }
  }

  lemma {:induction false} UnderCollects(schema: Json, spec: Json, keys: seq<string>, depth: nat)
    requires BranchesUnder(schema, spec, keys, depth).Ok?
    ensures Collects(BranchesUnder(schema, spec, keys, depth).value,
                     (iset sub | ComposesUnder(schema, keys, sub, spec)), spec)
    decreases depth, 2, |keys|
  {
    if keys != [] {
      OfCollects(Elements(Get(schema, keys[0])).value, spec, depth);
      UnderCollects(schema, spec, keys[1..], depth);
    }
  }

  lemma {:induction false} OfCollects(subs: seq<Json>, spec: Json, depth: nat)
    requires BranchesOf(subs, spec, depth).Ok?
    ensures Collects(BranchesOf(subs, spec, depth).value, (iset sub | ResolvesIn(subs, sub, spec)), spec)
    decreases depth, 1, |subs|
  {
    if subs != [] {
      var resolved := Deref(Some(subs[0]), spec).value;
      if resolved.Some? {
        BranchesAreAllCompositions(resolved.value, spec, depth);
      }
      OfCollects(subs[1..], spec, depth);
    }
  }

  /** Nothing malformed sits under the composition keys of this schema. */
  predicate Sane(schema: Json, spec: Json) {
    SaneUnder(schema, COMPOSITION, spec)
  }

  predicate SaneUnder(schema: Json, keys: seq<string>, spec: Json) {
    keys != [] ==>
      && Elements(Get(schema, keys[0])).Ok? && AllResolve(Elements(Get(schema, keys[0])).value, spec)
      && SaneUnder(schema, keys[1..], spec)
  }

  predicate AllResolve(subs: seq<Json>, spec: Json) {
    subs != [] ==> Deref(Some(subs[0]), spec).Ok? && AllResolve(subs[1..], spec)
  }

  lemma {:induction false} UnderFinishesIff(schema: Json, spec: Json, keys: seq<string>, depth: nat)
    requires SaneUnder(schema, keys, spec)
    ensures BranchesUnder(schema, spec, keys, depth).Ok?
       <==> forall sub :: ComposesUnder(schema, keys, sub, spec) ==> Branches(sub, spec, depth).Ok?
    decreases |keys|
  {
    if keys != [] {
      OfFinishesIff(Elements(Get(schema, keys[0])).value, spec, depth);
      UnderFinishesIff(schema, spec, keys[1..], depth);
    }
  }

  lemma {:induction false} OfFinishesIff(subs: seq<Json>, spec: Json, depth: nat)
    requires AllResolve(subs, spec)
    ensures BranchesOf(subs, spec, depth).Ok?
       <==> forall sub :: ResolvesIn(subs, sub, spec) ==> Branches(sub, spec, depth).Ok?
    decreases |subs|
  {
    if subs != [] {
      OfFinishesIff(subs[1..], spec, depth);
      var resolved := Deref(Some(subs[0]), spec).value;
      if resolved.Some? {
        assert ResolvesIn(subs, resolved.value, spec);
      }
      forall sub ensures ResolvesIn(subs, sub, spec) <==> resolved == Some(sub) || ResolvesIn(subs[1..], sub, spec) {}
      OfStep(subs, spec, depth);
    }
  }

  lemma OfStep(subs: seq<Json>, spec: Json, depth: nat)
    requires subs != [] && Deref(Some(subs[0]), spec).Ok?
    ensures BranchesOf(subs, spec, depth).Ok?
       <==> && (var resolved := Deref(Some(subs[0]), spec).value; resolved.Some? ==> Branches(resolved.value, spec, depth).Ok?)
            && BranchesOf(subs[1..], spec, depth).Ok?
  {
  }

  /**
  When `_branches` comes back: on a well-formed document, exactly when no chain of compositions is as long
  as the frames left. A schema that composes itself through `$ref` has chains of every length, so it ends
  in RecursionError whatever the limit.
  */
  lemma {:induction false} BranchesFinishIff(schema: Json, spec: Json, depth: nat)
    requires forall b :: IsBranch(schema, b, spec) ==> Sane(b, spec)
    ensures Branches(schema, spec, depth).Ok? <==> !HasChain(schema, depth, spec)
    decreases depth
  {
    assert Chain(schema, schema, 0, spec);
    if depth > 0 {
      assert IsBranch(schema, schema, spec);
      forall sub | Composes(schema, sub, spec)
        ensures Branches(sub, spec, depth - 1).Ok? <==> !HasChain(sub, depth - 1, spec)
      {
        forall b | IsBranch(sub, b, spec) ensures Sane(b, spec) {
          BranchIffComposed(schema, b, spec);
        }
        BranchesFinishIff(sub, spec, depth - 1);
      }
      BranchesOneLevel(schema, spec, depth);
      ChainsThroughSubs(schema, depth, spec);
    }
  }

  lemma BranchesOneLevel(schema: Json, spec: Json, depth: nat)
    requires Sane(schema, spec) && depth > 0
    ensures Branches(schema, spec, depth).Ok? <==> forall sub :: Composes(schema, sub, spec) ==> Branches(sub, spec, depth - 1).Ok?
  {
    UnderFinishesIff(schema, spec, COMPOSITION, depth - 1);
    assert forall sub :: Composes(schema, sub, spec) <==> ComposesUnder(schema, COMPOSITION, sub, spec);
    assert Branches(schema, spec, depth).Ok? <==> BranchesUnder(schema, spec, COMPOSITION, depth - 1).Ok?;
  }

  lemma ChainsThroughSubs(schema: Json, n: nat, spec: Json)
    requires n > 0
    ensures HasChain(schema, n, spec) <==> exists sub :: Composes(schema, sub, spec) && HasChain(sub, n - 1, spec)
  {
    if b :| Chain(schema, b, n, spec) {
      var sub :| Composes(schema, sub, spec) && Chain(sub, b, n - 1, spec);
      assert HasChain(sub, n - 1, spec);
    }
    if sub :| Composes(schema, sub, spec) && HasChain(sub, n - 1, spec) {
      var b :| Chain(sub, b, n - 1, spec);
      assert Chain(schema, b, n, spec);
    }
  }

  /** The one way a call can fail on sane schemas. */
  predicate OkOrTooDeep<T>(r: Outcome<T>) {
    r.Ok? || r == Raises(RecursionError)
  }

  lemma {:induction false} OfFailsDeep(subs: seq<Json>, spec: Json, depth: nat)
    requires AllResolve(subs, spec)
    requires forall sub :: ResolvesIn(subs, sub, spec) ==> OkOrTooDeep(Branches(sub, spec, depth))
    ensures OkOrTooDeep(BranchesOf(subs, spec, depth))
    decreases |subs|
  {
    if subs != [] {
      OfFailsDeep(subs[1..], spec, depth);
    }
  }

  lemma {:induction false} UnderFailsDeep(schema: Json, keys: seq<string>, spec: Json, depth: nat)
    requires SaneUnder(schema, keys, spec)
    requires forall sub :: ComposesUnder(schema, keys, sub, spec) ==> OkOrTooDeep(Branches(sub, spec, depth))
    ensures OkOrTooDeep(BranchesUnder(schema, spec, keys, depth))
    decreases |keys|
  {
    if keys != [] {
      OfFailsDeep(Elements(Get(schema, keys[0])).value, spec, depth);
      UnderFailsDeep(schema, keys[1..], spec, depth);
    }
  }

  /** On sane schemas the only way `_branches` can fail is to run out of frames. */
  lemma {:induction false} BranchesFailDeep(schema: Json, spec: Json, depth: nat)
    requires forall b :: IsBranch(schema, b, spec) ==> Sane(b, spec)
    ensures OkOrTooDeep(Branches(schema, spec, depth))
    decreases depth
  {
    if depth > 0 {
      BranchIffComposed(schema, schema, spec);
      forall sub | Composes(schema, sub, spec) ensures OkOrTooDeep(Branches(sub, spec, depth - 1)) {
        forall b | IsBranch(sub, b, spec) ensures Sane(b, spec) {
          BranchIffComposed(schema, b, spec);
        }
        BranchesFailDeep(sub, spec, depth - 1);
      }
      assert forall sub :: ComposesUnder(schema, COMPOSITION, sub, spec) <==> Composes(schema, sub, spec);
      UnderFailsDeep(schema, COMPOSITION, spec, depth - 1);
    }
  }

  lemma {:induction false} SelfCompositionNeverFinishes(schema: Json, spec: Json, depth: nat)
    requires Composes(schema, schema, spec)
    requires forall b :: IsBranch(schema, b, spec) ==> Sane(b, spec)
    ensures Branches(schema, spec, depth) == Raises(RecursionError)
  {
    ChainOfSelf(schema, depth, spec);
    BranchesFinishIff(schema, spec, depth);
    BranchesFailDeep(schema, spec, depth);
  }

  lemma {:induction false} ChainOfSelf(schema: Json, n: nat, spec: Json)
    requires Composes(schema, schema, spec)
    ensures Chain(schema, schema, n, spec)
    decreases n
  {
    if n > 0 {
      ChainOfSelf(schema, n - 1, spec);
    }
  }

  // ---- One step of a path -------------------------------------------------------------------------

  /** A field path is a walk of field names and array unwrappings. */
  datatype Hop = Field(name: string) | Element

  /** What one branch says about a hop: the schema it gives it, if it defines it at all. */
  function Defines(branch: Json, hop: Hop): Option<Json> {
    match hop
    case Field(name) =>
      var props, extra := Get(branch, "properties"), Get(branch, "additionalProperties");
      if props.Some? && Get(props.value, name).Some? then Get(props.value, name)
      else if extra.Some? && extra.value.Obj? then extra
      else None
    case Element =>
      var items := Get(branch, "items");
      if items.Some? && items.value.Null? then None else items
  }

  /** The first branch that defines the hop wins. */
  function FirstDefinition(branches: seq<Json>, hop: Hop): Option<Json> {
    if branches == [] then None
    else if Defines(branches[0], hop).Some? then Defines(branches[0], hop)
    else FirstDefinition(branches[1..], hop)
  }

  /** `_step` and `_unwrap_array`: None when no branch defines the hop, else the resolved schema it leads to. */
  function Take(schema: Option<Json>, hop: Hop, spec: Json, depth: nat): Outcome<Option<Option<Json>>> {
    var resolved :- Deref(schema, spec);
    if resolved.None? then Ok(None)
    else
      var branches :- Branches(resolved.value, spec, depth);
      var found := FirstDefinition(branches, hop);
      if found.None? then Ok(None)
      else
        var next :- Deref(found, spec);
        Ok(Some(next))
  }

  /** `_is_opaque`: None, or an object type without a single declared property, composition or item. */
  predicate IsOpaque(schema: Option<Json>) {
    schema.None? || !schema.value.Obj? ||
    (&& !Has(schema.value, "properties") && !Has(schema.value, "$ref")
     && !Has(schema.value, "anyOf") && !Has(schema.value, "oneOf") && !Has(schema.value, "allOf")
     && !Has(schema.value, "items")
     && Get(schema.value, "type") == Some(Str("object")))
  }

  predicate Has(schema: Json, key: string) {
    Get(schema, key).Some? && Truthy(Get(schema, key).value)
  }

  // ---- What a schema declares, by its members ----------------------------------------------------------------

  lemma LookupIs(members: seq<Member>, key: string, value: Json)
    requires DistinctKeys(members)
    ensures Lookup(members, key) == Some(value) <==> Member(key, value) in members
  {
    var found := Lookup(members, key);
    if found.Some? {
      var i :| 0 <= i < |members| && members[i] == Member(key, found.value);
    }
    if Member(key, value) in members {
      var j :| 0 <= j < |members| && members[j] == Member(key, value);
    }
  }

  predicate HasProperty(members: seq<Member>, name: string, value: Json) {
    exists i :: 0 <= i < |members| && members[i].key == "properties" && members[i].value.Obj?
                && Member(name, value) in members[i].value.members
  }

  lemma PropertyIs(members: seq<Member>, name: string, value: Json)
    requires WellFormed(Obj(members))
    ensures
      var props := Lookup(members, "properties");
      props.Some? && Get(props.value, name) == Some(value) <==> HasProperty(members, name, value)
  {
    var props := Lookup(members, "properties");
    if props.Some? {
      LookupIs(members, "properties", props.value);
      var i :| 0 <= i < |members| && members[i] == Member("properties", props.value);
      if props.value.Obj? {
        LookupIs(props.value.members, name, value);
      }
    }
  }

  /**
  A field is defined by the property of that name, or, when no property has the name, by an object under
  `additionalProperties`; an element by `items` that are not null. Nothing else defines either.
  */
  lemma DefinesIs(members: seq<Member>, name: string, value: Json)
    requires WellFormed(Obj(members))
    ensures Defines(Obj(members), Field(name)) == Some(value)
       <==> || HasProperty(members, name, value)
            || (&& (forall other :: !HasProperty(members, name, other))
                && value.Obj? && Member("additionalProperties", value) in members)
    ensures Defines(Obj(members), Element) == Some(value) <==> Member("items", value) in members && !value.Null?
  {
    PropertyIs(members, name, value);
    forall other ensures HasProperty(members, name, other) <==>
                         var props := Lookup(members, "properties"); props.Some? && Get(props.value, name) == Some(other)
    {
      PropertyIs(members, name, other);
    }
    LookupIs(members, "additionalProperties", value);
    LookupIs(members, "items", value);
  }

  predicate Composing(key: string) {
    key in ["properties", "$ref", "anyOf", "oneOf", "allOf", "items"]
  }

  lemma HasIs(members: seq<Member>, key: string)
    requires DistinctKeys(members)
    ensures Has(Obj(members), key) <==> exists m :: m in members && m.key == key && Truthy(m.value)
  {
    var found := Lookup(members, key);
    if found.Some? {
      LookupIs(members, key, found.value);
      assert Member(key, found.value) in members;
    }
    if m :| m in members && m.key == key && Truthy(m.value) {
      LookupIs(members, key, m.value);
      assert m == Member(key, m.value);
    }
  }

  /** Opaque is what is no object at all, and an object type none of whose six structural members holds anything. */
  lemma OpaqueIs(members: seq<Member>)
    requires DistinctKeys(members)
    ensures IsOpaque(None) && forall j: Json :: !j.Obj? ==> IsOpaque(Some(j))
    ensures IsOpaque(Some(Obj(members)))
       <==> Member("type", Str("object")) in members && forall m :: m in members && Composing(m.key) ==> !Truthy(m.value)
  {
    LookupIs(members, "type", Str("object"));
    HasIs(members, "properties");
    HasIs(members, "$ref");
    HasIs(members, "anyOf");
    HasIs(members, "oneOf");
    HasIs(members, "allOf");
    HasIs(members, "items");
  }

  // ---- The walk ---------------------------------------------------------------------------------------

  datatype Verdict = Present | Missing | Unverifiable

  function Walk(schema: Option<Json>, hops: seq<Hop>, spec: Json, depth: nat): Outcome<Verdict>
    decreases |hops|
  {
    if hops == [] then Ok(Present)
    else
      match hops[0]
      case Field(_) =>
        var parent :- Deref(schema, spec);
        if IsOpaque(parent) then Ok(Unverifiable)
        else
          var next :- Take(parent, hops[0], spec, depth);
          if next.None? then Ok(Missing) else Walk(next.value, hops[1..], spec, depth)
      case Element =>
        var next :- Take(schema, hops[0], spec, depth);
        if next.None? || next.value.None? then Ok(Missing) else Walk(next.value, hops[1..], spec, depth)
  }

  /** `name[][]` without its brackets, and how many pairs there were. */
  function StripArrays(raw: string): (string, nat) {
    if |raw| >= 2 && raw[|raw| - 2..] == "[]" then
      var (name, arrays) := StripArrays(raw[..|raw| - 2]);
      (name, arrays + 1)
    else (raw, 0)
  }

  function Unwraps(arrays: nat): seq<Hop> {
    if arrays == 0 then [] else [Element] + Unwraps(arrays - 1)
  }

  function HopsOf(raw: string): seq<Hop> {
    var (name, arrays) := StripArrays(raw);
    (if name == "" then [] else [Field(name)]) + Unwraps(arrays)
  }

  function AllHops(parts: seq<string>): seq<Hop> {
    if parts == [] then [] else HopsOf(parts[0]) + AllHops(parts[1..])
  }

  /** A leading `data` names the envelope, which no response model contains. */
  function PathParts(path: string): seq<string> {
    var parts := Split(path, '.');
    if parts[0] == "data" then parts[1..] else parts
  }

  // ---- What a path denotes: its segments, and how they are written ---------------------------------------

  /** A name (or none), to be looked up, and how many arrays are to be unwrapped after it. */
  datatype Segment = Segment(name: string, arrays: nat)

  predicate IsSegment(seg: Segment) {
    '.' !in seg.name && !EndsInBrackets(seg.name)
  }

  predicate EndsInBrackets(s: string) {
    |s| >= 2 && s[|s| - 2..] == "[]"
  }

  function Brackets(n: nat): string {
    if n == 0 then "" else Brackets(n - 1) + "[]"
  }

  /** How a consumer writes the segments. */
  function Written(segs: seq<Segment>): seq<string> {
    seq(|segs|, i requires 0 <= i < |segs| => segs[i].name + Brackets(segs[i].arrays))
  }

  /** What they ask for: each name in turn, if there is one, and then its arrays. */
  function Denoted(segs: seq<Segment>): seq<Hop> {
    if segs == [] then []
    else
      (if segs[0].name != "" then [Field(segs[0].name)] else []) + seq(segs[0].arrays, _ => Element) + Denoted(segs[1..])
  }

  lemma StripOne(raw: string)
    ensures StripArrays(raw + "[]") == (StripArrays(raw).0, StripArrays(raw).1 + 1)
  {
    var more := raw + "[]";
    assert more[|more| - 2..] == "[]" && more[..|more| - 2] == raw;
  }

  lemma {:induction false} BracketsStrip(name: string, n: nat)
    requires !EndsInBrackets(name)
    ensures StripArrays(name + Brackets(n)) == (name, n)
  {
    if n == 0 {
      assert name + "" == name;
    } else {
      assert name + Brackets(n) == name + Brackets(n - 1) + "[]";
      StripOne(name + Brackets(n - 1));
      BracketsStrip(name, n - 1);
    }
  }

  lemma {:induction false} UnwrapsAre(n: nat)
    ensures Unwraps(n) == seq(n, _ => Element)
  {
    if n > 0 {
      UnwrapsAre(n - 1);
    }
  }

  /** One part: its name is a field, each pair of brackets after it one array element. */
  lemma PartDenotes(name: string, n: nat)
    requires !EndsInBrackets(name)
    ensures HopsOf(name + Brackets(n)) == (if name != "" then [Field(name)] else []) + seq(n, _ => Element)
  {
    BracketsStrip(name, n);
    UnwrapsAre(n);
  }

  /** Every part is a name followed by brackets, in one way. */
  lemma {:induction false} EveryPartIsASegment(raw: string) returns (name: string, n: nat)
    ensures raw == name + Brackets(n) && !EndsInBrackets(name)
  {
    if EndsInBrackets(raw) {
      name, n := EveryPartIsASegment(raw[..|raw| - 2]);
      n := n + 1;
      assert raw == raw[..|raw| - 2] + "[]";
      assert name + Brackets(n - 1) + "[]" == name + Brackets(n);
    } else {
      name, n := raw, 0;
      assert raw + "" == raw;
    }
  }

  lemma {:induction false} PartsDenote(segs: seq<Segment>)
    requires forall seg :: seg in segs ==> IsSegment(seg)
    ensures AllHops(Written(segs)) == Denoted(segs)
  {
    if segs != [] {
      PartsDenote(segs[1..]);
      assert segs[0] in segs;
      PartDenotes(segs[0].name, segs[0].arrays);
      assert Written(segs)[1..] == Written(segs[1..]);
    }
  }

  lemma {:induction false} NoDotInBrackets(n: nat)
    ensures '.' !in Brackets(n)
  {
    if n > 0 {
      NoDotInBrackets(n - 1);
    }
  }

  /**
  A dotted path denotes its segments in order: every name, then its arrays. Exactly one leading `data` is dropped.
  */
  lemma PathDenotes(segs: seq<Segment>)
    requires segs != [] && forall seg :: seg in segs ==> IsSegment(seg)
    ensures AllHops(PathParts(Join(Written(segs), '.')))
         == Denoted(if segs[0] == Segment("data", 0) then segs[1..] else segs)
  {
    var parts := Written(segs);
    forall p | p in parts ensures '.' !in p {
      var i :| 0 <= i < |parts| && parts[i] == p;
      NoDotInBrackets(segs[i].arrays);
      assert segs[i] in segs;
    }
    JoinSplits(parts, '.');
    if segs[0] == Segment("data", 0) {
      assert "data" + "" == "data";
      PartsDenote(segs[1..]);
      assert parts[1..] == Written(segs[1..]);
    } else {
      PartsDenote(segs);
      if parts[0] == "data" {
        DataIsOneSegment(segs[0]);
      }
    }
  }

  lemma BracketsClose(name: string, n: nat)
    requires n > 0
    ensures var raw := name + Brackets(n); raw != "" && raw[|raw| - 1] == ']'
  {
    assert name + Brackets(n) == name + Brackets(n - 1) + "[]";
  }

  lemma DataIsOneSegment(seg: Segment)
    requires seg.name + Brackets(seg.arrays) == "data"
    ensures seg == Segment("data", 0)
  {
    if seg.arrays > 0 {
      BracketsClose(seg.name, seg.arrays);
    } else {
      assert seg.name + "" == seg.name;
    }
  }

  function Resolve(root: Option<Json>, path: string, spec: Json, depth: nat): Outcome<Verdict> {
    var schema :- Deref(root, spec);
    if IsOpaque(schema) then Ok(Unverifiable) else Walk(schema, AllHops(PathParts(path)), spec, depth)
  }

  /** What is left of the walk after some hops: an error, a verdict, or the schema to go on from. */
  datatype Progress = Stop(verdict: Verdict) | Go(schema: Option<Json>)

  function Finish(p: Outcome<Progress>, later: seq<Hop>, spec: Json, depth: nat): Outcome<Verdict> {
    match p
    case Raises(e) => Raises(e)
    case Ok(Stop(verdict)) => Ok(verdict)
    case Ok(Go(schema)) => Walk(schema, later, spec, depth)
  }

  /** `while name.endswith("[]")` */
  method StripArraysLoop(raw: string) returns (name: string, arrays: nat)
    ensures (name, arrays) == StripArrays(raw)
  {
    name, arrays := raw, 0;
    while |name| >= 2 && name[|name| - 2..] == "[]"
      invariant StripArrays(raw) == (StripArrays(name).0, StripArrays(name).1 + arrays)
      decreases |name|
    {
      name, arrays := name[..|name| - 2], arrays + 1;
    }
  }

  lemma WalkCons(schema: Option<Json>, hop: Hop, later: seq<Hop>, spec: Json, depth: nat)
    ensures
      var from := if hop.Field? then Deref(schema, spec) else Ok(schema);
      Walk(schema, [hop] + later, spec, depth) ==
      if from.Raises? then Raises(from.error)
      else if hop.Field? && IsOpaque(from.value) then Ok(Unverifiable)
      else
        var next := Take(from.value, hop, spec, depth);
        if next.Raises? then Raises(next.error)
        else if next.value.None? || (hop.Element? && next.value.value.None?) then Ok(Missing)
        else Walk(next.value.value, later, spec, depth)
  {
    assert ([hop] + later)[1..] == later;
  }

  /** The lookup of one name. Opacity is judged on the schema looked into, before the step. */
  method EnterField(schema: Option<Json>, name: string, spec: Json, depth: nat, ghost later: seq<Hop>)
      returns (p: Outcome<Progress>)
    ensures Finish(p, later, spec, depth) == Walk(schema, [Field(name)] + later, spec, depth)
  {
    WalkCons(schema, Field(name), later, spec, depth);
    var parent := DerefLoop(schema, spec);
    if parent.Raises? {
      return Raises(parent.error);
    }
    if IsOpaque(parent.value) {
      return Ok(Stop(Unverifiable));
    }
    var next := Take(parent.value, Field(name), spec, depth);
    if next.Raises? {
      return Raises(next.error);
    }
    p := Ok(if next.value.None? then Stop(Missing) else Go(next.value.value));
  }

  method UnwrapArrays(schema: Option<Json>, arrays: nat, spec: Json, depth: nat, ghost later: seq<Hop>)
      returns (p: Outcome<Progress>)
    ensures Finish(p, later, spec, depth) == Walk(schema, Unwraps(arrays) + later, spec, depth)
  {
    var current := schema;
    for k := 0 to arrays
      invariant Walk(current, Unwraps(arrays - k) + later, spec, depth) == Walk(schema, Unwraps(arrays) + later, spec, depth)
    {
      assert Unwraps(arrays - k) + later == [Element] + (Unwraps(arrays - k - 1) + later);
      WalkCons(current, Element, Unwraps(arrays - k - 1) + later, spec, depth);
      var next := Take(current, Element, spec, depth);
      if next.Raises? {
        return Raises(next.error);
      }
      if next.value.None? || next.value.value.None? {
        return Ok(Stop(Missing));
      }
      current := next.value.value;
    }
    assert Unwraps(0) + later == later;
    p := Ok(Go(current));
  }

  /** One dotted part: its name, then its array brackets. */
  method TakePart(schema: Option<Json>, raw: string, spec: Json, depth: nat, ghost later: seq<Hop>)
      returns (p: Outcome<Progress>)
    ensures Finish(p, later, spec, depth) == Walk(schema, HopsOf(raw) + later, spec, depth)
  {
    var name, arrays := StripArraysLoop(raw);
    var current := schema;
    if name != "" {
      assert HopsOf(raw) + later == [Field(name)] + (Unwraps(arrays) + later);
      var entered := EnterField(schema, name, spec, depth, Unwraps(arrays) + later);
      if entered.Raises? || entered.value.Stop? {
        return entered;
      }
      current := entered.value.schema;
    } else {
      assert HopsOf(raw) + later == Unwraps(arrays) + later;
    }
    p := UnwrapArrays(current, arrays, spec, depth, later);
  }

  /** `resolve_field` as it runs: over the parts, stripping brackets, stepping, unwrapping. */
  method ResolveField(root: Option<Json>, path: string, spec: Json, depth: nat) returns (r: Outcome<Verdict>)
    ensures r == Resolve(root, path, spec, depth)
  {
    var derefed := DerefLoop(root, spec);
    if derefed.Raises? {
      return Raises(derefed.error);
    }
    var schema := derefed.value;
    if IsOpaque(schema) {
      return Ok(Unverifiable);
    }
    var parts := Split(path, '.');
    if parts[0] == "data" {
      parts := parts[1..];
    }
    ghost var whole := Walk(schema, AllHops(parts), spec, depth);
    for i := 0 to |parts|
      invariant Walk(schema, AllHops(parts[i..]), spec, depth) == whole
    {
      if parts[i] == "" {
        assert HopsOf("") + AllHops(parts[i + 1..]) == AllHops(parts[i + 1..]);
        continue;
      }
      var taken := TakePart(schema, parts[i], spec, depth, AllHops(parts[i + 1..]));
      if taken.Raises? {
        return Raises(taken.error);
      }
      if taken.value.Stop? {
        return Ok(taken.value.verdict);
      }
      schema := taken.value.schema;
    }
    r := Ok(Present);
  }

  // ---- What the verdicts mean ------------------------------------------------------------------------

  /** The schema whose branches a hop consults: a name is looked up in the parent, resolved once more. */
  function LookIn(schema: Option<Json>, hop: Hop, spec: Json): Outcome<Option<Json>> {
    var parent :- Deref(schema, spec);
    if hop.Field? then Deref(parent, spec) else Ok(parent)
  }

  /** The branch b of what `schema` resolves to defines the hop. */
  ghost predicate Defining(schema: Option<Json>, b: Json, hop: Hop, spec: Json) {
    var resolved := LookIn(schema, hop, spec);
    resolved.Ok? && resolved.value.Some? && IsBranch(resolved.value.value, b, spec) && Defines(b, hop).Some?
  }

  /** Some branch defines the hop, and its definition resolves to `next`. */
  ghost predicate Declares(schema: Option<Json>, hop: Hop, next: Option<Json>, spec: Json) {
    (exists b :: Defining(schema, b, hop, spec) && Deref(Defines(b, hop), spec) == Ok(next))
    && (hop.Element? ==> next.Some?)
  }

  /** The field is declared: some choice of branches follows the whole path. */
  ghost predicate Declared(schema: Option<Json>, hops: seq<Hop>, spec: Json)
    decreases |hops|
  {
    hops == [] || exists next :: Declares(schema, hops[0], next, spec) && Declared(next, hops[1..], spec)
  }

  /** Somewhere along a declared walk, a name is looked up in an opaque or unresolvable schema. */
  ghost predicate MeetsOpaque(schema: Option<Json>, hops: seq<Hop>, spec: Json)
    decreases |hops|
  {
    hops != [] &&
    (|| (hops[0].Field? && Deref(schema, spec).Ok? && IsOpaque(Deref(schema, spec).value))
     || exists next :: Declares(schema, hops[0], next, spec) && MeetsOpaque(next, hops[1..], spec))
  }

  /** At every schema a declared walk can reach, the branches agree on the next hop. */
  ghost predicate OneWay(schema: Option<Json>, hops: seq<Hop>, spec: Json)
    decreases |hops|
  {
    hops != [] ==>
      && (forall a, b :: Defining(schema, a, hops[0], spec) && Defining(schema, b, hops[0], spec) ==>
            Defines(a, hops[0]) == Defines(b, hops[0]))
      && (forall next :: Declares(schema, hops[0], next, spec) ==> OneWay(next, hops[1..], spec))
  }

  lemma {:induction false} FirstIsDefined(branches: seq<Json>, hop: Hop)
    ensures FirstDefinition(branches, hop).Some? ==>
      exists b :: b in branches && Defines(b, hop) == FirstDefinition(branches, hop)
    ensures FirstDefinition(branches, hop).None? ==> forall b :: b in branches ==> Defines(b, hop).None?
  {
    if branches != [] {
      FirstIsDefined(branches[1..], hop);
      assert branches == [branches[0]] + branches[1..];
    }
  }

  /** One hop of the walk, against the branches that define it. */
  lemma TakeIsDeclared(schema: Option<Json>, hop: Hop, spec: Json, depth: nat)
    requires Deref(schema, spec).Ok?
    requires var from := if hop.Field? then Deref(schema, spec).value else schema; Take(from, hop, spec, depth).Ok?
    ensures
      var from := if hop.Field? then Deref(schema, spec).value else schema;
      var taken := Take(from, hop, spec, depth).value;
      && (taken.None? ==> forall b :: !Defining(schema, b, hop, spec))
      && (taken.Some? ==> exists b :: Defining(schema, b, hop, spec) && Deref(Defines(b, hop), spec) == Ok(taken.value))
  {
    var from := if hop.Field? then Deref(schema, spec).value else schema;
    var resolved := Deref(from, spec).value;
    assert LookIn(schema, hop, spec) == Ok(resolved);
    if resolved.Some? {
      BranchesAreAllCompositions(resolved.value, spec, depth);
      FirstIsDefined(Branches(resolved.value, spec, depth).value, hop);
    }
  }

  /** The walk follows a declared hop, and stops as missing only where no branch defines the hop. */
  lemma WalkTakesDeclaredHop(schema: Option<Json>, hop: Hop, later: seq<Hop>, spec: Json, depth: nat)
    requires Walk(schema, [hop] + later, spec, depth).Ok?
    ensures
      var verdict := Walk(schema, [hop] + later, spec, depth);
      || (verdict == Ok(Unverifiable) && hop.Field? && Deref(schema, spec).Ok? && IsOpaque(Deref(schema, spec).value))
      || (verdict == Ok(Missing) && forall next :: Declares(schema, hop, next, spec) ==> Shadowed(schema, hop, spec))
      || (exists next :: Declares(schema, hop, next, spec) && verdict == Walk(next, later, spec, depth))
  {
    WalkCons(schema, hop, later, spec, depth);
    if !(hop.Field? && Deref(schema, spec).Ok? && IsOpaque(Deref(schema, spec).value)) {
      TakeIsDeclared(schema, hop, spec, depth);
      var from := if hop.Field? then Deref(schema, spec).value else schema;
      var taken := Take(from, hop, spec, depth).value;
      if taken.Some? && !(hop.Element? && taken.value.None?) {
        assert Declares(schema, hop, taken.value, spec);
      } else if taken.Some? {
        forall next | Declares(schema, hop, next, spec) ensures Shadowed(schema, hop, spec) {
          var a :| Defining(schema, a, hop, spec) && Deref(Defines(a, hop), spec) == Ok(None);
          var b :| Defining(schema, b, hop, spec) && Deref(Defines(b, hop), spec) == Ok(next);
          assert Defines(a, hop) != Defines(b, hop);
        }
      } else {
        assert forall next :: !Declares(schema, hop, next, spec);
      }
    }
  }

  /** Two branches define the hop differently, so the greedy choice of the first may hide the second. */
  ghost predicate Shadowed(schema: Option<Json>, hop: Hop, spec: Json) {
    exists a, b :: Defining(schema, a, hop, spec) && Defining(schema, b, hop, spec) && Defines(a, hop) != Defines(b, hop)
  }

  /** "present" is sound: some choice of branches declares the field. */
  lemma {:induction false} PresentIsDeclared(schema: Option<Json>, hops: seq<Hop>, spec: Json, depth: nat)
    requires Walk(schema, hops, spec, depth) == Ok(Present)
    ensures Declared(schema, hops, spec)
    decreases |hops|
  {
    if hops != [] {
      assert hops == [hops[0]] + hops[1..];
      WalkTakesDeclaredHop(schema, hops[0], hops[1..], spec, depth);
      var next :| Declares(schema, hops[0], next, spec) && Walk(next, hops[1..], spec, depth) == Ok(Present);
      PresentIsDeclared(next, hops[1..], spec, depth);
    }
  }

  /** "unverifiable" always points at an opaque or unresolvable schema on the walk. */
  lemma {:induction false} UnverifiableMeetsOpaque(schema: Option<Json>, hops: seq<Hop>, spec: Json, depth: nat)
    requires Walk(schema, hops, spec, depth) == Ok(Unverifiable)
    ensures MeetsOpaque(schema, hops, spec)
    decreases |hops|
  {
    if hops != [] {
      assert hops == [hops[0]] + hops[1..];
      WalkTakesDeclaredHop(schema, hops[0], hops[1..], spec, depth);
      if next :| Declares(schema, hops[0], next, spec) && Walk(next, hops[1..], spec, depth) == Ok(Unverifiable) {
        UnverifiableMeetsOpaque(next, hops[1..], spec, depth);
      }
    }
  }

  /** "missing" is right wherever the branches agree: the field is declared by no choice of branches. */
  lemma {:induction false} MissingIsUndeclared(schema: Option<Json>, hops: seq<Hop>, spec: Json, depth: nat)
    requires Walk(schema, hops, spec, depth) == Ok(Missing) && OneWay(schema, hops, spec)
    ensures !Declared(schema, hops, spec)
    decreases |hops|
  {
    var hop := hops[0];
    assert hops == [hop] + hops[1..];
    WalkTakesDeclaredHop(schema, hop, hops[1..], spec, depth);
    forall next | Declares(schema, hop, next, spec) ensures !Declared(next, hops[1..], spec) {
      var found :| Declares(schema, hop, found, spec) && Walk(found, hops[1..], spec, depth) == Ok(Missing);
      assert next == found by {
        var a :| Defining(schema, a, hop, spec) && Deref(Defines(a, hop), spec) == Ok(found);
        var b :| Defining(schema, b, hop, spec) && Deref(Defines(b, hop), spec) == Ok(next);
      }
      MissingIsUndeclared(next, hops[1..], spec, depth);
    }
  }

  /** The hop as the walk takes it: a name from the resolved parent, `items` from the schema itself. */
  function GreedyTake(schema: Option<Json>, hop: Hop, spec: Json, depth: nat): Outcome<Option<Option<Json>>> {
    var from :- if hop.Field? then Deref(schema, spec) else Ok(schema);
    Take(from, hop, spec, depth)
  }

  /** Some definition of the hop other than the one the walk took declares the rest of the path. */
  ghost predicate AnotherDeclares(schema: Option<Json>, hop: Hop, taken: Option<Json>, later: seq<Hop>, spec: Json) {
    exists next :: next != taken && Declares(schema, hop, next, spec) && Declared(next, later, spec)
  }

  /** At some schema on the greedy walk, the definition taken hides another that declares the rest. */
  ghost predicate Bypassed(schema: Option<Json>, hops: seq<Hop>, spec: Json, depth: nat)
    decreases |hops|
  {
    hops != [] &&
    var taken := GreedyTake(schema, hops[0], spec, depth);
    taken.Ok? && taken.value.Some? &&
    (AnotherDeclares(schema, hops[0], taken.value.value, hops[1..], spec) || Bypassed(taken.value.value, hops[1..], spec, depth))
  }

  lemma NothingFromNone(hops: seq<Hop>, spec: Json, depth: nat)
    ensures !Bypassed(None, hops, spec, depth)
  {
  }

  lemma DeclaredHere(schema: Option<Json>, hop: Hop, taken: Option<Json>, later: seq<Hop>, spec: Json)
    ensures Declared(schema, [hop] + later, spec)
       <==> (Declares(schema, hop, taken, spec) && Declared(taken, later, spec)) || AnotherDeclares(schema, hop, taken, later, spec)
  {
    assert ([hop] + later)[1..] == later;
  }

  /** What a missing verdict says of the first hop: no branch defines it, or the walk went on from what it took. */
  lemma MissingHop(schema: Option<Json>, hop: Hop, later: seq<Hop>, spec: Json, depth: nat)
    requires Walk(schema, [hop] + later, spec, depth) == Ok(Missing)
    ensures
      var taken := GreedyTake(schema, hop, spec, depth);
      && taken.Ok?
      && (taken.value.None? ==> forall next :: !Declares(schema, hop, next, spec))
      && (taken.value.Some? && hop.Element? && taken.value.value.None? ==> !Declares(schema, hop, None, spec))
      && (taken.value.Some? && !(hop.Element? && taken.value.value.None?) ==>
            Declares(schema, hop, taken.value.value, spec) && Walk(taken.value.value, later, spec, depth) == Ok(Missing))
  {
    WalkCons(schema, hop, later, spec, depth);
    if Deref(schema, spec).Ok? {
      TakeIsDeclared(schema, hop, spec, depth);
    }
  }

  /**
  Exactly when "missing" is wrong: the field is declared after all if and only if at some schema on the walk the
  definition taken hides another that declares the rest of the path.
  */
  lemma {:induction false} MissingIsWrongIff(schema: Option<Json>, hops: seq<Hop>, spec: Json, depth: nat)
    requires Walk(schema, hops, spec, depth) == Ok(Missing)
    ensures Declared(schema, hops, spec) <==> Bypassed(schema, hops, spec, depth)
    decreases |hops|
  {
    var hop, later := hops[0], hops[1..];
    assert hops == [hop] + later;
    MissingHop(schema, hop, later, spec, depth);
    var taken := GreedyTake(schema, hop, spec, depth).value;
    if taken.Some? {
      DeclaredHere(schema, hop, taken.value, later, spec);
      if hop.Element? && taken.value.None? {
        NothingFromNone(later, spec, depth);
      } else {
        MissingIsWrongIff(taken.value, later, spec, depth);
      }
    }
  }

  /** The root schema and the hops `resolve_field` walks. */
  ghost predicate FieldIsDeclared(root: Option<Json>, path: string, spec: Json) {
    Deref(root, spec).Ok? && Declared(Deref(root, spec).value, AllHops(PathParts(path)), spec)
  }

  ghost predicate FieldMeetsOpaque(root: Option<Json>, path: string, spec: Json) {
    Deref(root, spec).Ok? &&
    var schema := Deref(root, spec).value;
    IsOpaque(schema) || MeetsOpaque(schema, AllHops(PathParts(path)), spec)
  }

  /**
  What a verdict of `resolve_field` means, for every document, path and recursion limit. "present": the
  field is declared through some branch. "unverifiable": there is an opaque or unresolvable schema on the
  walk. So an undeclared field with none on the walk is "missing", never "unverifiable".
  */
  lemma VerdictsAreRight(root: Option<Json>, path: string, spec: Json, depth: nat)
    requires Resolve(root, path, spec, depth).Ok?
    ensures
      var verdict := Resolve(root, path, spec, depth).value;
      && (verdict.Present? ==> FieldIsDeclared(root, path, spec))
      && (verdict.Unverifiable? ==> FieldMeetsOpaque(root, path, spec))
      && (!FieldIsDeclared(root, path, spec) && !FieldMeetsOpaque(root, path, spec) ==> verdict.Missing?)
  {
    var schema, hops := Deref(root, spec).value, AllHops(PathParts(path));
    if !IsOpaque(schema) {
      match Resolve(root, path, spec, depth).value {
        case Present => PresentIsDeclared(schema, hops, spec, depth);
        case Unverifiable => UnverifiableMeetsOpaque(schema, hops, spec, depth);
        case Missing =>
      }
    }
  }

  /**
  Where the branches agree on every name and every `items` the path looks up, and no opaque schema is on
  the walk, the verdict decides the question: present exactly when the field is declared.
  */
  lemma OneWayVerdictsDecide(root: Option<Json>, path: string, spec: Json, depth: nat)
    requires Resolve(root, path, spec, depth).Ok? && !FieldMeetsOpaque(root, path, spec)
    requires OneWay(Deref(root, spec).value, AllHops(PathParts(path)), spec)
    ensures Resolve(root, path, spec, depth).value == if FieldIsDeclared(root, path, spec) then Present else Missing
  {
    VerdictsAreRight(root, path, spec, depth);
    if Resolve(root, path, spec, depth).value.Missing? {
      MissingIsUndeclared(Deref(root, spec).value, AllHops(PathParts(path)), spec, depth);
    }
  }

  /** The walk, taking the first definition of each hop, looks a name up in an opaque or unresolvable schema. */
  predicate GreedyMeetsOpaque(schema: Option<Json>, hops: seq<Hop>, spec: Json, depth: nat)
    decreases |hops|
  {
    hops != [] &&
    (|| (hops[0].Field? && Deref(schema, spec).Ok? && IsOpaque(Deref(schema, spec).value))
     || (var taken := GreedyTake(schema, hops[0], spec, depth);
         taken.Ok? && taken.value.Some? && (hops[0].Element? ==> taken.value.value.Some?)
         && GreedyMeetsOpaque(taken.value.value, hops[1..], spec, depth)))
  }

  lemma {:induction false} UnverifiableIff(schema: Option<Json>, hops: seq<Hop>, spec: Json, depth: nat)
    requires Walk(schema, hops, spec, depth).Ok?
    ensures Walk(schema, hops, spec, depth) == Ok(Unverifiable) <==> GreedyMeetsOpaque(schema, hops, spec, depth)
    decreases |hops|
  {
    if hops != [] {
      var hop, later := hops[0], hops[1..];
      assert hops == [hop] + later;
      WalkCons(schema, hop, later, spec, depth);
      if !(hop.Field? && Deref(schema, spec).Ok? && IsOpaque(Deref(schema, spec).value)) {
        var taken := GreedyTake(schema, hop, spec, depth);
        if taken.Ok? && taken.value.Some? && !(hop.Element? && taken.value.value.None?) {
          UnverifiableIff(taken.value.value, later, spec, depth);
        }
      }
    }
  }

  /**
  When `resolve_field` cannot tell, exactly: the root is opaque, or the walk looks a name up in a schema that is.
  An opaque schema is never taken for one that lacks the field.
  */
  lemma VerdictIsUnverifiableIff(root: Option<Json>, path: string, spec: Json, depth: nat)
    requires Resolve(root, path, spec, depth).Ok?
    ensures
      var schema := Deref(root, spec).value;
      Resolve(root, path, spec, depth) == Ok(Unverifiable)
      <==> IsOpaque(schema) || GreedyMeetsOpaque(schema, AllHops(PathParts(path)), spec, depth)
  {
    var schema := Deref(root, spec).value;
    if !IsOpaque(schema) {
      UnverifiableIff(schema, AllHops(PathParts(path)), spec, depth);
    }
  }

  /** The verdict of `resolve_field`, exactly: a "missing" field is declared if and only if the walk bypassed it. */
  lemma MissingVerdictIsWrongIff(root: Option<Json>, path: string, spec: Json, depth: nat)
    requires Resolve(root, path, spec, depth) == Ok(Missing)
    ensures FieldIsDeclared(root, path, spec) <==> Bypassed(Deref(root, spec).value, AllHops(PathParts(path)), spec, depth)
  {
    MissingIsWrongIff(Deref(root, spec).value, AllHops(PathParts(path)), spec, depth);
  }

  // ---- Where the greedy choice goes wrong ---------------------------------------------------------------

  function Plain(): Json {
    Obj([Member("type", Str("string"))])
  }

  function WithField(name: string, value: Json): Json {
    Obj([Member("properties", Obj([Member(name, value)]))])
  }

  /** A union of a model whose `a` is text and a model whose `a` has a field `b`. */
  function Union(): Json {
    Obj([Member("anyOf", Arr([WithField("a", Plain()), WithField("a", WithField("b", Plain()))]))])
  }

  lemma LookupOne(key: string, value: Json, other: string)
    ensures Lookup([Member(key, value)], other) == if other == key then Some(value) else None
  {
    assert [Member(key, value)][..0] == [];
  }

  /** Objects with one member and no `$ref` resolve to themselves. */
  lemma DerefOne(key: string, value: Json, spec: Json)
    requires key != "$ref"
    ensures Deref(Some(Obj([Member(key, value)])), spec) == Ok(Some(Obj([Member(key, value)])))
  {
    LookupOne(key, value, "$ref");
  }

  lemma LeafBranches(key: string, value: Json, spec: Json, depth: nat)
    requires depth > 0 && key !in COMPOSITION
    ensures Branches(Obj([Member(key, value)]), spec, depth) == Ok([Obj([Member(key, value)])])
  {
    var schema := Obj([Member(key, value)]);
    forall k | k in COMPOSITION ensures Get(schema, k) == None {
      LookupOne(key, value, k);
    }
    NoSubs(schema, spec, COMPOSITION, depth - 1);
    assert [schema] + [] == [schema];
  }

  lemma {:induction false} NoSubs(schema: Json, spec: Json, keys: seq<string>, depth: nat)
    requires forall k :: k in keys ==> Get(schema, k) == None
    ensures BranchesUnder(schema, spec, keys, depth) == Ok([])
    decreases |keys|
  {
    if keys != [] {
      NoSubs(schema, spec, keys[1..], depth);
      assert BranchesOf([], spec, depth) == Ok([]);
      var none: seq<Json> := [];
      assert none + none == none;
    }
  }

  /** The branches of the union's two models, one after the other. */
  lemma ModelBranches(spec: Json, depth: nat)
    requires depth >= 1
    ensures
      var a, b := WithField("a", Plain()), WithField("a", WithField("b", Plain()));
      BranchesOf([a] + [b], spec, depth) == Ok([a] + [b])
  {
    var a, b := WithField("a", Plain()), WithField("a", WithField("b", Plain()));
    ModelBranch("a", Plain(), spec, depth);
    ModelBranch("a", WithField("b", Plain()), spec, depth);
    BranchesOfParts([a], [b], spec, depth);
  }

  lemma ModelBranch(name: string, value: Json, spec: Json, depth: nat)
    requires depth >= 1
    ensures BranchesOf([WithField(name, value)], spec, depth) == Ok([WithField(name, value)])
  {
    DerefOne("properties", Obj([Member(name, value)]), spec);
    LeafBranches("properties", Obj([Member(name, value)]), spec, depth);
    var model := WithField(name, value);
    assert [model][1..] == [] && [model] + [] == [model];
  }

  lemma UnionBranches(spec: Json, depth: nat)
    requires depth >= 2
    ensures Branches(Union(), spec, depth)
         == Ok([Union(), WithField("a", Plain()), WithField("a", WithField("b", Plain()))])
  {
    var a, b := WithField("a", Plain()), WithField("a", WithField("b", Plain()));
    LookupOne("anyOf", Arr([a, b]), "anyOf");
    LookupOne("anyOf", Arr([a, b]), "oneOf");
    LookupOne("anyOf", Arr([a, b]), "allOf");
    ModelBranches(spec, depth - 1);
    assert [a, b] == [a] + [b] && COMPOSITION[1..] == ["oneOf", "allOf"];
    NoSubs(Union(), spec, COMPOSITION[1..], depth - 1);
    assert BranchesUnder(Union(), spec, COMPOSITION, depth - 1) == Ok([a, b]) by {
      assert [a, b] + [] == [a, b];
    }
    assert [Union()] + [a, b] == [Union(), a, b];
  }

  lemma UnionDefines(spec: Json)
    ensures Defines(Union(), Field("a")) == None
    ensures Defines(WithField("a", Plain()), Field("a")) == Some(Plain())
    ensures Defines(WithField("a", WithField("b", Plain())), Field("a")) == Some(WithField("b", Plain()))
    ensures Defines(WithField("b", Plain()), Field("b")) == Some(Plain()) && Defines(Plain(), Field("b")) == None
    ensures !IsOpaque(Some(Union())) && !IsOpaque(Some(Plain()))
  {
    var a, b := WithField("a", Plain()), WithField("a", WithField("b", Plain()));
    forall key, value, other ensures Lookup([Member(key, value)], other) == if other == key then Some(value) else None {
      LookupOne(key, value, other);
    }
    assert Get(Union(), "properties") == None && Get(Union(), "anyOf") == Some(Arr([a, b]));
    assert Get(Plain(), "type") == Some(Str("string"));
  }

  lemma UnionWalkIsMissing(spec: Json, depth: nat)
    requires depth >= 2
    ensures Walk(Some(Union()), [Field("a")] + [Field("b")], spec, depth) == Ok(Missing)
  {
    var a, b := WithField("a", Plain()), WithField("a", WithField("b", Plain()));
    DerefOne("anyOf", Arr([a, b]), spec);
    DerefOne("type", Str("string"), spec);
    UnionDefines(spec);
    assert Take(Some(Union()), Field("a"), spec, depth) == Ok(Some(Some(Plain()))) by {
      UnionBranches(spec, depth);
      assert [Union(), a, b][1..] == [a, b];
    }
    assert Take(Some(Plain()), Field("b"), spec, depth) == Ok(None) by {
      LeafBranches("type", Str("string"), spec, depth);
      assert Branches(Plain(), spec, depth) == Ok([Plain()]);
      assert [Plain()][1..] == [];
      assert FirstDefinition([Plain()], Field("b")) == FirstDefinition([], Field("b")) == None;
    }
    WalkCons(Some(Union()), Field("a"), [Field("b")], spec, depth);
    WalkCons(Some(Plain()), Field("b"), [], spec, depth);
    assert [Field("b")] + [] == [Field("b")];
  }

  lemma BranchDeclares(schema: Json, b: Json, name: string, next: Json, spec: Json)
    requires Deref(Some(schema), spec) == Ok(Some(schema)) && Deref(Some(next), spec) == Ok(Some(next))
    requires IsBranch(schema, b, spec) && Defines(b, Field(name)) == Some(next)
    ensures Declares(Some(schema), Field(name), Some(next), spec)
  {
    assert Defining(Some(schema), b, Field(name), spec);
  }

  lemma DeclaredCons(schema: Option<Json>, hop: Hop, next: Option<Json>, later: seq<Hop>, spec: Json)
    requires Declares(schema, hop, next, spec) && Declared(next, later, spec)
    ensures Declared(schema, [hop] + later, spec)
  {
    assert ([hop] + later)[1..] == later;
  }

  lemma UnionReachesSecondModel(spec: Json)
    ensures IsBranch(Union(), WithField("a", WithField("b", Plain())), spec)
  {
    UnionBranches(spec, 2);
    BranchesAreAllCompositions(Union(), spec, 2);
    var all := Branches(Union(), spec, 2).value;
    assert all[2] == WithField("a", WithField("b", Plain()));
  }

  lemma UnionDeclares(spec: Json)
    ensures Declared(Some(Union()), [Field("a")] + [Field("b")], spec)
  {
    var a, b, inner := WithField("a", Plain()), WithField("a", WithField("b", Plain())), WithField("b", Plain());
    DerefOne("anyOf", Arr([a, b]), spec);
    DerefOne("type", Str("string"), spec);
    DerefOne("properties", Obj([Member("b", Plain())]), spec);
    UnionDefines(spec);
    UnionReachesSecondModel(spec);
    BranchDeclares(Union(), b, "a", inner, spec);
    assert IsBranch(inner, inner, spec) by {
      assert Chain(inner, inner, 0, spec);
    }
    BranchDeclares(inner, inner, "b", Plain(), spec);
    DeclaredCons(Some(inner), Field("b"), Some(Plain()), [], spec);
    assert [Field("b")] + [] == [Field("b")];
    DeclaredCons(Some(Union()), Field("a"), Some(inner), [Field("b")], spec);
  }

  /**
  Greedy shadowing. The consumer's field `a.b` is declared by the second model of the union, but `_step`
  stops at the first model that has an `a`: the verdict is "missing". So "missing" needs the branches to
  agree.
  */
  lemma GreedyStepMissesADeclaredField(spec: Json, depth: nat)
    requires depth >= 2
    ensures
      var hops := [Field("a")] + [Field("b")];
      && Walk(Some(Union()), hops, spec, depth) == Ok(Missing) && Declared(Some(Union()), hops, spec)
      && Bypassed(Some(Union()), hops, spec, depth)
  {
    UnionWalkIsMissing(spec, depth);
    UnionDeclares(spec);
    MissingIsWrongIff(Some(Union()), [Field("a")] + [Field("b")], spec, depth);
  }

  // ---- A document on which `_branches` never comes back -------------------------------------------------

  function RefToA(): Json {
    Obj([Member("$ref", Str("#/a"))])
  }

  /** A schema that is any of itself, through a reference. */
  function Loop(): Json {
    Obj([Member("anyOf", Arr([RefToA()]))])
  }

  function LoopDocument(): Json {
    Obj([Member("a", Loop())])
  }

  lemma RefReachesLoop()
    ensures Deref(Some(RefToA()), LoopDocument()) == Ok(Some(Loop()))
  {
    LookupOne("$ref", Str("#/a"), "$ref");
    LookupOne("a", Loop(), "a");
    LookupOne("anyOf", Arr([RefToA()]), "$ref");
    assert "#/a"[2..] == "a" && "a"[1..] == "" && ["a"][1..] == [];
    assert [""] + [] == [""] && ['a'] + "" == "a";
    assert Split("a", '/') == ["a"];
    assert Follow(LoopDocument(), ["a"]) == Some(Loop());
    assert RefTarget(Str("#/a"), LoopDocument()) == Ok(Some(Loop()));
    assert DerefFrom(Some(Loop()), LoopDocument(), MAX_REFS - 1) == Ok(Some(Loop()));
  }

  lemma LoopComposes(sub: Json)
    ensures Composes(Loop(), sub, LoopDocument()) <==> sub == Loop()
    ensures Sane(Loop(), LoopDocument())
  {
    var doc := LoopDocument();
    RefReachesLoop();
    forall key ensures Get(Loop(), key) == if key == "anyOf" then Some(Arr([RefToA()])) else None {
      LookupOne("anyOf", Arr([RefToA()]), key);
    }
    assert COMPOSITION[1..] == ["oneOf", "allOf"] && ["oneOf", "allOf"][1..] == ["allOf"] && ["allOf"][1..] == [];
    assert [RefToA()][1..] == [];
    assert ResolvesIn([RefToA()], sub, doc) <==> sub == Loop();
    assert !ComposesUnder(Loop(), ["allOf"], sub, doc) && SaneUnder(Loop(), ["allOf"], doc);
    assert !ComposesUnder(Loop(), ["oneOf", "allOf"], sub, doc) && SaneUnder(Loop(), ["oneOf", "allOf"], doc);
  }

  lemma {:induction false} LoopIsItsOnlyBranch(b: Json, n: nat)
    requires Chain(Loop(), b, n, LoopDocument())
    ensures b == Loop()
    decreases n
  {
    if n > 0 {
      var sub :| Composes(Loop(), sub, LoopDocument()) && Chain(sub, b, n - 1, LoopDocument());
      LoopComposes(sub);
      LoopIsItsOnlyBranch(b, n - 1);
    }
  }

  /** The document {"a": {"anyOf": [{"$ref": "#/a"}]}} makes `_branches` fail under every recursion limit. */
  lemma LoopNeverFinishes(depth: nat)
    ensures Branches(Loop(), LoopDocument(), depth) == Raises(RecursionError)
  {
    LoopComposes(Loop());
    forall b | IsBranch(Loop(), b, LoopDocument()) ensures Sane(b, LoopDocument()) {
      var n: nat :| Chain(Loop(), b, n, LoopDocument());
      LoopIsItsOnlyBranch(b, n);
    }
    SelfCompositionNeverFinishes(Loop(), LoopDocument(), depth);
  }
}
