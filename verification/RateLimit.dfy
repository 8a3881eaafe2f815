/**
The sliding-window limiter of app/platform/rate_limit.py.

The dict of deques is a `Table`: its keys in insertion order, and each key's accepted timestamps. Two
histories ride along in the runs below: every accepted hit of a key, and the accepted hits since the
table last forgot the key, by eviction or reset.
*/
module RateLimit {
  import opened Wrappers

  const CAPACITY := 10_000
  const VICTIMS := 1000

  datatype Table = Table(order: seq<string>, hits: map<string, seq<Time>>)

  datatype Config = Config(limit: int, window: Time)

  predicate Distinct(keys: seq<string>) {
    keys != [] ==> keys[0] !in keys[1..] && Distinct(keys[1..])
  }

  function KeySet(keys: seq<string>): set<string> {
    set key | key in keys
  }

  predicate IsTable(t: Table) {
    Distinct(t.order) && KeySet(t.order) == t.hits.Keys
  }

  function HitsOf(m: map<string, seq<Time>>, key: string): seq<Time> {
    if key in m then m[key] else []
  }

  /** The sort key of the eviction: the newest hit, or 0 for an empty deque. */
  function Newest(m: map<string, seq<Time>>, key: string): Time {
    LastHit(HitsOf(m, key))
  }

  /** The last hit of a deque; an empty one counts as 0. */
  function LastHit(hits: seq<Time>): (last: Time)
    ensures hits == [] ==> last == 0.0
    ensures hits != [] ==> last == hits[|hits| - 1]
  {
    if hits == [] then 0.0 else hits[|hits| - 1]
  }

  // ---- Python's `sorted`: stable, ascending ---------------------------------------------------

  function InsertByNewest(m: map<string, seq<Time>>, key: string, keys: seq<string>): seq<string> {
    if keys == [] || Newest(m, key) <= Newest(m, keys[0]) then [key] + keys
    else [keys[0]] + InsertByNewest(m, key, keys[1..])
  }

  function SortByNewest(m: map<string, seq<Time>>, keys: seq<string>): seq<string> {
    if keys == [] then [] else InsertByNewest(m, keys[0], SortByNewest(m, keys[1..]))
  }

  predicate Ascending(m: map<string, seq<Time>>, keys: seq<string>) {
    keys != [] ==>
      && (forall key :: key in keys[1..] ==> Newest(m, keys[0]) <= Newest(m, key))
      && Ascending(m, keys[1..])
  }

  lemma {:induction false} InsertSorts(m: map<string, seq<Time>>, key: string, keys: seq<string>)
    requires Ascending(m, keys) && Distinct(keys) && key !in keys
    ensures
      var longer := InsertByNewest(m, key, keys);
      && Ascending(m, longer) && Distinct(longer) && |longer| == |keys| + 1
      && (forall k :: k in longer <==> k == key || k in keys)
  {
    if keys != [] && Newest(m, key) > Newest(m, keys[0]) {
      InsertSorts(m, key, keys[1..]);
    }
  }

  lemma {:induction false} SortSorts(m: map<string, seq<Time>>, keys: seq<string>)
    requires Distinct(keys)
    ensures
      var sorted := SortByNewest(m, keys);
      && Ascending(m, sorted) && Distinct(sorted) && |sorted| == |keys|
      && (forall k :: k in sorted <==> k in keys)
  {
    if keys != [] {
      SortSorts(m, keys[1..]);
      InsertSorts(m, keys[0], SortByNewest(m, keys[1..]));
    }
  }

  lemma {:induction false} SplitSorted(m: map<string, seq<Time>>, keys: seq<string>, n: nat)
    requires Ascending(m, keys) && Distinct(keys) && n <= |keys|
    ensures Distinct(keys[..n]) && forall k :: k in keys <==> k in keys[..n] || k in keys[n..]
    ensures forall x, y :: x in keys[..n] && y in keys[n..] ==> Newest(m, x) <= Newest(m, y)
  {
    if n > 0 {
      SplitSorted(m, keys[1..], n - 1);
      assert keys[1..][n - 1..] == keys[n..] && keys[..n] == [keys[0]] + keys[1..][..n - 1];
      assert keys[..n][1..] == keys[1..][..n - 1];
    }
  }

  // ---- Eviction -------------------------------------------------------------------------------

  function Pop(t: Table, key: string): Table {
    Table(Without(t.order, key), t.hits - {key})
  }

  function Without(keys: seq<string>, key: string): seq<string> {
    if keys == [] then []
    else if keys[0] == key then Without(keys[1..], key)
    else [keys[0]] + Without(keys[1..], key)
  }

  function PopAll(t: Table, victims: seq<string>): Table {
    if victims == [] then t else Pop(PopAll(t, victims[..|victims| - 1]), victims[|victims| - 1])
  }

  function Victims(t: Table): seq<string> {
    var sorted := SortByNewest(t.hits, t.order);
    if |sorted| <= VICTIMS then sorted else sorted[..VICTIMS]
  }

  function Trimmed(t: Table): Table {
    if |t.hits| > CAPACITY then PopAll(t, Victims(t)) else t
  }

  lemma {:induction false} WithoutMember(keys: seq<string>, key: string)
    requires Distinct(keys)
    ensures Distinct(Without(keys, key)) && forall k :: k in Without(keys, key) <==> k in keys && k != key
  {
    if keys != [] {
      WithoutMember(keys[1..], key);
    }
  }

  lemma KeySetSnoc(keys: seq<string>, key: string)
    ensures KeySet(keys + [key]) == KeySet(keys) + {key}
  {
  }

  lemma PopRemoves(t: Table, key: string)
    requires IsTable(t)
    ensures IsTable(Pop(t, key)) && Pop(t, key).hits == t.hits - {key}
  {
    WithoutMember(t.order, key);
  }

  lemma {:induction false} PopAllRemoves(t: Table, victims: seq<string>)
    requires IsTable(t)
    ensures IsTable(PopAll(t, victims)) && PopAll(t, victims).hits == t.hits - KeySet(victims)
  {
    if victims != [] {
      var earlier, last := victims[..|victims| - 1], victims[|victims| - 1];
      PopAllRemoves(t, earlier);
      PopRemoves(PopAll(t, earlier), last);
      KeySetSnoc(earlier, last);
      assert victims == earlier + [last];
      assert t.hits - KeySet(earlier) - {last} == t.hits - (KeySet(earlier) + {last});
    }
  }

  lemma {:induction false} DistinctCount(keys: seq<string>)
    requires Distinct(keys)
    ensures |KeySet(keys)| == |keys|
  {
    if keys != [] {
      DistinctCount(keys[1..]);
      assert KeySet(keys) == {keys[0]} + KeySet(keys[1..]);
    }
  }

  lemma VictimsAreOldest(t: Table)
    requires IsTable(t) && |t.hits| > CAPACITY
    ensures KeySet(Victims(t)) <= t.hits.Keys && |KeySet(Victims(t))| == VICTIMS
    ensures forall gone, kept :: gone in Victims(t) && kept in t.hits && kept !in Victims(t) ==>
              Newest(t.hits, gone) <= Newest(t.hits, kept)
  {
    var sorted := SortByNewest(t.hits, t.order);
    SortSorts(t.hits, t.order);
    DistinctCount(t.order);
    SplitSorted(t.hits, sorted, VICTIMS);
    DistinctCount(Victims(t));
    assert forall key :: key in KeySet(t.order) <==> key in t.hits;
  }

  lemma TrimRemovesVictims(t: Table)
    requires IsTable(t) && |t.hits| > CAPACITY
    ensures IsTable(Trimmed(t)) && Trimmed(t).hits.Keys <= t.hits.Keys
    ensures |Trimmed(t).hits| == |t.hits| - 1_000
    ensures forall key :: key in Trimmed(t).hits ==> Trimmed(t).hits[key] == t.hits[key]
    ensures forall gone, kept :: gone in t.hits && gone !in Trimmed(t).hits && kept in Trimmed(t).hits ==>
              Newest(t.hits, gone) <= Newest(t.hits, kept)
  {
    VictimsAreOldest(t);
    PopAllRemoves(t, Victims(t));
    var gone := KeySet(Victims(t));
    assert Trimmed(t).hits.Keys == t.hits.Keys - gone;
    assert |t.hits.Keys - gone| == |t.hits.Keys| - |gone|;
  }

  /**
  An eviction removes exactly 1,000 keys, and no key it removes has a newer last hit than a key it
  keeps. The keys it keeps lose nothing.
  */
  lemma EvictsTheOldest(t: Table)
    requires IsTable(t) && |t.hits| > 10_000
    ensures IsTable(Trimmed(t)) && Trimmed(t).hits.Keys <= t.hits.Keys
    ensures |Trimmed(t).hits| == |t.hits| - 1_000
    ensures forall key :: key in Trimmed(t).hits ==> Trimmed(t).hits[key] == t.hits[key]
    ensures forall gone, kept :: gone in t.hits && gone !in Trimmed(t).hits && kept in Trimmed(t).hits ==>
              LastHit(t.hits[gone]) <= LastHit(t.hits[kept])
  {
    TrimRemovesVictims(t);
    forall gone, kept | gone in t.hits && gone !in Trimmed(t).hits && kept in Trimmed(t).hits
      ensures LastHit(t.hits[gone]) <= LastHit(t.hits[kept])
    {
      assert Newest(t.hits, gone) <= Newest(t.hits, kept);
    }
  }

  // ---- One hit ----------------------------------------------------------------------------------

  function Pruned(hits: seq<Time>, cutoff: Time): seq<Time> {
    if hits != [] && hits[0] < cutoff then Pruned(hits[1..], cutoff) else hits
  }

  function AfterHit(c: Config, t: Table, key: string, now: Time): (Table, bool) {
    HitKept(c, Trimmed(t), key, now)
  }

  function HitKept(c: Config, kept: Table, key: string, now: Time): (Table, bool) {
    var bucket := Pruned(HitsOf(kept.hits, key), now - c.window);
    var accepted := |bucket| < c.limit;
    (Table(if key in kept.hits then kept.order else kept.order + [key],
           kept.hits[key := if accepted then bucket + [now] else bucket]),
     accepted)
  }

  class SlidingWindow {
    const config: Config
    var order: seq<string>
    var hits: map<string, seq<Time>>

    function State(): Table
      reads this
    {
      Table(order, hits)
    }

    constructor (limit: int, window: Time)
      ensures config == Config(limit, window) && State() == Table([], map[])
    {
      config := Config(limit, window);
      order, hits := [], map[];
    }

    /** The bulk eviction at the top of `hit`. */
    method Evict()
      modifies this
      ensures State() == Trimmed(old(State()))
    {
      if |hits| > CAPACITY {
        var victims := Victims(State());
        ghost var before := State();
        for i := 0 to |victims|
          invariant State() == PopAll(before, victims[..i])
        {
          assert victims[..i + 1][..i] == victims[..i];
          order, hits := Without(order, victims[i]), hits - {victims[i]};
        }
        assert victims[..|victims|] == victims;
      }
    }

    method Hit(key: string, now: Time) returns (accepted: bool)
      modifies this
      ensures (State(), accepted) == AfterHit(config, old(State()), key, now)
    {
      Evict();
      ghost var kept := State();
      if key !in hits {
        order, hits := order + [key], hits[key := []];
      }
      var bucket, cutoff := hits[key], now - config.window;
      while bucket != [] && bucket[0] < cutoff
        invariant Pruned(bucket, cutoff) == Pruned(HitsOf(kept.hits, key), cutoff)
      {
        bucket := bucket[1..];
      }
      accepted := |bucket| < config.limit;
      bucket := if accepted then bucket + [now] else bucket;
      hits := hits[key := bucket];
      assert hits == kept.hits[key := bucket];
      assert (State(), accepted) == HitKept(config, kept, key, now);
    }

    method Reset()
      modifies this
      ensures State() == Table([], map[])
    {
      order, hits := [], map[];
    }
  }

  // ---- Runs --------------------------------------------------------------------------------------

  datatype Event = Hit(key: string, at: Time) | Reset(at: Time)

  /** `full` holds every accepted hit of a key, `recent` those since the table last forgot the key. */
  datatype State = State(t: Table, full: map<string, seq<Time>>, recent: map<string, seq<Time>>, now: Time)

  function Start(now: Time): State {
    State(Table([], map[]), map[], map[], now)
  }

  function Append(m: map<string, seq<Time>>, key: string, at: Time): map<string, seq<Time>> {
    m[key := HitsOf(m, key) + [at]]
  }

  /** The keys an eviction dropped are dropped from `recent` too. */
  function Remembered(s: State): map<string, seq<Time>> {
    Restricted(s.recent, Trimmed(s.t).hits.Keys)
  }

  function Restricted(m: map<string, seq<Time>>, keys: set<string>): map<string, seq<Time>> {
    map key | key in m && key in keys :: m[key]
  }

  function Step(c: Config, s: State, e: Event): State {
    match e
    case Hit(key, at) => StepKept(c, s.(t := Trimmed(s.t), recent := Remembered(s)), key, at)
    case Reset(at) => State(Table([], map[]), s.full, map[], at)
  }

  function StepKept(c: Config, s: State, key: string, at: Time): State {
    var (t, accepted) := HitKept(c, s.t, key, at);
    if accepted then State(t, Append(s.full, key, at), Append(s.recent, key, at), at)
    else State(t, s.full, s.recent, at)
  }

  predicate InTimeOrder(es: seq<Event>, from: Time) {
    es != [] ==> from <= es[0].at && InTimeOrder(es[1..], es[0].at)
  }

  function Run(c: Config, s: State, es: seq<Event>): State
    decreases |es|
  {
    if es == [] then s else Run(c, Step(c, s, es[0]), es[1..])
  }

  /** How many hits lie in the closed window [lo, hi]. */
  function CountIn(hits: seq<Time>, lo: Time, hi: Time): nat {
    if hits == [] then 0 else (if lo <= hits[0] <= hi then 1 else 0) + CountIn(hits[1..], lo, hi)
  }

  ghost predicate Sorted(hits: seq<Time>, now: Time) {
    && (forall i, j :: 0 <= i < j < |hits| ==> hits[i] <= hits[j])
    && (forall i :: 0 <= i < |hits| ==> hits[i] <= now)
  }

  ghost predicate Suffix(part: seq<Time>, whole: seq<Time>) {
    |part| <= |whole| && part == whole[|whole| - |part|..]
  }

  /** What `part` leaves out of the whole it is a suffix of. */
  ghost function Before(part: seq<Time>, whole: seq<Time>): seq<Time> {
    if |part| <= |whole| then whole[..|whole| - |part|] else []
  }

  ghost predicate AllBelow(hits: seq<Time>, bound: Time) {
    forall i :: 0 <= i < |hits| ==> hits[i] < bound
  }

  /** A hit and the one `limit` places later are more than a window apart. */
  ghost predicate Spaced(c: Config, hits: seq<Time>) {
    forall i, j :: 0 <= i < |hits| && j == i + c.limit && 0 <= j < |hits| ==> hits[i] < hits[j] - c.window
  }

  /** One key's deque and histories at time `now`. */
  ghost predicate Agrees(c: Config, bucket: seq<Time>, recent: seq<Time>, full: seq<Time>, now: Time) {
    && Sorted(full, now) && Suffix(recent, full) && Suffix(bucket, recent)
    && AllBelow(Before(bucket, recent), now - c.window)
    && Spaced(c, recent)
  }

  ghost predicate KeyInv(c: Config, s: State, key: string) {
    Agrees(c, HitsOf(s.t.hits, key), HitsOf(s.recent, key), HitsOf(s.full, key), s.now)
  }

  ghost predicate Inv(c: Config, s: State) {
    && IsTable(s.t) && |s.t.hits| <= CAPACITY + 1
    && (forall key :: KeyInv(c, s, key))
  }

  lemma {:induction false} PrunedDrops(hits: seq<Time>, cutoff: Time, now: Time)
    requires Sorted(hits, now)
    ensures Suffix(Pruned(hits, cutoff), hits) && AllBelow(Before(Pruned(hits, cutoff), hits), cutoff)
    ensures forall i :: 0 <= i < |Pruned(hits, cutoff)| ==> cutoff <= Pruned(hits, cutoff)[i] <= now
  {
    if hits != [] && hits[0] < cutoff {
      PrunedDrops(hits[1..], cutoff, now);
      var pruned := Pruned(hits, cutoff);
      assert Before(pruned, hits) == [hits[0]] + Before(pruned, hits[1..]);
    }
  }

  lemma SuffixParts(part: seq<Time>, whole: seq<Time>, now: Time)
    requires Suffix(part, whole)
    ensures whole == Before(part, whole) + part
    ensures Sorted(whole, now) ==> Sorted(part, now)
  {
    var skip := |whole| - |part|;
    assert forall i :: 0 <= i < |part| ==> part[i] == whole[skip + i];
  }

  lemma SuffixOfSuffix(part: seq<Time>, middle: seq<Time>, whole: seq<Time>)
    requires Suffix(part, middle) && Suffix(middle, whole)
    ensures Suffix(part, whole) && Before(part, whole) == Before(middle, whole) + Before(part, middle)
  {
    assert whole == Before(middle, whole) + (Before(part, middle) + part);
  }

  lemma {:induction false} CountParts(xs: seq<Time>, ys: seq<Time>, lo: Time, hi: Time)
    ensures CountIn(xs + ys, lo, hi) == CountIn(xs, lo, hi) + CountIn(ys, lo, hi)
  {
    if xs == [] {
      assert xs + ys == ys;
    } else {
      assert (xs + ys)[1..] == xs[1..] + ys;
      CountParts(xs[1..], ys, lo, hi);
    }
  }

  lemma {:induction false} CountBounds(hits: seq<Time>, lo: Time, hi: Time)
    ensures CountIn(hits, lo, hi) <= |hits|
    ensures AllBelow(hits, lo) ==> CountIn(hits, lo, hi) == 0
    ensures (forall i :: 0 <= i < |hits| ==> lo <= hits[i] <= hi) ==> CountIn(hits, lo, hi) == |hits|
  {
    if hits != [] {
      CountBounds(hits[1..], lo, hi);
      assert forall i :: 0 <= i < |hits[1..]| ==> hits[1..][i] == hits[i + 1];
    }
  }

  lemma CountAfter(gone: seq<Time>, kept: seq<Time>, cutoff: Time, now: Time)
    requires AllBelow(gone, cutoff)
    requires forall i :: 0 <= i < |kept| ==> cutoff <= kept[i] <= now
    ensures CountIn(gone + kept, cutoff, now) == |kept|
  {
    CountParts(gone, kept, cutoff, now);
    CountBounds(gone, cutoff, now);
    CountBounds(kept, cutoff, now);
  }

  /** After pruning, the deque is exactly the accepted hits of the window. */
  lemma BucketCountsWindow(c: Config, bucket: seq<Time>, recent: seq<Time>, last: Time, now: Time)
    requires last <= now && Sorted(recent, last) && Suffix(bucket, recent)
    requires AllBelow(Before(bucket, recent), last - c.window)
    ensures
      var pruned := Pruned(bucket, now - c.window);
      && Suffix(pruned, recent) && AllBelow(Before(pruned, recent), now - c.window)
      && |pruned| == CountIn(recent, now - c.window, now)
  {
    var cutoff := now - c.window;
    var pruned := Pruned(bucket, cutoff);
    SuffixParts(bucket, recent, last);
    PrunedDrops(bucket, cutoff, last);
    SuffixOfSuffix(pruned, bucket, recent);
    SuffixParts(pruned, recent, last);
    CountAfter(Before(pruned, recent), pruned, cutoff, now);
  }

  lemma CountInSuffix(part: seq<Time>, whole: seq<Time>, lo: Time, hi: Time)
    requires Suffix(part, whole)
    ensures CountIn(part, lo, hi) <= CountIn(whole, lo, hi)
  {
    var earlier := Before(part, whole);
    assert whole == earlier + part;
    CountParts(earlier, part, lo, hi);
  }

  /** The decision on one key, seen from its histories. */
  lemma Decision(c: Config, bucket: seq<Time>, recent: seq<Time>, full: seq<Time>, now: Time, at: Time)
    requires Sorted(full, now) && Suffix(recent, full) && Suffix(bucket, recent) && now <= at
    requires AllBelow(Before(bucket, recent), now - c.window)
    ensures
      var pruned := Pruned(bucket, at - c.window);
      && Suffix(pruned, recent) && AllBelow(Before(pruned, recent), at - c.window)
      && |pruned| == CountIn(recent, at - c.window, at) <= CountIn(full, at - c.window, at)
  {
    assert Sorted(recent, now) by {
      SuffixParts(recent, full, now);
    }
    BucketCountsWindow(c, bucket, recent, now, at);
    assert CountIn(recent, at - c.window, at) <= CountIn(full, at - c.window, at) by {
      CountInSuffix(recent, full, at - c.window, at);
    }
  }

  lemma SortedSnoc(hits: seq<Time>, now: Time, at: Time)
    requires Sorted(hits, now) && now <= at
    ensures Sorted(hits + [at], at)
  {
  }

  lemma SuffixSnoc(part: seq<Time>, whole: seq<Time>, at: Time)
    requires Suffix(part, whole)
    ensures Suffix(part + [at], whole + [at])
    ensures Before(part + [at], whole + [at]) == Before(part, whole)
  {
  }

  lemma SpacedSnoc(c: Config, pruned: seq<Time>, recent: seq<Time>, at: Time)
    requires Spaced(c, recent) && Suffix(pruned, recent) && AllBelow(Before(pruned, recent), at - c.window)
    requires |pruned| < c.limit
    ensures Spaced(c, recent + [at])
  {
    var longer := recent + [at];
    forall i, j | 0 <= i < |longer| && j == i + c.limit && 0 <= j < |longer| ensures longer[i] < longer[j] - c.window {
      if j == |recent| {
        assert longer[i] == Before(pruned, recent)[i];
      }
    }
  }

  /** One hit on one key keeps its deque and its histories in step. */
  lemma HitKeepsAgreement(c: Config, bucket: seq<Time>, recent: seq<Time>, full: seq<Time>, now: Time, at: Time)
    requires Agrees(c, bucket, recent, full, now) && now <= at
    ensures
      var pruned := Pruned(bucket, at - c.window);
      && Agrees(c, pruned, recent, full, at)
      && (|pruned| < c.limit ==> Agrees(c, pruned + [at], recent + [at], full + [at], at))
  {
    var pruned := Pruned(bucket, at - c.window);
    assert Suffix(pruned, recent) && AllBelow(Before(pruned, recent), at - c.window) by {
      Decision(c, bucket, recent, full, now, at);
    }
    if |pruned| < c.limit {
      SortedSnoc(full, now, at);
      SuffixSnoc(pruned, recent, at);
      SuffixSnoc(recent, full, at);
      SpacedSnoc(c, pruned, recent, at);
    }
  }

  /** What one hit does to the deque and the histories of any key. */
  lemma StepKeptOnKey(c: Config, s: State, key: string, at: Time, other: string)
    ensures
      var s' := StepKept(c, s, key, at);
      var pruned := Pruned(HitsOf(s.t.hits, key), at - c.window);
      var (bucket, recent, full) := (HitsOf(s.t.hits, other), HitsOf(s.recent, other), HitsOf(s.full, other));
      && s'.now == at
      && (HitsOf(s'.t.hits, other), HitsOf(s'.recent, other), HitsOf(s'.full, other))
         == if other != key then (bucket, recent, full)
            else if |pruned| < c.limit then (pruned + [at], recent + [at], full + [at])
            else (pruned, recent, full)
  {
  }

  lemma StepKeptKeepsKey(c: Config, s: State, key: string, at: Time, other: string)
    requires KeyInv(c, s, other) && s.now <= at
    ensures KeyInv(c, StepKept(c, s, key, at), other)
  {
    StepKeptOnKey(c, s, key, at, other);
    if other == key {
      HitKeepsAgreement(c, HitsOf(s.t.hits, key), HitsOf(s.recent, key), HitsOf(s.full, key), s.now, at);
    } else {
      LaterAgrees(c, HitsOf(s.t.hits, other), HitsOf(s.recent, other), HitsOf(s.full, other), s.now, at);
    }
  }

  lemma LaterAgrees(c: Config, bucket: seq<Time>, recent: seq<Time>, full: seq<Time>, now: Time, at: Time)
    requires Agrees(c, bucket, recent, full, now) && now <= at
    ensures Agrees(c, bucket, recent, full, at)
  {
  }

  lemma StepKeptKeepsTable(c: Config, s: State, key: string, at: Time)
    requires IsTable(s.t) && |s.t.hits| <= CAPACITY
    ensures IsTable(StepKept(c, s, key, at).t) && |StepKept(c, s, key, at).t.hits| <= CAPACITY + 1
  {
    if key !in s.t.hits {
      KeySetSnoc(s.t.order, key);
      assert key !in KeySet(s.t.order);
      DistinctSnoc(s.t.order, key);
    }
    assert StepKept(c, s, key, at).t.hits.Keys == s.t.hits.Keys + {key};
  }

  lemma StepKeptKeepsInv(c: Config, s: State, key: string, at: Time)
    requires Inv(c, s) && |s.t.hits| <= CAPACITY && s.now <= at
    ensures Inv(c, StepKept(c, s, key, at))
  {
    StepKeptKeepsTable(c, s, key, at);
    forall other ensures KeyInv(c, StepKept(c, s, key, at), other) {
      StepKeptKeepsKey(c, s, key, at, other);
    }
  }

  /** Forgetting the evicted keys keeps the invariant, and makes room. */
  lemma TrimKeepsInv(c: Config, s: State)
    requires Inv(c, s)
    ensures Inv(c, s.(t := Trimmed(s.t), recent := Remembered(s))) && |Trimmed(s.t).hits| <= CAPACITY
  {
    var s' := s.(t := Trimmed(s.t), recent := Remembered(s));
    if |s.t.hits| > CAPACITY {
      EvictsTheOldest(s.t);
    }
    forall key ensures KeyInv(c, s', key) {
      assert KeyInv(c, s, key);
      TrimKeepsKey(c, s, Trimmed(s.t).hits, key);
    }
  }

  lemma TrimKeepsKey(c: Config, s: State, kept: map<string, seq<Time>>, key: string)
    requires KeyInv(c, s, key)
    requires key in kept ==> key in s.t.hits && kept[key] == s.t.hits[key]
    ensures Agrees(c, HitsOf(kept, key), HitsOf(Restricted(s.recent, kept.Keys), key), HitsOf(s.full, key), s.now)
  {
    if key !in kept {
      ForgottenAgrees(c, HitsOf(s.t.hits, key), HitsOf(s.recent, key), HitsOf(s.full, key), s.now);
    } else {
      assert HitsOf(Restricted(s.recent, kept.Keys), key) == HitsOf(s.recent, key);
    }
  }

  lemma ForgottenAgrees(c: Config, bucket: seq<Time>, recent: seq<Time>, full: seq<Time>, now: Time)
    requires Agrees(c, bucket, recent, full, now)
    ensures Agrees(c, [], [], full, now)
  {
  }

  lemma {:induction false} DistinctSnoc(keys: seq<string>, key: string)
    requires Distinct(keys) && key !in keys
    ensures Distinct(keys + [key])
  {
    if keys != [] {
      assert (keys + [key])[1..] == keys[1..] + [key];
      DistinctSnoc(keys[1..], key);
    }
  }

  lemma StepKeepsInv(c: Config, s: State, e: Event)
    requires Inv(c, s) && s.now <= e.at
    ensures Inv(c, Step(c, s, e))
  {
    match e {
      case Hit(key, at) =>
        TrimKeepsInv(c, s);
        StepKeptKeepsInv(c, s.(t := Trimmed(s.t), recent := Remembered(s)), key, at);
      case Reset(at) => ResetKeepsInv(c, s, at);
    }
  }

  lemma ResetKeepsInv(c: Config, s: State, at: Time)
    requires Inv(c, s) && s.now <= at
    ensures Inv(c, Step(c, s, Reset(at)))
  {
    forall key ensures KeyInv(c, Step(c, s, Reset(at)), key) {
      assert KeyInv(c, s, key);
      ForgottenAgrees(c, HitsOf(s.t.hits, key), HitsOf(s.recent, key), HitsOf(s.full, key), s.now);
      LaterAgrees(c, [], [], HitsOf(s.full, key), s.now, at);
    }
  }

  lemma DecisionOnKey(c: Config, s: State, key: string, at: Time)
    requires KeyInv(c, s, key) && s.now <= at
    ensures
      var recent := CountIn(HitsOf(s.recent, key), at - c.window, at);
      && (HitKept(c, s.t, key, at).1 <==> recent < c.limit)
      && recent <= CountIn(HitsOf(s.full, key), at - c.window, at)
  {
    Decision(c, HitsOf(s.t.hits, key), HitsOf(s.recent, key), HitsOf(s.full, key), s.now, at);
  }

  /** The decision on the next hit, in any state a run can reach. */
  lemma HitDecision(c: Config, s: State, key: string, at: Time)
    requires Inv(c, s) && s.now <= at
    ensures
      var recent, full := HitsOf(Remembered(s), key), HitsOf(s.full, key);
      var accepted := AfterHit(c, s.t, key, at).1;
      && (accepted <==> CountIn(recent, at - c.window, at) < c.limit)
      && CountIn(recent, at - c.window, at) <= CountIn(full, at - c.window, at)
  {
    TrimKeepsInv(c, s);
    var s' := s.(t := Trimmed(s.t), recent := Remembered(s));
    DecisionOnKey(c, s', key, at);
  }

  lemma {:induction false} RunKeepsInv(c: Config, s: State, es: seq<Event>)
    requires Inv(c, s) && InTimeOrder(es, s.now)
    ensures Inv(c, Run(c, s, es))
    decreases |es|
  {
    if es != [] {
      StepKeepsInv(c, s, es[0]);
      RunKeepsInv(c, Step(c, s, es[0]), es[1..]);
    }
  }

  // ---- The main results -----------------------------------------------------------------------

  /** No eviction and no reset of the run (nor the hit that comes next) takes the key out of the table. */
  predicate NeverForgotten(c: Config, s: State, es: seq<Event>, key: string)
    decreases |es|
  {
    && (key in s.t.hits ==> key in Trimmed(s.t).hits)
    && (es != [] ==> (es[0].Reset? ==> key !in s.t.hits) && NeverForgotten(c, Step(c, s, es[0]), es[1..], key))
  }

  lemma {:induction false} RememberedInFull(c: Config, s: State, es: seq<Event>, key: string)
    requires Inv(c, s) && InTimeOrder(es, s.now) && NeverForgotten(c, s, es, key)
    requires HitsOf(s.recent, key) == HitsOf(s.full, key)
    requires key !in s.t.hits ==> HitsOf(s.recent, key) == []
    ensures
      var end := Run(c, s, es);
      HitsOf(Remembered(end), key) == HitsOf(end.recent, key) == HitsOf(end.full, key)
    decreases |es|
  {
    if es != [] {
      StepKeepsInv(c, s, es[0]);
      RememberedInFull(c, Step(c, s, es[0]), es[1..], key);
    }
  }

  /**
  Refinement of the full-log limiter. After any run, the next hit of a key that was never forgotten is
  accepted exactly when fewer than `limit` of all its accepted hits lie in [now - window, now].
  */
  lemma HitRefinesFullLog(c: Config, start: Time, es: seq<Event>, key: string, at: Time)
    requires InTimeOrder(es, start) && Run(c, Start(start), es).now <= at
    requires NeverForgotten(c, Start(start), es, key)
    ensures
      var s := Run(c, Start(start), es);
      AfterHit(c, s.t, key, at).1 <==> CountIn(HitsOf(s.full, key), at - c.window, at) < c.limit
  {
    RunKeepsInv(c, Start(start), es);
    RememberedInFull(c, Start(start), es, key);
    HitDecision(c, Run(c, Start(start), es), key, at);
  }

  /**
  Forgetting only loosens. In every run, with any evictions and resets, a refused hit has at least
  `limit` truly accepted hits of its key in its window, and the table never exceeds 10,001 keys.
  */
  lemma RefusalsAreDeserved(c: Config, start: Time, es: seq<Event>, key: string, at: Time)
    requires InTimeOrder(es, start) && Run(c, Start(start), es).now <= at
    ensures
      var s := Run(c, Start(start), es);
      && (!AfterHit(c, s.t, key, at).1 ==> CountIn(HitsOf(s.full, key), at - c.window, at) >= c.limit)
      && |s.t.hits| <= 10_001
  {
    RunKeepsInv(c, Start(start), es);
    HitDecision(c, Run(c, Start(start), es), key, at);
  }

  /** All but the last `limit` hits lie before a window that reaches the last hit. */
  lemma FarHitsAreBelow(c: Config, hits: seq<Time>, now: Time, lo: Time)
    requires Sorted(hits, now) && Spaced(c, hits) && 0 <= c.limit < |hits|
    requires lo <= hits[|hits| - 1] <= lo + c.window
    ensures AllBelow(hits[..|hits| - c.limit], lo)
  {
    var last := |hits| - 1;
    assert hits[last - c.limit] < hits[last] - c.window <= lo;
    forall i | 0 <= i < |hits| - c.limit ensures hits[i] < lo {
      assert i < last - c.limit ==> hits[i] <= hits[last - c.limit];
    }
  }

  lemma LastHitsFitWindow(c: Config, hits: seq<Time>, now: Time, lo: Time)
    requires Sorted(hits, now) && Spaced(c, hits) && 0 <= c.limit < |hits|
    requires lo <= hits[|hits| - 1] <= lo + c.window
    ensures CountIn(hits, lo, lo + c.window) <= c.limit
  {
    FarHitsAreBelow(c, hits, now, lo);
    var far, near := hits[..|hits| - c.limit], hits[|hits| - c.limit..];
    assert hits == far + near;
    CountFarAndNear(far, near, lo, lo + c.window);
  }

  lemma CountFarAndNear(far: seq<Time>, near: seq<Time>, lo: Time, hi: Time)
    requires AllBelow(far, lo)
    ensures CountIn(far + near, lo, hi) <= |near|
  {
    CountParts(far, near, lo, hi);
    CountBounds(far, lo, hi);
    CountBounds(near, lo, hi);
  }

  lemma {:induction false} SpacedFitsWindow(c: Config, hits: seq<Time>, now: Time, lo: Time)
    requires Sorted(hits, now) && Spaced(c, hits) && c.limit >= 0
    ensures CountIn(hits, lo, lo + c.window) <= c.limit
  {
    var n, hi := |hits|, lo + c.window;
    if n <= c.limit {
      CountBounds(hits, lo, hi);
    } else if lo <= hits[n - 1] <= hi {
      LastHitsFitWindow(c, hits, now, lo);
    } else {
      var init, last := hits[..n - 1], hits[n - 1];
      SpacedFitsWindow(c, init, now, lo);
      assert hits == init + [last];
      CountParts(init, [last], lo, hi);
    }
  }

  /**
  The promise of the limiter. In every run, every closed window of length `window` holds at most `limit`
  accepted hits of a key that was never forgotten (and of any key, counting since it last was).
  */
  lemma WindowsAreLimited(c: Config, start: Time, es: seq<Event>, key: string, lo: Time)
    requires InTimeOrder(es, start) && c.limit >= 0
    ensures
      var s := Run(c, Start(start), es);
      && CountIn(HitsOf(s.recent, key), lo, lo + c.window) <= c.limit
      && (NeverForgotten(c, Start(start), es, key) ==> CountIn(HitsOf(s.full, key), lo, lo + c.window) <= c.limit)
  {
    RunKeepsInv(c, Start(start), es);
    var s := Run(c, Start(start), es);
    assert KeyInv(c, s, key);
    SuffixParts(HitsOf(s.recent, key), HitsOf(s.full, key), s.now);
    SpacedFitsWindow(c, HitsOf(s.recent, key), s.now, lo);
    if NeverForgotten(c, Start(start), es, key) {
      RememberedInFull(c, Start(start), es, key);
    }
  }

  /** Keys of every length are distinct keys. */
  function KeyOf(i: nat): string {
    seq(i, _ => 'k')
  }

  /** One hit on each of the keys i, i + 1, ..., n - 1, all at one moment. */
  function HitEach(i: nat, n: nat, at: Time): seq<Event>
    requires i <= n
    decreases n - i, at
  {
    if i == n then [] else [Hit(KeyOf(i), at)] + HitEach(i + 1, n, at)
  }

  lemma NewKeyGrows(c: Config, s: State, key: string, at: Time)
    requires key !in s.t.hits && |s.t.hits| <= CAPACITY
    ensures Step(c, s, Hit(key, at)).t.hits.Keys == s.t.hits.Keys + {key}
    ensures |Step(c, s, Hit(key, at)).t.hits| == |s.t.hits| + 1
  {
    assert Trimmed(s.t) == s.t;
    var s' := Step(c, s, Hit(key, at));
    assert s'.t.hits.Keys == s.t.hits.Keys + {key};
    assert |s'.t.hits.Keys| == |s.t.hits.Keys| + 1;
  }

  lemma {:induction false} HitEachFills(c: Config, s: State, i: nat, n: nat, at: Time)
    requires i <= n <= CAPACITY + 1 && |s.t.hits| == i && (forall key :: key in s.t.hits ==> |key| < i) && s.now <= at
    ensures InTimeOrder(HitEach(i, n, at), s.now) && |Run(c, s, HitEach(i, n, at)).t.hits| == n
    decreases n - i
  {
    if i < n {
      var e, rest := Hit(KeyOf(i), at), HitEach(i + 1, n, at);
      NewKeyGrows(c, s, KeyOf(i), at);
      assert HitEach(i, n, at)[0] == e && HitEach(i, n, at)[1..] == rest;
      HitEachFills(c, Step(c, s, e), i + 1, n, at);
    }
  }

  /** The bound on the table is reached: one hit on each of 10,001 keys leaves 10,001 keys in it. */
  lemma TableReachesItsBound(c: Config, start: Time) returns (es: seq<Event>)
    ensures InTimeOrder(es, start) && |Run(c, Start(start), es).t.hits| == 10_001
  {
    es := HitEach(0, CAPACITY + 1, start);
    HitEachFills(c, Start(start), 0, CAPACITY + 1, start);
  }

  /** One hit on a table that tracks only this key: the deque and the log, without the bookkeeping. */
  function Solo(c: Config, bucket: seq<Time>, full: seq<Time>, at: Time): (seq<Time>, seq<Time>) {
    var pruned := Pruned(bucket, at - c.window);
    if |pruned| < c.limit then (pruned + [at], full + [at]) else (pruned, full)
  }

  function SoloRun(c: Config, bucket: seq<Time>, full: seq<Time>, ats: seq<Time>): seq<Time>
    decreases |ats|
  {
    if ats == [] then full
    else
      var (b, f) := Solo(c, bucket, full, ats[0]);
      SoloRun(c, b, f, ats[1..])
  }

  function HitsAt(key: string, ats: seq<Time>): seq<Event> {
    seq(|ats|, i requires 0 <= i < |ats| => Hit(key, ats[i]))
  }

  lemma SoloIsStep(c: Config, s: State, key: string, at: Time)
    requires s.t.hits.Keys <= {key}
    ensures Step(c, s, Hit(key, at)).t.hits.Keys <= {key}
    ensures
      var s' := Step(c, s, Hit(key, at));
      (HitsOf(s'.t.hits, key), HitsOf(s'.full, key)) == Solo(c, HitsOf(s.t.hits, key), HitsOf(s.full, key), at)
  {
    assert {key} == s.t.hits.Keys + ({key} - s.t.hits.Keys);
    assert |s.t.hits.Keys| <= |{key}|;
    var kept := s.(recent := Remembered(s));
    assert Trimmed(s.t) == s.t;
    StepKeptOnKey(c, kept, key, at, key);
  }

  lemma {:induction false} SoloIsRun(c: Config, s: State, key: string, ats: seq<Time>)
    requires s.t.hits.Keys <= {key}
    ensures HitsOf(Run(c, s, HitsAt(key, ats)).full, key) == SoloRun(c, HitsOf(s.t.hits, key), HitsOf(s.full, key), ats)
    decreases |ats|
  {
    if ats != [] {
      SoloIsStep(c, s, key, ats[0]);
      assert HitsAt(key, ats)[1..] == HitsAt(key, ats[1..]);
      SoloIsRun(c, Step(c, s, Hit(key, ats[0])), key, ats[1..]);
    }
  }

  /**
  The order matters: `hit` reads the clock before it takes the lock. Were two readings to reach the lock
  in the wrong order, a limit of 2 per 3 seconds would let three hits into [0, 3].
  */
  lemma OutOfOrderReadingsOverfill(key: string)
    ensures
      var c, ats := Config(2, 3.0), [0.0, 0.5, 4.0, 3.0];
      CountIn(HitsOf(Run(c, Start(0.0), HitsAt(key, ats)).full, key), 0.0, 3.0) == 3
  {
    var c, ats := Config(2, 3.0), [0.0, 0.5, 4.0, 3.0];
    SoloIsRun(c, Start(0.0), key, ats);
    SoloOverfills();
    assert CountIn(ats, 0.0, 3.0) == 2 + CountIn(ats[1..][1..], 0.0, 3.0);
    assert ats[1..][1..] == [4.0, 3.0] && [4.0, 3.0][1..] == [3.0] && [3.0][1..] == [];
  }

  lemma SoloOverfills()
    ensures SoloRun(Config(2, 3.0), [], [], [0.0, 0.5, 4.0, 3.0]) == [0.0, 0.5, 4.0, 3.0]
  {
    var c := Config(2, 3.0);
    var a, b, d: seq<Time> := [0.0], [0.0, 0.5], [0.0, 0.5, 4.0];
    assert [] + [0.0] == a && a + [0.5] == b && b + [4.0] == d && d + [3.0] == [0.0, 0.5, 4.0, 3.0] && [] + [4.0] == [4.0];
    assert b[1..] == [0.5] && [0.5][1..] == [];
    assert Pruned(b, 1.0) == Pruned([0.5], 1.0) == [];
    calc {
      SoloRun(c, [], [], [0.0, 0.5, 4.0, 3.0]);
      { assert [0.0, 0.5, 4.0, 3.0][1..] == [0.5, 4.0, 3.0]; assert Solo(c, [], [], 0.0) == (a, a); }
      SoloRun(c, a, a, [0.5, 4.0, 3.0]);
      { assert [0.5, 4.0, 3.0][1..] == [4.0, 3.0]; assert Solo(c, a, a, 0.5) == (b, b); }
      SoloRun(c, b, b, [4.0, 3.0]);
      { assert [4.0, 3.0][1..] == [3.0]; assert Solo(c, b, b, 4.0) == ([4.0], d); }
      SoloRun(c, [4.0], d, [3.0]);
      { assert [3.0][1..] == []; }
      [0.0, 0.5, 4.0, 3.0];
    }
  }
}
