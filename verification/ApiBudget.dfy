/**
The monthly request meter of app/platform/api_budget.py, over the store of RedisClient.

`can_spend` and `spend` are separate awaits, so any number of workers can sit between them. The
state machine below lets them interleave freely, lets months roll over while workers are waiting
(also between the reading of a key and the command on it), and lets `spend` be cut between its INCRBY
and its EXPIRE.
*/
module ApiBudget {
  import opened Wrappers
  import opened RedisClient

  const DAY := 86400.0
  const KEY_TTL_SECONDS := 35 * 24 * 60 * 60

  /** `int(monthly_limit * soft_ratio)`, which truncates towards zero. */
  function SoftCeiling(limit: int, ratio: real): int {
    var product := limit as real * ratio;
    if product < 0.0 then -((-product).Floor) else product.Floor
  }

  function UsedIn(store: Store, key: string, now: Time): int {
    var reply := GetReply(store, key, now);
    if reply.Some? then AsInt(reply.value) else 0
  }

  predicate MaySpend(limit: int, ratio: real, used: int, n: int) {
    limit <= 0 || used + n <= SoftCeiling(limit, ratio)
  }

  function AfterSpend(store: Store, key: string, n: int, now: Time, armedAt: Time): Store {
    var counted := AfterIncrBy(store, key, n, now);
    if IncrTotal(store, key, n, now) <= n then AfterExpire(counted, key, KEY_TTL_SECONDS, armedAt) else counted
  }

  /** The soft ceiling is the whole part of `limit * ratio`. */
  lemma CeilingIsWholePart(limit: int, ratio: real)
    requires limit as real * ratio >= 0.0
    ensures SoftCeiling(limit, ratio) as real <= limit as real * ratio < SoftCeiling(limit, ratio) as real + 1.0
  {
  }

  /**
  What `can_spend` answers. Under a positive limit it lets a request through if and only if the count stays
  within `limit * ratio` with it; without a limit it lets everything through.
  */
  lemma SpendsWithinTheRatio(limit: int, ratio: real, used: int, n: int)
    requires ratio >= 0.0
    ensures limit > 0 ==> (MaySpend(limit, ratio, used, n) <==> (used + n) as real <= limit as real * ratio)
    ensures limit <= 0 ==> MaySpend(limit, ratio, used, n)
  {
    if limit > 0 {
      assert limit as real * ratio >= 0.0;
      CeilingIsWholePart(limit, ratio);
    }
  }

  class ApiBudget {
    const monthlyLimit: nat
    const softRatio: real
    const redis: InMemoryRedis

    constructor (redis: InMemoryRedis, monthlyLimit: int, softRatio: real)
      ensures this.redis == redis && this.softRatio == softRatio
      ensures this.monthlyLimit == if monthlyLimit < 0 then 0 else monthlyLimit
    {
      this.redis, this.softRatio := redis, softRatio;
      this.monthlyLimit := if monthlyLimit < 0 then 0 else monthlyLimit;
    }

    method Used(key: string, now: Time) returns (used: int)
      modifies redis
      ensures used == UsedIn(old(redis.store), key, now)
      ensures redis.store == AfterGet(old(redis.store), key, now)
    {
      var raw := redis.Get(key, now);
      used := if raw.Some? then AsInt(raw.value) else 0;
    }

    method CanSpend(key: string, n: int, now: Time) returns (ok: bool)
      modifies redis
      ensures ok == MaySpend(monthlyLimit, softRatio, UsedIn(old(redis.store), key, now), n)
      ensures redis.store == if monthlyLimit <= 0 then old(redis.store) else AfterGet(old(redis.store), key, now)
    {
      if monthlyLimit <= 0 {
        return true;
      }
      var used := Used(key, now);
      ok := used + n <= SoftCeiling(monthlyLimit, softRatio);
    }

    method Spend(key: string, n: int, now: Time, armedAt: Time) returns (total: int)
      modifies redis
      ensures redis.store == AfterSpend(old(redis.store), key, n, now, armedAt)
      ensures total == UsedIn(old(redis.store), key, now) + n
    {
      total := redis.IncrBy(key, n, now);
      if total <= n {
        var _ := redis.Expire(key, KEY_TTL_SECONDS, armedAt);
      }
    }
  }

  /**
  The first spend of a month, or one that meets a counter which expired without being purged: the
  count restarts at n and stays readable for the whole key TTL, although INCRBY kept the dead expiry.
  */
  lemma FirstSpendRestartsTheCount(store: Store, key: string, n: int, now: Time, armedAt: Time, later: Time)
    requires key !in store || Dead(store, key, now)
    requires now <= armedAt <= later
    ensures
      var after := AfterSpend(store, key, n, now, armedAt);
      && key in after && after[key] == Row(Number(n), Some(armedAt + 3_024_000.0))
      && (UsedIn(after, key, later) == n <==> n == 0 || later <= armedAt + 3_024_000.0)
  {
  }

  // ---- Workers racing between can_spend and spend ----------------------------------------

  /** Months are numbered. `start(p)` is the first instant of month p and `name(p)` its key. */
  datatype Calendar = Calendar(start: int -> Time, name: int -> string)

  ghost predicate IsCalendar(c: Calendar) {
    && (forall p, q :: q == p + 1 ==> c.start(p) < c.start(q) <= c.start(p) + 31.0 * DAY)
    && (forall p, q :: c.name(p) == c.name(q) ==> p == q)
  }

  datatype Meter = Meter(calendar: Calendar, limit: int, ratio: real) {
    function Ceiling(): int {
      SoftCeiling(limit, ratio)
    }

    ghost predicate Valid() {
      IsCalendar(calendar) && limit > 0 && ratio >= 0.0
    }
  }

  /** A worker inside `can_spend`: what it asks for, and the month whose key it has read. */
  datatype Asker = Asker(n: nat, month: int)

  /**
  `asking` has one entry per worker that awaits the answer of `can_spend`. `pending` has one entry per worker
  that `can_spend` let through: what it may still spend. `arming` has one entry per `spend` that incremented a
  counter and has yet to set its expiry.
  */
  datatype State = State(now: Time, month: int, store: Store, asking: seq<Asker>, pending: seq<nat>, arming: seq<string>)

  datatype Event =
    | Tick(to: Time, month: int)                 // time passes, possibly into a later month
    | Ask(n: nat)                                // can_spend(n), up to its GET
    | Answer(i: nat)                             // the GET of an earlier can_spend
    | Count(worker: nat, n: nat, keyed: int)     // the INCRBY of spend(n), on the key of this or an earlier month
    | Arm(i: nat)                                // the EXPIRE of an earlier spend
    | Drop(worker: nat)                          // a worker leaves without spending the rest

  function Key(m: Meter, s: State): string {
    m.calendar.name(s.month)
  }

  function Used(m: Meter, s: State): int {
    UsedIn(s.store, Key(m, s), s.now)
  }

  function Without<T>(xs: seq<T>, i: nat): seq<T>
    requires i < |xs|
  {
    xs[..i] + xs[i + 1..]
  }

  predicate Enabled(m: Meter, s: State, e: Event) {
    match e
    case Tick(to, month) => s.now <= to && m.calendar.start(month) <= to < m.calendar.start(month + 1)
    case Ask(_) => true
    case Answer(i) => i < |s.asking|
    case Count(w, n, keyed) => w < |s.pending| && n <= s.pending[w] && keyed <= s.month
    case Arm(i) => i < |s.arming|
    case Drop(w) => w < |s.pending|
  }

  function Step(m: Meter, s: State, e: Event): State
    requires Enabled(m, s, e)
  {
    match e
    case Tick(to, month) => s.(now := to, month := month)
    case Ask(n) => s.(asking := s.asking + [Asker(n, s.month)])
    case Answer(i) =>
      var ask, key := s.asking[i], m.calendar.name(s.asking[i].month);
      var s' := s.(store := AfterGet(s.store, key, s.now), asking := Without(s.asking, i));
      if MaySpend(m.limit, m.ratio, UsedIn(s.store, key, s.now), ask.n) then s'.(pending := s.pending + [ask.n]) else s'
    case Count(w, n, keyed) =>
      var key := m.calendar.name(keyed);
      var s' := s.(store := AfterIncrBy(s.store, key, n, s.now), pending := s.pending[w := s.pending[w] - n]);
      if IncrTotal(s.store, key, n, s.now) <= n then s'.(arming := s.arming + [key]) else s'
    case Arm(i) =>
      s.(store := AfterExpire(s.store, s.arming[i], KEY_TTL_SECONDS, s.now), arming := Without(s.arming, i))
    case Drop(w) => s.(pending := Without(s.pending, w))
  }

  /** The steps are the methods cut at their awaits: an answer is `can_spend`, a count and its arming `spend`. */
  lemma AnswerIsCanSpend(m: Meter, s: State, i: nat)
    requires i < |s.asking| && m.limit > 0
    ensures
      var s', ask := Step(m, s, Answer(i)), s.asking[i];
      var key := m.calendar.name(ask.month);
      && s'.store == AfterGet(s.store, key, s.now) && s'.asking == Without(s.asking, i)
      && s'.pending == s.pending + if MaySpend(m.limit, m.ratio, UsedIn(s.store, key, s.now), ask.n) then [ask.n] else []
  {
  }

  lemma CountAndArmAreSpend(m: Meter, s: State, w: nat, n: nat, keyed: int)
    requires Enabled(m, s, Count(w, n, keyed))
    ensures
      var counted, key := Step(m, s, Count(w, n, keyed)), m.calendar.name(keyed);
      var arms := |counted.arming| > |s.arming|;
      && (arms ==> counted.arming == s.arming + [key])
      && AfterSpend(s.store, key, n, s.now, s.now)
         == if arms then Step(m, counted, Arm(|s.arming|)).store else counted.store
  {
  }

  predicate Possible(m: Meter, s: State, es: seq<Event>)
    decreases |es|
  {
    es == [] || (Enabled(m, s, es[0]) && Possible(m, Step(m, s, es[0]), es[1..]))
  }

  function Run(m: Meter, s: State, es: seq<Event>): State
    requires Possible(m, s, es)
    decreases |es|
  {
    if es == [] then s else Run(m, Step(m, s, es[0]), es[1..])
  }

  /** A meter nobody has used: an empty store, nobody waiting, the clock inside the month. */
  predicate Initial(m: Meter, s: State) {
    && s.store == map[] && s.asking == [] && s.pending == [] && s.arming == []
    && m.calendar.start(s.month) <= s.now < m.calendar.start(s.month + 1)
  }

  /** In every state of the run at most k workers are between check and spend, and none asks for more than `most`. */
  predicate AtMost(m: Meter, s: State, es: seq<Event>, k: nat, most: nat)
    requires Possible(m, s, es)
    decreases |es|
  {
    && |s.asking| + |s.pending| <= k
    && (es != [] ==>
          && (es[0].Ask? ==> es[0].n <= most)
          && AtMost(m, Step(m, s, es[0]), es[1..], k, most))
  }

  function Sum(xs: seq<nat>): nat {
    if xs == [] then 0 else xs[0] + Sum(xs[1..])
  }

  /** A month's counter, once written, cannot expire before the month is over. */
  ghost predicate RowsLast(m: Meter, store: Store, month: int) {
    forall p :: m.calendar.name(p) in store ==>
      var row := store[m.calendar.name(p)];
      && p <= month && row.value.Number? && row.value.n >= 0
      && (row.expiresAt.Some? ==> row.expiresAt.value >= m.calendar.start(p) + 35.0 * DAY)
  }

  ghost predicate IsMonthKey(m: Meter, key: string, month: int) {
    exists p :: p <= month && key == m.calendar.name(p)
  }

  ghost predicate RowsOutliveTheirMonth(m: Meter, s: State) {
    && m.calendar.start(s.month) <= s.now < m.calendar.start(s.month + 1)
    && RowsLast(m, s.store, s.month)
    && (forall i :: 0 <= i < |s.arming| ==> IsMonthKey(m, s.arming[i], s.month))
  }

  /** What k workers can add once the last of them was let through: (k - 1) * most. */
  function Overshoot(k: nat, most: nat): nat {
    if k == 0 then 0 else (k - 1) * most
  }

  /**
  What a worker inside `can_spend` may yet be granted beyond what the current month's count allows: its whole
  request, when the key it holds is not the current month's and the request fits the ceiling at all.
  */
  function Grant(ask: Asker, month: int, ceiling: int): nat {
    if ask.month != month && ask.n <= ceiling then ask.n else 0
  }

  function Grants(asking: seq<Asker>, month: int, ceiling: int): seq<nat> {
    seq(|asking|, i requires 0 <= i < |asking| => Grant(asking[i], month, ceiling))
  }

  /** All that workers between check and spend may still add, whatever the current count. */
  function Reserved(m: Meter, asking: seq<Asker>, pending: seq<nat>, month: int): seq<nat> {
    pending + Grants(asking, month, m.Ceiling())
  }

  /** The current count, with all that is reserved, stays in the overshoot. */
  ghost predicate Booked(m: Meter, used: int, asking: seq<Asker>, pending: seq<nat>, month: int, k: nat, most: nat) {
    && (forall i :: 0 <= i < |pending| ==> pending[i] <= most && pending[i] <= m.Ceiling())
    && (forall i :: 0 <= i < |asking| ==> asking[i].n <= most)
    && used + Sum(Reserved(m, asking, pending, month)) <= m.Ceiling() + Overshoot(k, most)
  }

  ghost predicate Inv(m: Meter, s: State, k: nat, most: nat) {
    RowsOutliveTheirMonth(m, s) && Booked(m, Used(m, s), s.asking, s.pending, s.month, k, most)
  }

  lemma {:induction false} SumAtMost(xs: seq<nat>, each: nat)
    requires forall i :: 0 <= i < |xs| ==> xs[i] <= each
    ensures Sum(xs) <= |xs| * each
  {
    if xs != [] {
      SumAtMost(xs[1..], each);
      assert |xs| * each == each + |xs[1..]| * each;
    }
  }

  lemma {:induction false} SumOfParts(xs: seq<nat>, ys: seq<nat>)
    ensures Sum(xs + ys) == Sum(xs) + Sum(ys)
  {
    if xs == [] {
      assert xs + ys == ys;
    } else {
      assert (xs + ys)[1..] == xs[1..] + ys;
      SumOfParts(xs[1..], ys);
    }
  }

  lemma SumAround(xs: seq<nat>, i: nat, x: nat)
    requires i < |xs|
    ensures Sum(xs[i := x]) == Sum(xs) - xs[i] + x
    ensures Sum(Without(xs, i)) == Sum(xs) - xs[i]
  {
    assert xs == xs[..i] + ([xs[i]] + xs[i + 1..]) && xs[i := x] == xs[..i] + ([x] + xs[i + 1..]);
    SumOfParts(xs[..i], [xs[i]] + xs[i + 1..]);
    SumOfParts(xs[..i], [x] + xs[i + 1..]);
    SumOfParts(xs[..i], xs[i + 1..]);
  }

  lemma {:induction false} MonthsInOrder(c: Calendar, p: int, q: int)
    requires IsCalendar(c) && p <= q
    ensures c.start(p) <= c.start(q)
    decreases q - p
  {
    if p < q {
      MonthsInOrder(c, p, q - 1);
      assert c.start(q - 1) < c.start(q - 1 + 1);
    }
  }

  lemma CeilingNotNegative(m: Meter)
    requires m.Valid()
    ensures m.Ceiling() >= 0
  {
    assert m.limit as real * m.ratio >= 0.0;
  }

  /** Inside its month the counter is live, so `used` reads exactly what was counted. */
  lemma CurrentRowIsLive(m: Meter, s: State)
    requires m.Valid() && RowsOutliveTheirMonth(m, s)
    ensures Used(m, s) >= 0 && AfterGet(s.store, Key(m, s), s.now) == s.store
    ensures Key(m, s) in s.store ==> Live(s.store[Key(m, s)], s.now) && Used(m, s) == s.store[Key(m, s)].value.n
  {
    assert m.calendar.start(s.month + 1) <= m.calendar.start(s.month) + 31.0 * DAY;
  }

  lemma TickKeepsRows(m: Meter, s: State, to: Time, month: int)
    requires m.Valid() && RowsOutliveTheirMonth(m, s) && Enabled(m, s, Tick(to, month))
    ensures s.month <= month && RowsOutliveTheirMonth(m, s.(now := to, month := month))
  {
    if month < s.month {
      MonthsInOrder(m.calendar, month + 1, s.month);
    }
    forall i | 0 <= i < |s.arming| ensures IsMonthKey(m, s.arming[i], month) {
      var p :| p <= s.month && s.arming[i] == m.calendar.name(p);
    }
  }

  /** A new month starts from zero; within a month time does not change the count. */
  lemma TickCounts(m: Meter, s: State, to: Time, month: int)
    requires m.Valid() && RowsOutliveTheirMonth(m, s) && Enabled(m, s, Tick(to, month))
    ensures Used(m, s.(now := to, month := month)) == if month == s.month then Used(m, s) else 0
  {
    TickKeepsRows(m, s, to, month);
    CurrentRowIsLive(m, s);
    CurrentRowIsLive(m, s.(now := to, month := month));
  }

  lemma CountKeepsRows(m: Meter, s: State, w: nat, n: nat, keyed: int)
    requires m.Valid() && RowsOutliveTheirMonth(m, s) && Enabled(m, s, Count(w, n, keyed))
    ensures RowsOutliveTheirMonth(m, Step(m, s, Count(w, n, keyed)))
    ensures Used(m, Step(m, s, Count(w, n, keyed))) == Used(m, s) + if keyed == s.month then n else 0
  {
    CurrentRowIsLive(m, s);
    var s' := Step(m, s, Count(w, n, keyed));
    forall i | 0 <= i < |s'.arming| ensures IsMonthKey(m, s'.arming[i], s.month) {
      if i < |s.arming| {
        assert s'.arming[i] == s.arming[i];
      }
    }
    CurrentRowIsLive(m, s');
  }

  /** The GET of `can_spend` changes no live counter, whatever month's key it reads. */
  lemma GetKeepsRows(m: Meter, s: State, p: int)
    requires m.Valid() && RowsOutliveTheirMonth(m, s)
    ensures
      var s' := s.(store := AfterGet(s.store, m.calendar.name(p), s.now));
      RowsOutliveTheirMonth(m, s') && Used(m, s') == Used(m, s)
    ensures UsedIn(s.store, m.calendar.name(p), s.now) >= 0
  {
    CurrentRowIsLive(m, s);
  }

  lemma ExpireKeepsRows(m: Meter, store: Store, key: string, now: Time, month: int)
    requires m.Valid() && RowsLast(m, store, month) && IsMonthKey(m, key, month) && m.calendar.start(month) <= now
    ensures RowsLast(m, AfterExpire(store, key, KEY_TTL_SECONDS, now), month)
  {
    var p :| p <= month && key == m.calendar.name(p);
    MonthsInOrder(m.calendar, p, month);
  }

  lemma ArmKeepsRows(m: Meter, s: State, i: nat)
    requires m.Valid() && RowsOutliveTheirMonth(m, s) && Enabled(m, s, Arm(i))
    ensures RowsOutliveTheirMonth(m, Step(m, s, Arm(i)))
    ensures Used(m, Step(m, s, Arm(i))) == Used(m, s)
  {
    var s' := Step(m, s, Arm(i));
    ExpireKeepsRows(m, s.store, s.arming[i], s.now, s.month);
    assert forall j :: 0 <= j < |s'.arming| ==> s'.arming[j] == s.arming[if j < i then j else j + 1];
    CurrentRowIsLive(m, s);
    CurrentRowIsLive(m, s');
  }

  /** Everyone who was already waiting fits in the overshoot. */
  lemma OthersFit(others: seq<nat>, k: nat, most: nat)
    requires |others| < k
    requires forall i :: 0 <= i < |others| ==> others[i] <= most
    ensures Sum(others) <= Overshoot(k, most)
  {
    SumAtMost(others, most);
    MulOrder(|others|, k - 1, most);
  }

  lemma MulOrder(a: int, b: int, each: nat)
    requires a <= b
    ensures a * each <= b * each
  {
  }

  /** Workers let through in one month may all spend in the next one: the bound still holds. */
  lemma FreshMonthFits(m: Meter, pending: seq<nat>, k: nat, most: nat)
    requires |pending| <= k && m.Ceiling() >= 0
    requires forall i :: 0 <= i < |pending| ==> pending[i] <= most && pending[i] <= m.Ceiling()
    ensures Sum(pending) <= m.Ceiling() + Overshoot(k, most)
  {
    if pending != [] {
      OthersFit(pending[1..], k, most);
    }
  }

  /** Who is reserved how much: the workers let through, then those still asking. */
  lemma ReservedParts(m: Meter, asking: seq<Asker>, pending: seq<nat>, month: int)
    ensures Sum(Reserved(m, asking, pending, month)) == Sum(pending) + Sum(Grants(asking, month, m.Ceiling()))
  {
    SumOfParts(pending, Grants(asking, month, m.Ceiling()));
  }

  lemma AskBooked(m: Meter, used: int, asking: seq<Asker>, pending: seq<nat>, month: int, n: nat, k: nat, most: nat)
    requires Booked(m, used, asking, pending, month, k, most) && n <= most
    ensures Booked(m, used, asking + [Asker(n, month)], pending, month, k, most)
  {
    var more := asking + [Asker(n, month)];
    assert Reserved(m, more, pending, month) == Reserved(m, asking, pending, month) + [0];
    SumOfParts(Reserved(m, asking, pending, month), [0]);
    assert more[..|asking|] == asking;
  }

  lemma WithoutAsker(m: Meter, asking: seq<Asker>, i: nat, month: int)
    requires i < |asking|
    ensures Sum(Grants(Without(asking, i), month, m.Ceiling()))
         == Sum(Grants(asking, month, m.Ceiling())) - Grant(asking[i], month, m.Ceiling())
    ensures forall j :: 0 <= j < |asking| - 1 ==> Without(asking, i)[j] == asking[if j < i then j else j + 1]
  {
    var grants := Grants(asking, month, m.Ceiling());
    assert Grants(Without(asking, i), month, m.Ceiling()) == Without(grants, i);
    SumAround(grants, i, 0);
  }

  /** An answer of no: the worker leaves. */
  lemma RefusalBooked(m: Meter, used: int, asking: seq<Asker>, pending: seq<nat>, month: int, i: nat, k: nat, most: nat)
    requires Booked(m, used, asking, pending, month, k, most) && i < |asking|
    ensures Booked(m, used, Without(asking, i), pending, month, k, most)
  {
    WithoutAsker(m, asking, i, month);
    ReservedParts(m, asking, pending, month);
    ReservedParts(m, Without(asking, i), pending, month);
  }

  /** An answer of yes: what is granted was reserved, or fits under the ceiling with all the others beside it. */
  lemma GrantBooked(m: Meter, used: int, asking: seq<Asker>, pending: seq<nat>, month: int, i: nat, k: nat, most: nat)
    requires Booked(m, used, asking, pending, month, k, most) && i < |asking| && |asking| + |pending| <= k
    requires asking[i].n <= m.Ceiling() && (asking[i].month == month ==> used + asking[i].n <= m.Ceiling())
    ensures Booked(m, used, Without(asking, i), pending + [asking[i].n], month, k, most)
  {
    var others, n := Without(asking, i), asking[i].n;
    RefusalBooked(m, used, asking, pending, month, i, k, most);
    WithoutAsker(m, asking, i, month);
    ReservedParts(m, asking, pending, month);
    ReservedParts(m, others, pending, month);
    ReservedParts(m, others, pending + [n], month);
    SumOfParts(pending, [n]);
    OthersFit(Reserved(m, others, pending, month), k, most);
  }

  lemma CountBooked(m: Meter, used: int, asking: seq<Asker>, pending: seq<nat>, month: int, w: nat, n: nat, k: nat, most: nat)
    requires Booked(m, used, asking, pending, month, k, most) && w < |pending| && n <= pending[w]
    ensures Booked(m, used + n, asking, pending[w := pending[w] - n], month, k, most)
  {
    SumAround(pending, w, pending[w] - n);
    ReservedParts(m, asking, pending, month);
    ReservedParts(m, asking, pending[w := pending[w] - n], month);
  }

  lemma DropBooked(m: Meter, used: int, asking: seq<Asker>, pending: seq<nat>, month: int, w: nat, k: nat, most: nat)
    requires Booked(m, used, asking, pending, month, k, most) && w < |pending|
    ensures Booked(m, used, asking, Without(pending, w), month, k, most)
  {
    SumAround(pending, w, 0);
    var rest := Without(pending, w);
    ReservedParts(m, asking, pending, month);
    ReservedParts(m, asking, rest, month);
    assert forall j :: 0 <= j < |rest| ==> rest[j] == pending[if j < w then j else j + 1];
  }

  lemma RolloverBooked(m: Meter, used: int, asking: seq<Asker>, pending: seq<nat>, month: int, next: int, k: nat, most: nat)
    requires m.Valid() && Booked(m, used, asking, pending, month, k, most) && |asking| + |pending| <= k
    ensures Booked(m, 0, asking, pending, next, k, most)
  {
    CeilingNotNegative(m);
    FreshMonthFits(m, Reserved(m, asking, pending, next), k, most);
  }

  lemma AnswerKeepsInv(m: Meter, s: State, i: nat, k: nat, most: nat)
    requires m.Valid() && Inv(m, s, k, most) && i < |s.asking| && |s.asking| + |s.pending| <= k
    ensures Inv(m, Step(m, s, Answer(i)), k, most)
  {
    var ask := s.asking[i];
    var used := UsedIn(s.store, m.calendar.name(ask.month), s.now);
    GetKeepsRows(m, s, ask.month);
    if MaySpend(m.limit, m.ratio, used, ask.n) {
      GrantBooked(m, Used(m, s), s.asking, s.pending, s.month, i, k, most);
    } else {
      RefusalBooked(m, Used(m, s), s.asking, s.pending, s.month, i, k, most);
    }
  }

  lemma CountKeepsInv(m: Meter, s: State, w: nat, n: nat, keyed: int, k: nat, most: nat)
    requires m.Valid() && Inv(m, s, k, most) && Enabled(m, s, Count(w, n, keyed))
    ensures Inv(m, Step(m, s, Count(w, n, keyed)), k, most)
  {
    CountKeepsRows(m, s, w, n, keyed);
    CountBooked(m, Used(m, s), s.asking, s.pending, s.month, w, n, k, most);
  }

  lemma TickKeepsInv(m: Meter, s: State, to: Time, month: int, k: nat, most: nat)
    requires m.Valid() && Inv(m, s, k, most) && Enabled(m, s, Tick(to, month)) && |s.asking| + |s.pending| <= k
    ensures Inv(m, Step(m, s, Tick(to, month)), k, most)
  {
    TickKeepsRows(m, s, to, month);
    TickCounts(m, s, to, month);
    RolloverBooked(m, Used(m, s), s.asking, s.pending, s.month, month, k, most);
  }

  lemma StepKeepsInv(m: Meter, s: State, e: Event, k: nat, most: nat)
    requires m.Valid() && Inv(m, s, k, most) && Enabled(m, s, e)
    requires |s.asking| + |s.pending| <= k && (e.Ask? ==> e.n <= most)
    ensures Inv(m, Step(m, s, e), k, most)
  {
    match e {
      case Tick(to, month) => TickKeepsInv(m, s, to, month, k, most);
      case Ask(n) => AskBooked(m, Used(m, s), s.asking, s.pending, s.month, n, k, most);
      case Answer(i) => AnswerKeepsInv(m, s, i, k, most);
      case Count(w, n, keyed) => CountKeepsInv(m, s, w, n, keyed, k, most);
      case Arm(i) => ArmKeepsRows(m, s, i);
      case Drop(w) => DropBooked(m, Used(m, s), s.asking, s.pending, s.month, w, k, most);
    }
  }

  lemma {:induction false} RunKeepsInv(m: Meter, s: State, es: seq<Event>, k: nat, most: nat)
    requires m.Valid() && Inv(m, s, k, most) && Possible(m, s, es) && AtMost(m, s, es, k, most)
    ensures Inv(m, Run(m, s, es), k, most)
    decreases |es|
  {
    if es != [] {
      StepKeepsInv(m, s, es[0], k, most);
      RunKeepsInv(m, Step(m, s, es[0]), es[1..], k, most);
    }
  }

  /**
  The overshoot bound. With at most k >= 1 workers between `can_spend` and `spend`, none asking for
  more than `most`, no interleaving of any length, over any number of months, takes the current
  month's count past the soft ceiling by more than (k - 1) * most. So the provider's hard limit holds
  whenever that fits in the headroom.
  */
  lemma OvershootIsBounded(m: Meter, s: State, es: seq<Event>, k: nat, most: nat)
    requires m.Valid() && Initial(m, s) && k >= 1
    requires Possible(m, s, es) && AtMost(m, s, es, k, most)
    ensures Used(m, Run(m, s, es)) <= m.Ceiling() + (k - 1) * most
    ensures (k - 1) * most <= m.limit - m.Ceiling() ==> Used(m, Run(m, s, es)) <= m.limit
  {
    CeilingNotNegative(m);
    RunKeepsInv(m, s, es, k, most);
  }

  // ---- The bound is reached ----------------------------------------------------------------

  /** k workers all let through at `ceiling - most` overshoot by exactly (k - 1) * most. */
  lemma OvershootIsReached(m: Meter, s: State, k: nat, most: nat)
    requires m.Valid() && RowsOutliveTheirMonth(m, s) && k >= 1
    requires s.asking == [] && s.pending == [] && Used(m, s) + most == m.Ceiling()
    ensures exists es ::
      && Possible(m, s, es) && AtMost(m, s, es, k, most)
      && Used(m, Run(m, s, es)) == m.Ceiling() + Overshoot(k, most)
  {
    var asks := AllAsk(m, s, k, k, most);
    var asked := Run(m, s, asks);
    var counts := AllCount(m, asked, k, k, most);
    RunInTwo(m, s, asks, counts, k, most);
    ProductIsOvershoot(k, most);
  }

  lemma {:induction false} RunInTwo(m: Meter, s: State, xs: seq<Event>, ys: seq<Event>, k: nat, most: nat)
    requires Possible(m, s, xs) && AtMost(m, s, xs, k, most)
    requires Possible(m, Run(m, s, xs), ys) && AtMost(m, Run(m, s, xs), ys, k, most)
    ensures Possible(m, s, xs + ys) && AtMost(m, s, xs + ys, k, most)
    ensures Run(m, s, xs + ys) == Run(m, Run(m, s, xs), ys)
    decreases |xs|
  {
    if xs == [] {
      assert xs + ys == ys;
    } else {
      assert (xs + ys)[1..] == xs[1..] + ys;
      RunInTwo(m, Step(m, s, xs[0]), xs[1..], ys, k, most);
    }
  }

  /** A worker asks and is let through. */
  lemma AskThen(m: Meter, s: State, rest: seq<Event>, k: nat, most: nat)
    requires m.Valid() && RowsOutliveTheirMonth(m, s)
    requires s.asking == [] && Used(m, s) + most <= m.Ceiling() && |s.pending| < k
    requires
      var next := s.(pending := s.pending + [most]);
      Possible(m, next, rest) && AtMost(m, next, rest, k, most)
    ensures
      var es := [Ask(most)] + ([Answer(0)] + rest);
      && Possible(m, s, es) && AtMost(m, s, es, k, most)
      && Run(m, s, es) == Run(m, s.(pending := s.pending + [most]), rest)
  {
    CurrentRowIsLive(m, s);
    var asked := Step(m, s, Ask(most));
    assert asked.asking == [Asker(most, s.month)];
    var next := Step(m, asked, Answer(0));
    assert next.asking == s.asking;
    assert next == s.(pending := s.pending + [most]);
    RunCons(m, asked, Answer(0), rest, k, most);
    RunCons(m, s, Ask(most), [Answer(0)] + rest, k, most);
  }

  lemma AllAsk(m: Meter, s: State, times: nat, k: nat, most: nat) returns (es: seq<Event>)
    requires m.Valid() && RowsOutliveTheirMonth(m, s)
    requires s.asking == [] && Used(m, s) + most <= m.Ceiling() && |s.pending| + times <= k
    ensures Possible(m, s, es) && AtMost(m, s, es, k, most)
    ensures Run(m, s, es) == s.(pending := s.pending + seq(times, _ => most))
    decreases times
  {
    if times == 0 {
      assert s.pending + seq(0, _ => most) == s.pending;
      return [];
    }
    var next := s.(pending := s.pending + [most]);
    var rest := AllAsk(m, next, times - 1, k, most);
    AskThen(m, s, rest, k, most);
    es := [Ask(most)] + ([Answer(0)] + rest);
    assert s.pending + [most] + seq(times - 1, _ => most) == s.pending + seq(times, _ => most);
  }

  lemma RunCons(m: Meter, s: State, e: Event, rest: seq<Event>, k: nat, most: nat)
    requires Enabled(m, s, e) && Possible(m, Step(m, s, e), rest)
    requires AtMost(m, Step(m, s, e), rest, k, most) && |s.asking| + |s.pending| <= k && (e.Ask? ==> e.n <= most)
    ensures Possible(m, s, [e] + rest) && AtMost(m, s, [e] + rest, k, most)
    ensures Run(m, s, [e] + rest) == Run(m, Step(m, s, e), rest)
  {
    assert ([e] + rest)[1..] == rest;
  }

  /** One worker spends n of what it may: the step before `rest`. */
  lemma CountThen(m: Meter, s: State, w: nat, n: nat, rest: seq<Event>, k: nat, added: nat)
    requires m.Valid() && RowsOutliveTheirMonth(m, s) && s.asking == [] && w < |s.pending| <= k && s.pending[w] == n
    requires
      var next := Step(m, s, Count(w, n, s.month));
      && Possible(m, next, rest) && AtMost(m, next, rest, k, n)
      && Used(m, Run(m, next, rest)) == Used(m, next) + added
    ensures
      var es := [Count(w, n, s.month)] + rest;
      && Possible(m, s, es) && AtMost(m, s, es, k, n) && Used(m, Run(m, s, es)) == Used(m, s) + added + n
  {
    RunCons(m, s, Count(w, n, s.month), rest, k, n);
    CountKeepsRows(m, s, w, n, s.month);
  }

  /** The first `times` workers may each spend n. */
  ghost predicate Ready(m: Meter, s: State, times: nat, k: nat, n: nat) {
    RowsOutliveTheirMonth(m, s) && s.asking == [] && times <= |s.pending| <= k && forall i :: 0 <= i < times ==> s.pending[i] == n
  }

  lemma CountLeavesReady(m: Meter, s: State, times: nat, k: nat, n: nat)
    requires m.Valid() && times > 0 && Ready(m, s, times, k, n)
    ensures Enabled(m, s, Count(times - 1, n, s.month))
    ensures Ready(m, Step(m, s, Count(times - 1, n, s.month)), times - 1, k, n)
  {
    CountKeepsRows(m, s, times - 1, n, s.month);
  }

  /** They spend it one after the other. */
  lemma AllCount(m: Meter, s: State, times: nat, k: nat, n: nat) returns (es: seq<Event>)
    requires m.Valid() && Ready(m, s, times, k, n)
    ensures Possible(m, s, es) && AtMost(m, s, es, k, n)
    ensures Used(m, Run(m, s, es)) == Used(m, s) + Product(times, n)
    decreases times
  {
    if times == 0 {
      return [];
    }
    CountLeavesReady(m, s, times, k, n);
    var rest := AllCount(m, Step(m, s, Count(times - 1, n, s.month)), times - 1, k, n);
    CountThen(m, s, times - 1, n, rest, k, Product(times - 1, n));
    es := [Count(times - 1, n, s.month)] + rest;
  }

  function Product(times: nat, n: nat): nat {
    if times == 0 then 0 else n + Product(times - 1, n)
  }

  lemma {:induction false} ProductIsOvershoot(times: nat, n: nat)
    ensures times > 0 ==> Product(times, n) == Overshoot(times, n) + n
  {
    if times > 1 {
      ProductIsOvershoot(times - 1, n);
      assert (times - 1) * n == (times - 2) * n + n;
    }
  }
}
