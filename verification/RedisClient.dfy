/**
The in-process Redis stand-in of app/platform/redis_client.py.

Rows whose expiry has passed stay in the dict until a `get` happens to meet them.
The model keeps those dead rows, and compares the store with an ideal one whose keys
vanish at expiry. Every command reads the clock once.
*/
module RedisClient {
  import opened Wrappers

  /** A stored text: `Number(n)` when Python's `int()` reads it as n, else `Text`. */
  datatype Value = Number(n: int) | Text(s: string)

  datatype Row = Row(value: Value, expiresAt: Option<Time>)

  type Store = map<string, Row>

  predicate Live(row: Row, now: Time) {
    row.expiresAt.None? || now <= row.expiresAt.value
  }

  predicate Dead(store: Store, key: string, now: Time) {
    key in store && !Live(store[key], now)
  }

  /** The store an observer at `now` should see: the rows that have not expired. */
  function Visible(store: Store, now: Time): Store {
    map key | key in store && Live(store[key], now) :: store[key]
  }

  /** `ex` of `set`: no expiry when it is None and also when it is 0. */
  function Expiry(ex: Option<int>, now: Time): Option<Time> {
    if ex.Some? && ex.value != 0 then Some(now + ex.value as real) else None
  }

  function AsInt(value: Value): int {
    if value.Number? then value.n else 0
  }

  datatype Command =
    | Get(key: string)
    | Set(key: string, value: Value, ex: Option<int>, nx: bool)
    | IncrBy(key: string, amount: int)
    | Expire(key: string, seconds: int)
    | Ttl(key: string)
    | Delete(keys: seq<string>)

  datatype Reply =
    | Found(value: Option<Value>)
    | Stored(ok: bool)
    | Total(n: int)
    | Armed(ok: bool)
    | Remaining(seconds: int)
    | Removed(count: nat)

  // ---- What each command of the stand-in does to its dict -------------------------------

  function AfterGet(store: Store, key: string, now: Time): Store {
    if Dead(store, key, now) then store - {key} else store
  }

  function GetReply(store: Store, key: string, now: Time): Option<Value> {
    if key in store && Live(store[key], now) then Some(store[key].value) else None
  }

  predicate SetRefused(store: Store, key: string, nx: bool, now: Time) {
    nx && key in store && Live(store[key], now)
  }

  function AfterSet(store: Store, key: string, value: Value, ex: Option<int>, nx: bool, now: Time): Store {
    if SetRefused(store, key, nx, now) then store else store[key := Row(value, Expiry(ex, now))]
  }

  function IncrTotal(store: Store, key: string, amount: int, now: Time): int {
    (if key in store && Live(store[key], now) then AsInt(store[key].value) else 0) + amount
  }

  function AfterIncrBy(store: Store, key: string, amount: int, now: Time): Store {
    store[key := Row(Number(IncrTotal(store, key, amount, now)), if key in store then store[key].expiresAt else None)]
  }

  function AfterExpire(store: Store, key: string, seconds: int, now: Time): Store {
    if key in store then store[key := store[key].(expiresAt := Some(now + seconds as real))] else store
  }

  function TtlReply(store: Store, key: string, now: Time): int {
    if key !in store then -2
    else if store[key].expiresAt.None? then -1
    else
      var left := (store[key].expiresAt.value - now).Floor;
      if left < 0 then 0 else left
  }

  function KeySet(keys: seq<string>): set<string> {
    set key | key in keys
  }

  function Exec(store: Store, c: Command, now: Time): (Store, Reply) {
    match c
    case Get(key) => (AfterGet(store, key, now), Found(GetReply(store, key, now)))
    case Set(key, value, ex, nx) =>
      (AfterSet(store, key, value, ex, nx, now), Stored(!SetRefused(store, key, nx, now)))
    case IncrBy(key, amount) => (AfterIncrBy(store, key, amount, now), Total(IncrTotal(store, key, amount, now)))
    case Expire(key, seconds) => (AfterExpire(store, key, seconds, now), Armed(key in store))
    case Ttl(key) => (store, Remaining(TtlReply(store, key, now)))
    case Delete(keys) => (store - KeySet(keys), Removed(|KeySet(keys) * store.Keys|))
  }

  // ---- The ideal store: every row it holds is live, so no command tests an expiry --------

  function Ideal(store: Store, c: Command, now: Time): (Store, Reply) {
    match c
    case Get(key) => (store, Found(if key in store then Some(store[key].value) else None))
    case Set(key, value, ex, nx) =>
      if nx && key in store then (store, Stored(false))
      else (Visible(store[key := Row(value, Expiry(ex, now))], now), Stored(true))
    case IncrBy(key, amount) =>
      var row := if key in store then store[key] else Row(Number(0), None);
      var total := AsInt(row.value) + amount;
      (store[key := row.(value := Number(total))], Total(total))
    case Expire(key, seconds) =>
      if key !in store then (store, Armed(false))
      else (Visible(store[key := store[key].(expiresAt := Some(now + seconds as real))], now), Armed(true))
    case Ttl(key) =>
      (store, Remaining(
         if key !in store then -2
         else if store[key].expiresAt.None? then -1
         else (store[key].expiresAt.value - now).Floor))
    case Delete(keys) => (store - KeySet(keys), Removed(|store.Keys * KeySet(keys)|))
  }

  /** The commands that notice an expired row nothing has purged yet. */
  predicate MeetsDeadRow(store: Store, c: Command, now: Time) {
    match c
    case Get(_) => false
    case Set(_, _, _, _) => false
    case IncrBy(key, _) => Dead(store, key, now)
    case Expire(key, _) => Dead(store, key, now)
    case Ttl(key) => Dead(store, key, now)
    case Delete(keys) => exists key :: key in keys && Dead(store, key, now)
  }

  lemma IncrByAgreesIff(store: Store, key: string, amount: int, now: Time)
    ensures IncrTotal(store, key, amount, now) == Ideal(Visible(store, now), Command.IncrBy(key, amount), now).1.n
    ensures Visible(AfterIncrBy(store, key, amount, now), now) == Ideal(Visible(store, now), Command.IncrBy(key, amount), now).0
       <==> !Dead(store, key, now)
  {
    var after, ideal := AfterIncrBy(store, key, amount, now), Ideal(Visible(store, now), Command.IncrBy(key, amount), now).0;
    if Dead(store, key, now) {
      assert key in ideal && key !in Visible(after, now);
    } else {
      assert Visible(after, now) == ideal;
    }
  }

  /** An increment goes on from a live number, and from 0 when the live text is no number or no live row is there. */
  lemma IncrementsGoOn(store: Store, key: string, amount: int, now: Time)
    ensures
      IncrTotal(store, key, amount, now)
      == match GetReply(store, key, now)
         case Some(Number(n)) => n + amount
         case _ => amount
  {
  }

  lemma ExpireAgrees(store: Store, key: string, seconds: int, now: Time)
    requires !Dead(store, key, now)
    ensures Visible(AfterExpire(store, key, seconds, now), now)
         == Ideal(Visible(store, now), Command.Expire(key, seconds), now).0
  {
  }

  lemma ExpireAgreesIff(store: Store, key: string, seconds: int, now: Time)
    ensures
      var after, ideal := AfterExpire(store, key, seconds, now), Ideal(Visible(store, now), Command.Expire(key, seconds), now);
      Visible(after, now) == ideal.0 && Armed(key in store) == ideal.1 <==> !Dead(store, key, now)
  {
    if !Dead(store, key, now) {
      ExpireAgrees(store, key, seconds, now);
    }
  }

  lemma TtlAgreesIff(store: Store, key: string, now: Time)
    ensures Remaining(TtlReply(store, key, now)) == Ideal(Visible(store, now), Command.Ttl(key), now).1 <==> !Dead(store, key, now)
  {
  }

  lemma SetAgrees(store: Store, key: string, value: Value, ex: Option<int>, nx: bool, now: Time)
    ensures Visible(AfterSet(store, key, value, ex, nx, now), now)
         == Ideal(Visible(store, now), Command.Set(key, value, ex, nx), now).0
  {
  }

  /**
  One command, exactly: the stand-in answers and ends up like the ideal store if and only if
  the command does not meet a dead row. `get`, `set`, `setex` and NX therefore always agree.
  */
  lemma CommandAgreesIff(store: Store, c: Command, now: Time)
    ensures
      var (after, reply) := Exec(store, c, now);
      (Visible(after, now), reply) == Ideal(Visible(store, now), c, now) <==> !MeetsDeadRow(store, c, now)
  {
    match c {
      case Get(key) => assert Visible(AfterGet(store, key, now), now) == Visible(store, now);
      case Set(key, value, ex, nx) => SetAgrees(store, key, value, ex, nx, now);
      case IncrBy(key, amount) => IncrByAgreesIff(store, key, amount, now);
      case Expire(key, seconds) => ExpireAgreesIff(store, key, seconds, now);
      case Ttl(key) => TtlAgreesIff(store, key, now);
      case Delete(keys) =>
        DeleteAgrees(store, keys, now);
        DeleteCount(store, keys, now);
    }
  }

  lemma DeleteAgrees(store: Store, keys: seq<string>, now: Time)
    ensures Visible(store - KeySet(keys), now) == Visible(store, now) - KeySet(keys)
  {
  }

  /** `delete` counts dead rows: its count is the ideal one exactly when it removes none of them. */
  lemma DeleteCount(store: Store, keys: seq<string>, now: Time)
    ensures |KeySet(keys) * store.Keys| == |Visible(store, now).Keys * KeySet(keys)|
            <==> !MeetsDeadRow(store, Delete(keys), now)
  {
    var dead := set key | key in KeySet(keys) && Dead(store, key, now);
    DeleteSplits(store, KeySet(keys), dead, now);
    SplitCount(KeySet(keys) * store.Keys, Visible(store, now).Keys * KeySet(keys), dead);
    assert MeetsDeadRow(store, Delete(keys), now) <==> dead != {} by {
      if key :| key in keys && Dead(store, key, now) {
        assert key in dead;
      }
    }
  }

  lemma DeleteSplits(store: Store, names: set<string>, dead: set<string>, now: Time)
    requires forall key :: key in dead <==> key in names && Dead(store, key, now)
    ensures names * store.Keys == Visible(store, now).Keys * names + dead
    ensures Visible(store, now).Keys * names !! dead
  {
  }

  lemma SplitCount(all: set<string>, live: set<string>, dead: set<string>)
    requires all == live + dead && live !! dead
    ensures |all| == |live| <==> dead == {}
  {
    assert |all| == |live| + |dead|;
  }

  /** Time alone never makes the two stores differ. */
  lemma VisibleLater(store: Store, now: Time, later: Time)
    requires now <= later
    ensures Visible(Visible(store, now), later) == Visible(store, later)
  {
  }

  // ---- Whole runs ----------------------------------------------------------------------

  datatype Call = Call(command: Command, at: Time)

  ghost predicate InTimeOrder(calls: seq<Call>, from: Time) {
    forall i :: 0 <= i < |calls| ==> from <= calls[i].at && forall j :: 0 <= j < i ==> calls[j].at <= calls[i].at
  }

  function Replies(store: Store, calls: seq<Call>): seq<Reply>
    decreases |calls|
  {
    if calls == [] then []
    else
      var (after, reply) := Exec(store, calls[0].command, calls[0].at);
      [reply] + Replies(after, calls[1..])
  }

  function IdealReplies(store: Store, calls: seq<Call>): seq<Reply>
    decreases |calls|
  {
    if calls == [] then []
    else
      var (after, reply) := Ideal(Visible(store, calls[0].at), calls[0].command, calls[0].at);
      [reply] + IdealReplies(after, calls[1..])
  }

  /** Equal answers, except that the count a `delete` returns is left out. */
  predicate SameAnswer(a: Reply, b: Reply) {
    a == b || (a.Removed? && b.Removed?)
  }

  /** Every `incrby`, `expire` and `ttl` of the run finds its key either absent or live. */
  predicate CountersAvoidDeadRows(store: Store, calls: seq<Call>)
    decreases |calls|
  {
    calls != [] ==>
      && (calls[0].command.Delete? || !MeetsDeadRow(store, calls[0].command, calls[0].at))
      && CountersAvoidDeadRows(Exec(store, calls[0].command, calls[0].at).0, calls[1..])
  }

  /** No `delete` of the run removes a row that has expired. */
  predicate DeletesAvoidDeadRows(store: Store, calls: seq<Call>)
    decreases |calls|
  {
    calls != [] ==>
      && (calls[0].command.Delete? ==> !MeetsDeadRow(store, calls[0].command, calls[0].at))
      && DeletesAvoidDeadRows(Exec(store, calls[0].command, calls[0].at).0, calls[1..])
  }

  lemma SameFirstReply(a: Reply, as': seq<Reply>, b: Reply, bs: seq<Reply>)
    ensures [a] + as' == [b] + bs <==> a == b && as' == bs
  {
    if [a] + as' == [b] + bs {
      assert ([a] + as')[0] == a && ([b] + bs)[0] == b && ([a] + as')[1..] == as' && ([b] + bs)[1..] == bs;
    }
  }

  lemma CommandAgrees(store: Store, c: Command, now: Time)
    requires c.Delete? || !MeetsDeadRow(store, c, now)
    ensures Visible(Exec(store, c, now).0, now) == Ideal(Visible(store, now), c, now).0
    ensures SameAnswer(Exec(store, c, now).1, Ideal(Visible(store, now), c, now).1)
    ensures Exec(store, c, now).1 == Ideal(Visible(store, now), c, now).1 <==> (c.Delete? ==> !MeetsDeadRow(store, c, now))
  {
    CommandAgreesIff(store, c, now);
    if c.Delete? {
      DeleteAgrees(store, c.keys, now);
    }
  }

  lemma {:induction false} RunAnswersAlike(store: Store, ideal: Store, calls: seq<Call>, now: Time)
    requires InTimeOrder(calls, now)
    requires Visible(store, now) == Visible(ideal, now)
    requires CountersAvoidDeadRows(store, calls)
    ensures |Replies(store, calls)| == |IdealReplies(ideal, calls)| == |calls|
    ensures forall i :: 0 <= i < |calls| ==> SameAnswer(Replies(store, calls)[i], IdealReplies(ideal, calls)[i])
    decreases |calls|
  {
    if calls != [] {
      var t := calls[0].at;
      var after, reply, ideal', idealReply := StepRefinesIdeal(store, ideal, calls[0].command, now, t);
      RunAnswersAlike(after, ideal', calls[1..], t);
      assert Replies(store, calls) == [reply] + Replies(after, calls[1..]);
      assert IdealReplies(ideal, calls) == [idealReply] + IdealReplies(ideal', calls[1..]);
    }
  }

  lemma {:induction false} RunRepliesIff(store: Store, ideal: Store, calls: seq<Call>, now: Time)
    requires InTimeOrder(calls, now)
    requires Visible(store, now) == Visible(ideal, now)
    requires CountersAvoidDeadRows(store, calls)
    ensures Replies(store, calls) == IdealReplies(ideal, calls) <==> DeletesAvoidDeadRows(store, calls)
    decreases |calls|
  {
    if calls != [] {
      var t := calls[0].at;
      var after, reply, ideal', idealReply := StepRefinesIdeal(store, ideal, calls[0].command, now, t);
      RunRepliesIff(after, ideal', calls[1..], t);
      assert Replies(store, calls) == [reply] + Replies(after, calls[1..]);
      assert IdealReplies(ideal, calls) == [idealReply] + IdealReplies(ideal', calls[1..]);
      SameFirstReply(reply, Replies(after, calls[1..]), idealReply, IdealReplies(ideal', calls[1..]));
    }
  }

  /**
  Refinement over whole runs: under a clock that never goes back, a caller cannot tell the lazily
  purged store from the ideal one, for every run in which no counter command meets a dead row, but for the
  counts of its deletes; and those are the same too if and only if no delete removes a dead row.
  */
  lemma {:induction false} RunRefinesIdeal(store: Store, ideal: Store, calls: seq<Call>, now: Time)
    requires InTimeOrder(calls, now)
    requires Visible(store, now) == Visible(ideal, now)
    requires CountersAvoidDeadRows(store, calls)
    ensures |Replies(store, calls)| == |IdealReplies(ideal, calls)| == |calls|
    ensures forall i :: 0 <= i < |calls| ==> SameAnswer(Replies(store, calls)[i], IdealReplies(ideal, calls)[i])
    ensures Replies(store, calls) == IdealReplies(ideal, calls) <==> DeletesAvoidDeadRows(store, calls)
  {
    RunAnswersAlike(store, ideal, calls, now);
    RunRepliesIff(store, ideal, calls, now);
  }

  lemma StepRefinesIdeal(store: Store, ideal: Store, c: Command, now: Time, t: Time)
      returns (after: Store, reply: Reply, ideal': Store, idealReply: Reply)
    requires now <= t && Visible(store, now) == Visible(ideal, now) && (c.Delete? || !MeetsDeadRow(store, c, t))
    ensures (after, reply) == Exec(store, c, t) && (ideal', idealReply) == Ideal(Visible(ideal, t), c, t)
    ensures Visible(after, t) == Visible(ideal', t) && SameAnswer(reply, idealReply)
    ensures reply == idealReply <==> (c.Delete? ==> !MeetsDeadRow(store, c, t))
  {
    VisibleLater(store, now, t);
    VisibleLater(ideal, now, t);
    CommandAgrees(store, c, t);
    after, reply := Exec(store, c, t).0, Exec(store, c, t).1;
    ideal', idealReply := Ideal(Visible(ideal, t), c, t).0, Ideal(Visible(ideal, t), c, t).1;
    VisibleLater(after, t, t);
  }

  /** Runs of `get`, `set`, `setex`, NX and `delete` need no hypothesis beyond the clock. */
  lemma {:induction false} KeyValueRunRefinesIdeal(calls: seq<Call>, now: Time)
    requires InTimeOrder(calls, now)
    requires forall i :: 0 <= i < |calls| ==> calls[i].command.Get? || calls[i].command.Set? || calls[i].command.Delete?
    ensures |Replies(map[], calls)| == |IdealReplies(map[], calls)| == |calls|
    ensures forall i :: 0 <= i < |calls| ==> SameAnswer(Replies(map[], calls)[i], IdealReplies(map[], calls)[i])
    ensures Replies(map[], calls) == IdealReplies(map[], calls) <==> DeletesAvoidDeadRows(map[], calls)
  {
    KeyValueRunsAvoidDeadRows(map[], calls);
    RunRefinesIdeal(map[], map[], calls, now);
  }

  lemma {:induction false} KeyValueRunsAvoidDeadRows(store: Store, calls: seq<Call>)
    requires forall i :: 0 <= i < |calls| ==> calls[i].command.Get? || calls[i].command.Set? || calls[i].command.Delete?
    ensures CountersAvoidDeadRows(store, calls)
    decreases |calls|
  {
    if calls != [] {
      KeyValueRunsAvoidDeadRows(Exec(store, calls[0].command, calls[0].at).0, calls[1..]);
    }
  }

  // ---- The class -------------------------------------------------------------------------

  class InMemoryRedis {
    var store: Store

    constructor ()
      ensures store == map[]
    {
      store := map[];
    }

    method Get(key: string, now: Time) returns (value: Option<Value>)
      modifies this
      ensures (store, Found(value)) == Exec(old(store), Command.Get(key), now)
    {
      value := None;
      if key in store {
        var row := store[key];
        if row.expiresAt.Some? && now > row.expiresAt.value {
          store := store - {key};
          return;
        }
        value := Some(row.value);
      }
    }

    /** NX succeeds exactly when a `get` at the same moment would have returned None. */
    method Set(key: string, value: Value, ex: Option<int>, nx: bool, now: Time) returns (ok: bool)
      modifies this
      ensures (store, Stored(ok)) == Exec(old(store), Command.Set(key, value, ex, nx), now)
      ensures nx ==> (ok <==> GetReply(old(store), key, now) == None)
    {
      if nx && key in store {
        var expiresAt := store[key].expiresAt;
        if expiresAt.None? || now <= expiresAt.value {
          return false;
        }
      }
      var expiresAt := if ex.Some? && ex.value != 0 then Some(now + ex.value as real) else None;
      store := store[key := Row(value, expiresAt)];
      ok := true;
    }

    method SetEx(key: string, ex: int, value: Value, now: Time)
      modifies this
      ensures store == Exec(old(store), Command.Set(key, value, Some(ex), false), now).0
    {
      var _ := Set(key, value, Some(ex), false, now);
    }

    method IncrBy(key: string, amount: int, now: Time) returns (total: int)
      modifies this
      ensures (store, Total(total)) == Exec(old(store), Command.IncrBy(key, amount), now)
    {
      total := 0;
      var expires: Option<Time> := None;
      if key in store {
        var row := store[key];
        if row.expiresAt.None? || now <= row.expiresAt.value {
          total := AsInt(row.value);
        }
        expires := row.expiresAt;
      }
      total := total + amount;
      store := store[key := Row(Number(total), expires)];
    }

    method Expire(key: string, seconds: int, now: Time) returns (ok: bool)
      modifies this
      ensures (store, Armed(ok)) == Exec(old(store), Command.Expire(key, seconds), now)
    {
      ok := key in store;
      if ok {
        store := store[key := Row(store[key].value, Some(now + seconds as real))];
      }
    }

    method Ttl(key: string, now: Time) returns (seconds: int)
      ensures (store, Remaining(seconds)) == Exec(store, Command.Ttl(key), now)
    {
      if key !in store {
        return -2;
      }
      var expiresAt := store[key].expiresAt;
      if expiresAt.None? {
        return -1;
      }
      var left := (expiresAt.value - now).Floor;
      seconds := if left < 0 then 0 else left;
    }

    method Delete(keys: seq<string>) returns (n: nat)
      modifies this
      ensures store == old(store) - KeySet(keys) && n == |KeySet(keys) * old(store).Keys|
    {
      n := 0;
      ghost var before, named: set<string> := store, {};
      for i := 0 to |keys|
        invariant named == KeySet(keys[..i])
        invariant store == before - named
        invariant n == |named * before.Keys|
      {
        KeySetSnoc(keys, i);
        CountSnoc(named, keys[i], before.Keys);
        if keys[i] in store {
          store := store - {keys[i]};
          n := n + 1;
        }
        RemoveSnoc(before, named, keys[i]);
        named := named + {keys[i]};
      }
      assert keys[..|keys|] == keys;
    }
  }

  lemma RemoveSnoc(store: Store, names: set<string>, key: string)
    ensures store - (names + {key}) == if key in store - names then (store - names) - {key} else store - names
  {
  }

  lemma CountSnoc(names: set<string>, key: string, domain: set<string>)
    ensures |(names + {key}) * domain| == |names * domain| + if key in domain && key !in names then 1 else 0
  {
    if key in domain && key !in names {
      assert (names + {key}) * domain == names * domain + {key};
    } else {
      assert (names + {key}) * domain == names * domain;
    }
  }

  lemma KeySetSnoc(keys: seq<string>, i: nat)
    requires i < |keys|
    ensures KeySet(keys[..i + 1]) == KeySet(keys[..i]) + {keys[i]}
  {
    assert keys[..i + 1] == keys[..i] + [keys[i]];
  }
}
