/**
The durable second cache tier of app/platform/cache_l2.py: the `kv_cache` table.

Each operation may fail in the database, and then changes nothing and answers None. A write may also
purge expired rows (about 1% do). The coin toss is part of the operation's outcome here, and the
purge reads the clock again, later than the read that stamped the row.
*/
module CacheL2 {
  import opened Wrappers

  const MAX_VALUE_LENGTH := 24 * 1024 * 1024

  datatype Row = Row(value: string, expiresAt: Time)

  type Table = map<string, Row>

  /** A row is served strictly before its expiry. */
  predicate Live(row: Row, now: Time) {
    now < row.expiresAt
  }

  function Visible(table: Table, now: Time): Table {
    map key | key in table && Live(table[key], now) :: table[key]
  }

  predicate Accepts(key: string, value: string, ttlSeconds: int) {
    key != "" && ttlSeconds > 0 && |value| <= MAX_VALUE_LENGTH
  }

  /** `Set` carries the moment of its purge, when it purges. */
  datatype Operation =
    | Get(key: string)
    | Set(key: string, value: string, ttlSeconds: int, purgeAt: Option<Time>)
    | Delete(key: string)

  datatype Call = Call(op: Operation, at: Time, dbError: bool)

  function Answer(table: Table, c: Call): Option<string> {
    if c.op.Get? && !c.dbError && c.op.key in table && Live(table[c.op.key], c.at)
    then Some(table[c.op.key].value)
    else None
  }

  function After(table: Table, c: Call): Table {
    if c.dbError then table
    else
      match c.op
      case Get(_) => table
      case Set(key, value, ttl, purgeAt) =>
        if !Accepts(key, value, ttl) then table
        else
          var written := table[key := Row(value, c.at + ttl as real)];
          if purgeAt.Some? then Visible(written, purgeAt.value) else written
      case Delete(key) => table - {key}
  }

  class KvCache {
    var table: Table

    constructor ()
      ensures table == map[]
    {
      table := map[];
    }

    method Get(key: string, now: Time, dbError: bool) returns (value: Option<string>)
      ensures value == Answer(table, Call(Operation.Get(key), now, dbError))
    {
      value := None;
      if !dbError && key in table {
        var row := table[key];
        if row.expiresAt <= now {
          return;
        }
        value := Some(row.value);
      }
    }

    method Set(key: string, value: string, ttlSeconds: int, now: Time, purgeAt: Option<Time>, dbError: bool)
      modifies this
      ensures table == After(old(table), Call(Operation.Set(key, value, ttlSeconds, purgeAt), now, dbError))
      ensures key == "" || ttlSeconds <= 0 || |value| > 25_165_824 || dbError ==> table == old(table)
      ensures !(key == "" || ttlSeconds <= 0 || |value| > 25_165_824 || dbError) && purgeAt.None? ==>
                table == old(table)[key := Row(value, now + ttlSeconds as real)]
    {
      if key == "" || ttlSeconds <= 0 || |value| > MAX_VALUE_LENGTH || dbError {
        return;
      }
      table := table[key := Row(value, now + ttlSeconds as real)];
      if purgeAt.Some? {
        var expired := set k | k in table && table[k].expiresAt <= purgeAt.value;
        table := table - expired;
      }
    }

    method Delete(key: string, dbError: bool, ghost now: Time)
      modifies this
      ensures table == After(old(table), Call(Operation.Delete(key), now, dbError))
    {
      if !dbError {
        table := table - {key};
      }
    }
  }

  /** Text of up to 24 MiB under a key and a TTL is stored, and then read back until it expires; all else is refused. */
  lemma StoredThenRead(table: Table, key: string, value: string, ttl: int, now: Time, later: Time)
    ensures
      var after := After(table, Call(Set(key, value, ttl, None), now, false));
      if key != "" && ttl > 0 && |value| <= 25_165_824
      then Answer(after, Call(Get(key), later, false)) == if later < now + ttl as real then Some(value) else None
      else after == table
  {
  }

  // ---- Purging is invisible ------------------------------------------------------------

  /** The table after a run of calls from an empty one. */
  function TableAfter(calls: seq<Call>): Table {
    if calls == [] then map[] else After(TableAfter(calls[..|calls| - 1]), calls[|calls| - 1])
  }

  /** Reference: the row the last write or delete of `key` that reached the database left behind. */
  function LastWrite(calls: seq<Call>, key: string): Option<Row> {
    if calls == [] then None
    else
      var c, earlier := calls[|calls| - 1], calls[..|calls| - 1];
      if c.dbError then LastWrite(earlier, key)
      else if c.op == Delete(key) then None
      else if c.op.Set? && c.op.key == key && Accepts(key, c.op.value, c.op.ttlSeconds)
      then Some(Row(c.op.value, c.at + c.op.ttlSeconds as real))
      else LastWrite(earlier, key)
  }

  predicate Writes(c: Call, key: string) {
    !c.dbError && c.op.Set? && c.op.key == key && Accepts(key, c.op.value, c.op.ttlSeconds)
  }

  /** The call's purge takes a row of this expiry. */
  predicate Purges(c: Call, expiresAt: Time) {
    && !c.dbError && c.op.Set? && Accepts(c.op.key, c.op.value, c.op.ttlSeconds)
    && c.op.purgeAt.Some? && expiresAt <= c.op.purgeAt.value
  }

  /** Call i is the last write of the key. */
  ghost predicate IsLastWrite(calls: seq<Call>, key: string, i: int) {
    0 <= i < |calls| && Writes(calls[i], key) && forall j :: i < j < |calls| ==> !Writes(calls[j], key)
  }

  /** A purge at or after the last write of the key, whatever its place in time, read at least its expiry. */
  ghost predicate Swept(calls: seq<Call>, key: string) {
    LastWrite(calls, key).Some? &&
    exists i, j :: IsLastWrite(calls, key, i) && i <= j < |calls| && Purges(calls[j], LastWrite(calls, key).value.expiresAt)
  }

  lemma SweptSnoc(calls: seq<Call>, c: Call, key: string)
    requires LastWrite(calls + [c], key).Some?
    ensures Swept(calls + [c], key)
       <==> Purges(c, LastWrite(calls + [c], key).value.expiresAt) || (!Writes(c, key) && Swept(calls, key))
  {
    var longer := calls + [c];
    var n := |calls|;
    assert longer[..n] == calls;
    WriteExists(longer, key);
    var k :| IsLastWrite(longer, key, k);
    if !Writes(c, key) {
      assert forall i :: IsLastWrite(longer, key, i) <==> IsLastWrite(calls, key, i);
    } else {
      assert IsLastWrite(longer, key, n);
    }
    assert longer[n] == c;
  }

  lemma {:induction false} WriteExists(calls: seq<Call>, key: string)
    requires LastWrite(calls, key).Some?
    ensures exists i :: IsLastWrite(calls, key, i)
  {
    var n := |calls| - 1;
    if Writes(calls[n], key) {
      assert IsLastWrite(calls, key, n);
    } else {
      WriteExists(calls[..n], key);
      var i :| IsLastWrite(calls[..n], key, i);
      assert IsLastWrite(calls, key, i);
    }
  }

  /** The table holds the last write of a key exactly until a purge sweeps it, in whatever order clocks were read. */
  lemma {:induction false} TableHoldsLastWrites(calls: seq<Call>, key: string)
    ensures key in TableAfter(calls) <==> LastWrite(calls, key).Some? && !Swept(calls, key)
    ensures key in TableAfter(calls) ==> LastWrite(calls, key) == Some(TableAfter(calls)[key])
  {
    if calls != [] {
      var n := |calls| - 1;
      TableHoldsLastWrites(calls[..n], key);
      assert calls == calls[..n] + [calls[n]];
      if LastWrite(calls, key).Some? {
        SweptSnoc(calls[..n], calls[n], key);
      }
    }
  }

  /** What `kv_get` should answer: the last write while it is unexpired. */
  function Due(calls: seq<Call>, key: string, now: Time): Option<string> {
    var last := LastWrite(calls, key);
    if last.Some? && Live(last.value, now) then Some(last.value.value) else None
  }

  /**
  `kv_get` against the reference, exactly: for every run of operations, database errors, purges and clock
  readings, in any order, it answers the last write of the key that reached the database while that is unexpired,
  if and only if it is not the case that the write is live now and a purge at or after it read at least its expiry.
  */
  lemma {:induction false} GetAnswersLastWriteIff(calls: seq<Call>, key: string, now: Time)
    ensures Answer(TableAfter(calls), Call(Get(key), now, false)) == Due(calls, key, now)
       <==> !(Due(calls, key, now).Some? && Swept(calls, key))
  {
    TableHoldsLastWrites(calls, key);
  }

  /** No purge has read a clock ahead of `now`. Nothing is asked of the order of the writes' readings. */
  predicate NoPurgeAhead(calls: seq<Call>, now: Time) {
    forall i :: 0 <= i < |calls| && calls[i].op.Set? && calls[i].op.purgeAt.Some? ==> calls[i].op.purgeAt.value <= now
  }

  /** Whatever was purged, the table shows a key exactly while its last write is unexpired. */
  lemma {:induction false} TableShowsLastWrites(calls: seq<Call>, key: string, now: Time)
    requires NoPurgeAhead(calls, now)
    ensures
      var table, last := TableAfter(calls), LastWrite(calls, key);
      && (key in table && Live(table[key], now) <==> last.Some? && Live(last.value, now))
      && (key in table ==> last == Some(table[key]))
  {
    TableHoldsLastWrites(calls, key);
  }

  lemma {:induction false} GetAnswersLastWrite(calls: seq<Call>, key: string, now: Time)
    requires NoPurgeAhead(calls, now)
    ensures Answer(TableAfter(calls), Call(Get(key), now, false)) == Due(calls, key, now)
  {
    GetAnswersLastWriteIff(calls, key, now);
  }

  /** The same calls at the same times, with purges chosen differently. */
  predicate SameButForPurges(a: seq<Call>, b: seq<Call>) {
    && |a| == |b|
    && forall i :: 0 <= i < |a| ==> WithoutPurge(a[i]) == WithoutPurge(b[i])
  }

  function WithoutPurge(c: Call): Call {
    if c.op.Set? then c.(op := c.op.(purgeAt := None)) else c
  }

  lemma {:induction false} LastWriteIgnoresPurges(a: seq<Call>, b: seq<Call>, key: string)
    requires SameButForPurges(a, b)
    ensures LastWrite(a, key) == LastWrite(b, key)
  {
    if a != [] {
      assert WithoutPurge(a[|a| - 1]) == WithoutPurge(b[|b| - 1]);
      LastWriteIgnoresPurges(a[..|a| - 1], b[..|b| - 1], key);
    }
  }

  /** Exactly when two runs that differ only in purges answer a `kv_get` alike. */
  lemma {:induction false} PurgesAreInvisibleIff(a: seq<Call>, b: seq<Call>, key: string, now: Time)
    requires SameButForPurges(a, b)
    ensures Answer(TableAfter(a), Call(Get(key), now, false)) == Answer(TableAfter(b), Call(Get(key), now, false))
       <==> (Due(a, key, now).Some? ==> (Swept(a, key) <==> Swept(b, key)))
  {
    LastWriteIgnoresPurges(a, b, key);
    TableHoldsLastWrites(a, key);
    TableHoldsLastWrites(b, key);
  }

  /** So the 1% purge is invisible to every `kv_get` that no purge has overtaken in clock time. */
  lemma {:induction false} PurgesAreInvisible(a: seq<Call>, b: seq<Call>, get: Call)
    requires SameButForPurges(a, b) && get.op.Get?
    requires NoPurgeAhead(a, get.at) && NoPurgeAhead(b, get.at)
    ensures Answer(TableAfter(a), get) == Answer(TableAfter(b), get)
  {
    LastWriteIgnoresPurges(a, b, get.op.key);
    GetAnswersLastWrite(a, get.op.key, get.at);
    GetAnswersLastWrite(b, get.op.key, get.at);
  }

  /** Otherwise it can show: the purge that read 20 shows in a read that sees time 5. */
  lemma PurgesShowWhenTheClockStepsBack()
    ensures
      var a, b := [Call(Set("k", "v", 10, None), 0.0, false), Call(Set("j", "w", 10, None), 0.0, false)],
                  [Call(Set("k", "v", 10, None), 0.0, false), Call(Set("j", "w", 10, Some(20.0)), 0.0, false)];
      && SameButForPurges(a, b)
      && Answer(TableAfter(a), Call(Get("k"), 5.0, false)) != Answer(TableAfter(b), Call(Get("k"), 5.0, false))
  {
    var a := [Call(Set("k", "v", 10, None), 0.0, false), Call(Set("j", "w", 10, None), 0.0, false)];
    var b := [a[0], Call(Set("j", "w", 10, Some(20.0)), 0.0, false)];
    assert a[..1] == b[..1] == [a[0]] && [a[0]][..0] == [];
    assert "k" in TableAfter(a) && "k" !in TableAfter(b);
  }
}
