/**
The tiers of the cache protocol are the two verified stores. Every await of app/platform/cache_swr.py that
touches L1 is one command of the Redis stand-in on the key or its `:lock` sibling, and every one that touches
L2 is one operation on the `kv_cache` table; the protocol goes on as the reply says.
*/
module CacheTiers {
  import opened Wrappers
  import Redis = RedisClient
  import L2 = CacheL2
  import Swr = CacheSwr

  /** The key, and how an envelope is written down. */
  datatype Naming = Naming(key: string, envelope: Swr.Entry -> string) {
    function LockKey(): string {
      key + ":lock"
    }
  }

  function Slot<V>(key: string, row: Option<V>): map<string, V> {
    if row.Some? then map[key := row.value] else map[]
  }

  function ValueRow(n: Naming, e: Swr.Entry): Redis.Row {
    Redis.Row(Redis.Text(n.envelope(e)), Redis.Expiry(Some(e.ttl), e.writtenAt))
  }

  function L1Rows(n: Naming, s: Swr.State): Redis.Store {
    Slot(n.key, ValueSlot(n, s.l1)) + Slot(n.LockKey(), LockSlot(s.lock))
  }

  function L2Rows(n: Naming, s: Swr.State): L2.Table {
    Slot(n.key, if s.l2.Some? then Some(L2Row(n, s.l2.value)) else None)
  }

  function L2Row(n: Naming, e: Swr.Entry): L2.Row {
    L2.Row(n.envelope(e), e.writtenAt + e.ttl as real)
  }

  /** What a task would store now. */
  function Fresh(t: Swr.Task, made: Swr.Completion, now: Time): Swr.Entry {
    Swr.Entry(made, t.cfg.freshTtl, t.cfg.staleTtl, now)
  }

  /** The command a task's await sends to L1. */
  function L1Command(n: Naming, t: Swr.Task, now: Time): Option<Redis.Command> {
    match t.pc
    case ReadL1 => Some(Redis.Command.Get(n.key))
    case PollL1(_) => Some(Redis.Command.Get(n.key))
    case PollLock(_) => Some(Redis.Command.Get(n.LockKey()))
    case Acquire(_) => Some(Redis.Command.Set(n.LockKey(), Redis.Number(1), Some(t.cfg.lockTtl), true))
    case WriteL1(_, made) =>
      Some(Redis.Command.Set(n.key, Redis.Text(n.envelope(Fresh(t, made, now))), Some(t.cfg.staleTtl), false))
    case Releasing(_, _, _) => Some(Redis.Command.Delete([n.LockKey()]))
    case _ => None
  }

  /** The operation it sends to L2. */
  function L2Operation(n: Naming, t: Swr.Task, now: Time): Option<L2.Operation> {
    match t.pc
    case ReadL2 => Some(L2.Operation.Get(n.key))
    case PollL2(_) => Some(L2.Operation.Get(n.key))
    case WriteL2(_, made) => Some(L2.Operation.Set(n.key, n.envelope(Fresh(t, made, now)), t.cfg.staleTtl, None))
    case _ => None
  }

  /** How the task goes on, given what the L1 command replied. */
  predicate Heeds(n: Naming, before: Swr.Task, after: Swr.Task, reply: Redis.Reply, now: Time) {
    match before.pc
    case ReadL1 => reply.Found? && (after.pc == Swr.ReadL2 <==> reply.value.None?)
    case PollL1(deadline) => reply.Found? && (after.pc == Swr.PollL2(deadline) <==> reply.value.None?)
    case PollLock(deadline) => reply.Found? && (after.pc.Asleep? <==> reply.value.Some? && now < deadline)
    case Acquire(_) => reply.Stored? && (after.claim.Some? <==> reply.ok)
    case WriteL1(_, _) => reply == Redis.Stored(true)
    case _ => true
  }

  lemma KeysDiffer(n: Naming)
    ensures n.key != n.LockKey()
  {
    assert |n.LockKey()| == |n.key| + 5;
  }

  /** Writing and clearing the second of two slots. */
  lemma SecondSlot<V>(a: string, x: Option<V>, b: string, y: Option<V>, v: V)
    requires a != b
    ensures (Slot(a, x) + Slot(b, y))[b := v] == Slot(a, x) + Slot(b, Some(v))
    ensures (Slot(a, x) + Slot(b, y)) - {b} == Slot(a, x) + Slot(b, None)
  {
  }

  function ValueSlot(n: Naming, l1: Option<Swr.Entry>): Option<Redis.Row> {
    if l1.Some? then Some(ValueRow(n, l1.value)) else None
  }

  function LockSlot(lock: Option<Swr.Lock>): Option<Redis.Row> {
    if lock.Some? then Some(Redis.Row(Redis.Number(1), lock.value.expiresAt)) else None
  }

  /** What reads of the two slots find. */
  lemma L1Reads(n: Naming, s: Swr.State)
    ensures Redis.GetReply(L1Rows(n, s), n.key, s.now)
         == if s.l1.Some? && Swr.L1Live(s.l1.value, s.now) then Some(Redis.Text(n.envelope(s.l1.value))) else None
    ensures Redis.GetReply(L1Rows(n, s), n.LockKey(), s.now)
         == if s.lock.Some? && Swr.LockLive(s.lock.value, s.now) then Some(Redis.Number(1)) else None
  {
    KeysDiffer(n);
  }

  /** The step a task takes from s to s' is this command on L1, and the task heeds its reply. */
  predicate IsCommand(n: Naming, s: Swr.State, id: Swr.Id, s': Swr.State, c: Redis.Command)
    requires id in s.tasks
  {
    var (rows, reply) := Redis.Exec(L1Rows(n, s), c, s.now);
    && Redis.Visible(L1Rows(n, s'), s.now) == Redis.Visible(rows, s.now) && s'.l2 == s.l2
    && id in s'.tasks && Heeds(n, s.tasks[id], s'.tasks[id], reply, s.now)
  }

  lemma GetPurgesNothingVisible(rows: Redis.Store, key: string, now: Time)
    ensures Redis.Visible(Redis.AfterGet(rows, key, now), now) == Redis.Visible(rows, now)
  {
  }

  lemma ReadIsCommand(n: Naming, s: Swr.State, id: Swr.Id)
    requires id in s.tasks && id < s.next && (s.tasks[id].pc.ReadL1? || s.tasks[id].pc.PollL1?)
    ensures IsCommand(n, s, id, Swr.Step(s, Swr.Act(id, Swr.Works)), Redis.Command.Get(n.key))
  {
    GetPurgesNothingVisible(L1Rows(n, s), n.key, s.now);
    L1Reads(n, s);
    var s' := Swr.Step(s, Swr.Act(id, Swr.Works));
    assert s'.l1 == s.l1 && s'.lock == s.lock;
  }

  lemma LockPollIsCommand(n: Naming, s: Swr.State, id: Swr.Id)
    requires id in s.tasks && s.tasks[id].pc.PollLock?
    ensures IsCommand(n, s, id, Swr.Step(s, Swr.Act(id, Swr.Works)), Redis.Command.Get(n.LockKey()))
  {
    GetPurgesNothingVisible(L1Rows(n, s), n.LockKey(), s.now);
    L1Reads(n, s);
  }

  lemma LockSetNx(n: Naming, s: Swr.State, s': Swr.State, ttl: int)
    requires s'.l1 == s.l1
    requires
      if s.lock.Some? && Swr.LockLive(s.lock.value, s.now) then s'.lock == s.lock
      else s'.lock.Some? && s'.lock.value.expiresAt == Redis.Expiry(Some(ttl), s.now)
    ensures
      var (rows, reply) := Redis.Exec(L1Rows(n, s), Redis.Command.Set(n.LockKey(), Redis.Number(1), Some(ttl), true), s.now);
      rows == L1Rows(n, s') && reply == Redis.Stored(!(s.lock.Some? && Swr.LockLive(s.lock.value, s.now)))
  {
    KeysDiffer(n);
    L1Reads(n, s);
    SecondSlot(n.key, ValueSlot(n, s.l1), n.LockKey(), LockSlot(s.lock), Redis.Row(Redis.Number(1), Redis.Expiry(Some(ttl), s.now)));
  }

  lemma AcquireIsCommand(n: Naming, s: Swr.State, id: Swr.Id)
    requires id in s.tasks && s.tasks[id].pc.Acquire? && s.tasks[id].claim.None?
    ensures
      var c := Redis.Command.Set(n.LockKey(), Redis.Number(1), Some(s.tasks[id].cfg.lockTtl), true);
      IsCommand(n, s, id, Swr.Step(s, Swr.Act(id, Swr.Works)), c)
  {
    var t, s' := s.tasks[id], Swr.Step(s, Swr.Act(id, Swr.Works));
    var refused := s.lock.Some? && Swr.LockLive(s.lock.value, s.now);
    assert s'.l1 == s.l1 && s'.l2 == s.l2 && id in s'.tasks && (s'.tasks[id].claim.Some? <==> !refused);
    assert if refused then s'.lock == s.lock else s'.lock.Some? && s'.lock.value.expiresAt == Redis.Expiry(Some(t.cfg.lockTtl), s.now);
    LockSetNx(n, s, s', t.cfg.lockTtl);
  }

  lemma WriteIsCommand(n: Naming, s: Swr.State, id: Swr.Id)
    requires id in s.tasks && s.tasks[id].pc.WriteL1?
    ensures
      IsCommand(n, s, id, Swr.Step(s, Swr.Act(id, Swr.Works)), L1Command(n, s.tasks[id], s.now).value)
  {
    KeysDiffer(n);
    var t, s' := s.tasks[id], Swr.Step(s, Swr.Act(id, Swr.Works));
    var text := Redis.Text(n.envelope(Fresh(t, t.pc.made, s.now)));
    assert L1Rows(n, s') == Redis.AfterSet(L1Rows(n, s), n.key, text, Some(t.cfg.staleTtl), false, s.now);
  }

  lemma LockDeleted(n: Naming, s: Swr.State, s': Swr.State)
    requires s'.l1 == s.l1 && s'.lock == None
    ensures Redis.Exec(L1Rows(n, s), Redis.Command.Delete([n.LockKey()]), s.now).0 == L1Rows(n, s')
  {
    KeysDiffer(n);
    SecondSlot(n.key, ValueSlot(n, s.l1), n.LockKey(), LockSlot(s.lock), Redis.Row(Redis.Number(1), None));
    assert Redis.KeySet([n.LockKey()]) == {n.LockKey()};
  }

  lemma ReleaseIsCommand(n: Naming, s: Swr.State, id: Swr.Id)
    requires id in s.tasks && s.tasks[id].pc.Releasing?
    ensures IsCommand(n, s, id, Swr.Step(s, Swr.Act(id, Swr.Works)), Redis.Command.Delete([n.LockKey()]))
  {
    KeysDiffer(n);
    var s' := Swr.Step(s, Swr.Act(id, Swr.Works));
    assert s'.l1 == s.l1 && s'.lock == None && s'.l2 == s.l2 && id in s'.tasks;
    LockDeleted(n, s, s');
  }

  /**
  L1. A step that works leaves L1 as its Redis command does, up to rows that have expired, and the task goes on
  as the reply says: it misses when the reply is None, and it holds the lock if and only if NX succeeded.
  */
  lemma L1StepIsCommand(n: Naming, s: Swr.State, id: Swr.Id)
    requires Swr.Inv(s) && id in s.tasks && L1Command(n, s.tasks[id], s.now).Some?
    ensures IsCommand(n, s, id, Swr.Step(s, Swr.Act(id, Swr.Works)), L1Command(n, s.tasks[id], s.now).value)
  {
    var t := s.tasks[id];
    assert Swr.GoodClaim(id, t) && id < s.next by {
      assert Swr.GoodTask(Swr.ViewOf(s), id, t);
    }
    match t.pc {
      case ReadL1 => ReadIsCommand(n, s, id);
      case PollL1(_) => ReadIsCommand(n, s, id);
      case PollLock(_) => LockPollIsCommand(n, s, id);
      case Acquire(_) => AcquireIsCommand(n, s, id);
      case WriteL1(_, _) => WriteIsCommand(n, s, id);
      case Releasing(_, _, _) => ReleaseIsCommand(n, s, id);
    }
  }

  /** The step is this operation on L2, and a read that finds nothing sends the task down the cold path. */
  predicate IsOperation(n: Naming, s: Swr.State, id: Swr.Id, s': Swr.State, op: L2.Operation)
    requires id in s.tasks
  {
    var t, call := s.tasks[id], L2.Call(op, s.now, false);
    && L2Rows(n, s') == L2.After(L2Rows(n, s), call) && s'.l1 == s.l1 && s'.lock == s.lock && id in s'.tasks
    && (op.Get? ==>
          var found := L2.Answer(L2Rows(n, s), call);
          && (found.Some? <==> s.l2.Some? && Swr.L2Live(s.l2.value, s.now))
          && (found.Some? ==> found.value == n.envelope(s.l2.value))
          && (found.None? ==> s'.tasks[id].pc == if t.pc.PollL2? then Swr.PollLock(t.pc.deadline) else Swr.Acquire(Swr.FirstTry)))
  }

  /** The envelope about to be written is one the table accepts. */
  predicate Fits(n: Naming, t: Swr.Task, now: Time)
    requires t.pc.WriteL2?
  {
    |n.envelope(Fresh(t, t.pc.made, now))| <= L2.MAX_VALUE_LENGTH
  }

  lemma L2WriteIsOperation(n: Naming, s: Swr.State, id: Swr.Id)
    requires id in s.tasks && s.tasks[id].pc.WriteL2?
    requires n.key != "" && Fits(n, s.tasks[id], s.now)
    ensures IsOperation(n, s, id, Swr.Step(s, Swr.Act(id, Swr.Works)), L2Operation(n, s.tasks[id], s.now).value)
  {
    var t, s' := s.tasks[id], Swr.Step(s, Swr.Act(id, Swr.Works));
    assert s'.l2 == if t.cfg.staleTtl > 0 then Some(Fresh(t, t.pc.made, s.now)) else s.l2;
    assert s'.l1 == s.l1 && s'.lock == s.lock && id in s'.tasks;
  }

  lemma L2ReadIsOperation(n: Naming, s: Swr.State, id: Swr.Id)
    requires id in s.tasks && id < s.next && (s.tasks[id].pc.ReadL2? || s.tasks[id].pc.PollL2?)
    ensures IsOperation(n, s, id, Swr.Step(s, Swr.Act(id, Swr.Works)), L2.Operation.Get(n.key))
  {
    var s' := Swr.Step(s, Swr.Act(id, Swr.Works));
    assert s'.l1 == s.l1 && s'.lock == s.lock && s'.l2 == s.l2 && id in s'.tasks;
  }

  /** L2. A step that works is its operation on the table. */
  lemma L2StepIsOperation(n: Naming, s: Swr.State, id: Swr.Id)
    requires Swr.Inv(s) && id in s.tasks && L2Operation(n, s.tasks[id], s.now).Some?
    requires n.key != "" && (s.tasks[id].pc.WriteL2? ==> Fits(n, s.tasks[id], s.now))
    ensures IsOperation(n, s, id, Swr.Step(s, Swr.Act(id, Swr.Works)), L2Operation(n, s.tasks[id], s.now).value)
  {
    if s.tasks[id].pc.WriteL2? {
      L2WriteIsOperation(n, s, id);
    } else {
      L2ReadIsOperation(n, s, id);
    }
  }

  /** What the environment does to the tiers: losses of L1 rows, and the purge of another key's write. */
  lemma EnvironmentIsOperations(n: Naming, s: Swr.State)
    ensures L1Rows(n, Swr.Step(s, Swr.LoseL1Value)) == L1Rows(n, s) - {n.key}
    ensures L1Rows(n, Swr.Step(s, Swr.LoseLock)) == L1Rows(n, s) - {n.LockKey()}
    ensures L2Rows(n, Swr.Step(s, Swr.PurgeL2)) == L2.Visible(L2Rows(n, s), s.now)
  {
    KeysDiffer(n);
  }
}
