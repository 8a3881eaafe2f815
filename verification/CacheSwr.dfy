/**
The stale-while-revalidate cache of app/platform/cache_swr.py, as a protocol on one key.

Every caller of `swr_get_or_refresh` and every background runner is a task with a program counter, and
each of its awaits is one step, so any other task, the clock, a loss of L1 or a purge of L2 can come
between two of them. All tasks share one L1 store (the value and its `:lock` sibling) and one L2 row.

A step carries the outcome of its await: it worked, it raised, the task was cancelled in it, or (for the
refresher) it produced a value.
*/
module CacheSwr {
  import opened Wrappers

  /** The `data` of an envelope, when it is not null. */
  type Data = string

  type Id = nat

  const POLL := 0.2
  const COLD_WAIT_CAP := 15.0

  datatype Config = Config(freshTtl: int, staleTtl: int, lockTtl: int, missWait: Time)

  /** A refresh that returned. `data` is None when the refresher returned None. */
  datatype Completion = Completion(task: Id, data: Option<Data>, at: Time)

  /** A stored envelope: which refresh made it, and when this tier wrote it, with what TTLs. */
  datatype Entry = Entry(source: Completion, freshTtl: int, ttl: int, writtenAt: Time)

  datatype Lock = Lock(owner: Id, expiresAt: Option<Time>)

  function FreshUntil(e: Entry): Time {
    e.source.at + e.freshTtl as real
  }

  /** L1 keeps a row through its expiry, and for ever when it was set with a TTL of 0. */
  predicate L1Live(e: Entry, now: Time) {
    e.ttl == 0 || now <= e.writtenAt + e.ttl as real
  }

  /** L2 serves a row strictly before its expiry. */
  predicate L2Live(e: Entry, now: Time) {
    now < e.writtenAt + e.ttl as real
  }

  predicate LockLive(lock: Lock, now: Time) {
    lock.expiresAt.None? || now <= lock.expiresAt.value
  }

  /** Why a task refreshes: in the background, as a cold caller's first try, or as its last resort. */
  datatype Why = Background | FirstTry | LastResort

  datatype How = Produced(made: Completion) | Cached(entry: Entry, readAt: Time)

  datatype Result = Value(data: Data, how: How) | Nothing | Aborted

  datatype Pc =
    | ReadL1
    | ReadL2
    | Gate
    | Acquire(why: Why)
    | Refreshing(why: Why)
    | WriteL1(why: Why, made: Completion)
    | WriteL2(why: Why, made: Completion)
    | Releasing(why: Why, kept: Option<Completion>, aborted: bool)
    | Asleep(until: Time, deadline: Time)
    | PollL1(deadline: Time)
    | PollL2(deadline: Time)
    | PollLock(deadline: Time)
    | Done(result: Result)

  /**
  `claim` is the lock row the task set and has not released. The counters are histories: refreshes run,
  background refreshes started, sleeps begun, awaits completed.
  */
  datatype Task = Task(
    cfg: Config, background: bool, pc: Pc, claim: Option<Lock>,
    refreshes: nat, spawned: nat, rounds: nat, waitFrom: Time, steps: nat)

  /** `completed` and `lastL2` are histories: refreshes that returned, and the last write L2 accepted. */
  datatype State = State(
    now: Time, l1: Option<Entry>, lock: Option<Lock>, l2: Option<Entry>,
    tasks: map<Id, Task>, next: Id, completed: set<Completion>, lastL2: Option<Entry>)

  datatype Outcome = Works | Raises | Cancelled | Yields(data: Option<Data>)

  datatype Event =
    | Tick(to: Time)
    | Call(cfg: Config)
    | Act(id: Id, outcome: Outcome)
    | LoseL1Value
    | LoseLock
    | PurgeL2

  function Start(now: Time): State {
    State(now, None, None, None, map[], 0, {}, None)
  }

  function NewTask(cfg: Config, background: bool): Task {
    Task(cfg, background, if background then Gate else ReadL1, None, 0, 0, 0, 0.0, 0)
  }

  function WaitCap(cfg: Config): Time {
    Max(cfg.missWait, COLD_WAIT_CAP)
  }

  // ---- One task moves ---------------------------------------------------------------------------

  /** `_do_refresh` has returned (`made` is None for every None it returns) or was cancelled. */
  function Finished(t: Task, now: Time, why: Why, made: Option<Completion>, aborted: bool): Task {
    var t := t.(claim := None);
    if aborted then t.(pc := Done(Aborted))
    else if why.Background? then t.(pc := Done(Nothing))
    else if made.Some? && made.value.data.Some?
    then t.(pc := Done(Value(made.value.data.value, Produced(made.value))))
    else if why.FirstTry?
    then t.(pc := Asleep(now + POLL, now + WaitCap(t.cfg)), waitFrom := now, rounds := 1)
    else t.(pc := Done(Nothing))
  }

  /** The `finally` of `_do_refresh`: a lock holder releases first. */
  function Leaving(t: Task, now: Time, why: Why, made: Option<Completion>, aborted: bool): Task {
    if t.claim.Some? then t.(pc := Releasing(why, made, aborted)) else Finished(t, now, why, made, aborted)
  }

  function Served(t: Task, e: Entry, data: Data, now: Time): Task {
    t.(pc := Done(Value(data, Cached(e, now))))
  }

  function Put(s: State, id: Id, t: Task): State {
    s.(tasks := s.tasks[id := t.(steps := t.steps + 1)])
  }

  /** What the first read found: serve it, and past its fresh window start one background refresh. */
  function Judge(s: State, id: Id, t: Task, e: Entry): State {
    if e.source.data.None? then Put(s, id, t.(pc := Acquire(FirstTry)))
    else
      var served := Served(t, e, e.source.data.value, s.now);
      if s.now < FreshUntil(e) then Put(s, id, served)
      else
        Put(s.(tasks := s.tasks[s.next := NewTask(t.cfg, true)], next := s.next + 1), id, served.(spawned := t.spawned + 1))
  }

  /** The row of `SET key:lock 1 EX lock_ttl NX`. */
  function NewLock(id: Id, cfg: Config, now: Time): Lock {
    Lock(id, if cfg.lockTtl != 0 then Some(now + cfg.lockTtl as real) else None)
  }

  function Acquiring(s: State, id: Id, t: Task, why: Why, outcome: Outcome): State {
    if outcome.Works? && !(s.lock.Some? && LockLive(s.lock.value, s.now)) then
      var mine := NewLock(id, t.cfg, s.now);
      Put(s.(lock := Some(mine)), id, t.(pc := Refreshing(why), claim := Some(mine), refreshes := t.refreshes + 1))
    else if why.LastResort? then
      Put(s, id, t.(pc := Refreshing(why), refreshes := t.refreshes + 1))
    else
      Put(s, id, Finished(t, s.now, why, None, false))
  }

  /** Another round of the wait loop, unless the deadline has passed. */
  function NextRound(t: Task, now: Time, deadline: Time): Task {
    if now < deadline then t.(pc := Asleep(now + POLL, deadline), rounds := t.rounds + 1)
    else t.(pc := Acquire(LastResort))
  }

  /** The first `_safe_get`, L1 then L2, and the gate of a background runner. */
  function Reading(s: State, id: Id, t: Task, outcome: Outcome): State {
    match t.pc
    case ReadL1 =>
      if outcome.Works? && s.l1.Some? && L1Live(s.l1.value, s.now) then Judge(s, id, t, s.l1.value)
      else Put(s, id, t.(pc := ReadL2))
    case ReadL2 =>
      if outcome.Works? && s.l2.Some? && L2Live(s.l2.value, s.now) then Judge(s, id, t, s.l2.value)
      else Put(s, id, t.(pc := Acquire(FirstTry)))
    case _ => Put(s, id, t.(pc := if outcome.Works? then Acquire(Background) else Done(Nothing)))
  }

  /** The refresher, the two writes of `_store`, and the release. */
  function Refresh(s: State, id: Id, t: Task, outcome: Outcome): State
    requires InRefresh(t.pc)
  {
    match t.pc
    case Refreshing(why) =>
      if outcome.Yields? then
        var made := Completion(id, outcome.data, s.now);
        Put(s.(completed := s.completed + {made}), id, t.(pc := WriteL1(why, made)))
      else Put(s, id, Leaving(t, s.now, why, None, false))
    case WriteL1(why, made) =>
      var s' := if outcome.Works? then s.(l1 := Some(Entry(made, t.cfg.freshTtl, t.cfg.staleTtl, s.now))) else s;
      Put(s', id, t.(pc := WriteL2(why, made)))
    case WriteL2(why, made) =>
      var row := Some(Entry(made, t.cfg.freshTtl, t.cfg.staleTtl, s.now));
      var s' := if outcome.Works? && t.cfg.staleTtl > 0 then s.(l2 := row, lastL2 := row) else s;
      Put(s', id, Leaving(t, s.now, why, Some(made), false))
    case Releasing(why, kept, aborted) =>
      Put(if outcome.Works? then s.(lock := None) else s, id, Finished(t, s.now, why, kept, aborted))
  }

  /** One pass through the wait loop of a cold caller. */
  function Polling(s: State, t: Task, outcome: Outcome): Task
    requires Waiting(t.pc)
  {
    match t.pc
    case Asleep(until, deadline) => t.(pc := PollL1(deadline))
    case PollL1(deadline) =>
      if outcome.Works? && s.l1.Some? && L1Live(s.l1.value, s.now) then
        if s.l1.value.source.data.Some? then Served(t, s.l1.value, s.l1.value.source.data.value, s.now)
        else t.(pc := PollLock(deadline))
      else t.(pc := PollL2(deadline))
    case PollL2(deadline) =>
      if outcome.Works? && s.l2.Some? && L2Live(s.l2.value, s.now) && s.l2.value.source.data.Some?
      then Served(t, s.l2.value, s.l2.value.source.data.value, s.now)
      else t.(pc := PollLock(deadline))
    case PollLock(deadline) =>
      if outcome.Works? && s.lock.Some? && LockLive(s.lock.value, s.now) then NextRound(t, s.now, deadline)
      else t.(pc := Acquire(LastResort))
  }

  predicate InRefresh(pc: Pc) {
    pc.Refreshing? || pc.WriteL1? || pc.WriteL2? || pc.Releasing?
  }

  predicate Waiting(pc: Pc) {
    pc.Asleep? || pc.PollL1? || pc.PollL2? || pc.PollLock?
  }

  function Moved(s: State, id: Id, outcome: Outcome): State
    requires id in s.tasks
  {
    var t := s.tasks[id];
    if t.pc.Done? || (t.pc.Asleep? && s.now < t.pc.until) then s
    else if t.pc.Acquire? then Acquiring(s, id, t, t.pc.why, outcome)
    else if InRefresh(t.pc) then Refresh(s, id, t, outcome)
    else if Waiting(t.pc) then Put(s, id, Polling(s, t, outcome))
    else Reading(s, id, t, outcome)
  }

  /** Cancellation skips every `except Exception`, but not the `finally` that releases the lock. */
  function CancelledIn(s: State, id: Id): State
    requires id in s.tasks
  {
    var t := s.tasks[id];
    match t.pc
    case Done(_) => s
    case Refreshing(why) => Put(s, id, Leaving(t, s.now, why, None, true))
    case WriteL1(why, _) => Put(s, id, Leaving(t, s.now, why, None, true))
    case WriteL2(why, _) => Put(s, id, Leaving(t, s.now, why, None, true))
    case _ => Put(s, id, t.(claim := None, pc := Done(Aborted)))
  }

  function Step(s: State, e: Event): State {
    match e
    case Tick(to) => if s.now <= to then s.(now := to) else s
    case Call(cfg) => s.(tasks := s.tasks[s.next := NewTask(cfg, false)], next := s.next + 1)
    case Act(id, outcome) =>
      if id !in s.tasks then s
      else if outcome.Cancelled? then CancelledIn(s, id)
      else Moved(s, id, outcome)
    case LoseL1Value => s.(l1 := None)
    case LoseLock => s.(lock := None)
    case PurgeL2 => if s.l2.Some? && !L2Live(s.l2.value, s.now) then s.(l2 := None) else s
  }

  function Run(s: State, es: seq<Event>): State
    decreases |es|
  {
    if es == [] then s else Run(Step(s, es[0]), es[1..])
  }

  // ---- What every reachable state satisfies --------------------------------------------------------

  /** The part of a state the guarantees of one task depend on. */
  datatype View = View(now: Time, completed: set<Completion>)

  function ViewOf(s: State): View {
    View(s.now, s.completed)
  }

  predicate Later(v: View, w: View) {
    v.now <= w.now && v.completed <= w.completed
  }

  predicate GoodEntry(v: View, e: Entry) {
    e.source in v.completed && e.source.at <= e.writtenAt <= v.now
  }

  predicate GoodMade(v: View, c: Completion) {
    c in v.completed && c.at <= v.now
  }

  /** Where a delivered value came from. */
  predicate GoodResult(v: View, t: Task, r: Result) {
    match r
    case Value(data, Produced(c)) => GoodMade(v, c) && c.data == Some(data)
    case Value(data, Cached(e, readAt)) =>
      && GoodEntry(v, e) && e.source.data == Some(data)
      && e.writtenAt <= readAt && (e.ttl != 0 ==> readAt <= e.writtenAt + e.ttl as real)
      && (t.rounds == 0 ==> (t.spawned == 1 <==> FreshUntil(e) <= readAt))
    case _ => true
  }

  /** Awaits behind a task that enters `_do_refresh`. */
  function Entered(why: Why, rounds: nat): nat {
    match why
    case Background => 1
    case FirstTry => 2
    case LastResort => 7 + 4 * rounds
  }

  /** Awaits behind a task that stands at `pc`, at most. */
  function StepsUpTo(pc: Pc, rounds: nat): nat {
    match pc
    case ReadL1 => 0
    case ReadL2 => 1
    case Gate => 0
    case Acquire(why) => Entered(why, rounds)
    case Refreshing(why) => Entered(why, rounds) + 1
    case WriteL1(why, _) => Entered(why, rounds) + 2
    case WriteL2(why, _) => Entered(why, rounds) + 3
    case Releasing(why, _, _) => Entered(why, rounds) + 4
    case Asleep(_, _) => 3 + 4 * rounds
    case PollL1(_) => 4 + 4 * rounds
    case PollL2(_) => 5 + 4 * rounds
    case PollLock(_) => 6 + 4 * rounds
    case Done(_) => 12 + 4 * rounds
  }

  /** The reason a refresh step carries fits the task, and its history so far. */
  predicate GoodWhy(t: Task, why: Why, refreshes: nat) {
    match why
    case Background => t.background && t.refreshes == refreshes && t.rounds == 0 && t.spawned == 0
    case FirstTry => !t.background && t.refreshes == refreshes && t.rounds == 0 && t.spawned == 0
    case LastResort => !t.background && t.refreshes <= refreshes + 1 && t.rounds >= 1 && t.spawned == 0
  }

  predicate GoodWait(v: View, t: Task, until: Time, deadline: Time) {
    && !t.background && t.refreshes <= 1 && t.spawned == 0 && t.rounds >= 1
    && deadline == t.waitFrom + WaitCap(t.cfg)
    && t.waitFrom + t.rounds as real * POLL <= until
  }

  predicate GoodPc(v: View, t: Task) {
    match t.pc
    case ReadL1 => t.refreshes == 0 && t.rounds == 0 && t.spawned == 0 && !t.background
    case ReadL2 => t.refreshes == 0 && t.rounds == 0 && t.spawned == 0 && !t.background
    case Gate => t.refreshes == 0 && t.rounds == 0 && t.spawned == 0 && t.background
    case Acquire(why) => GoodWhy(t, why, 0)
    case Refreshing(why) => GoodWhy(t, why, 1)
    case WriteL1(why, made) => GoodWhy(t, why, 1) && GoodMade(v, made)
    case WriteL2(why, made) => GoodWhy(t, why, 1) && GoodMade(v, made)
    case Releasing(why, result, _) => GoodWhy(t, why, 1) && (result.Some? ==> GoodMade(v, result.value))
    case Asleep(until, deadline) => GoodWait(v, t, until, deadline)
    case PollL1(deadline) => GoodWait(v, t, v.now, deadline)
    case PollL2(deadline) => GoodWait(v, t, v.now, deadline)
    case PollLock(deadline) => GoodWait(v, t, v.now, deadline)
    case Done(result) =>
      && GoodResult(v, t, result)
      && t.refreshes <= (if t.background then 1 else 2) && t.spawned <= (if t.background then 0 else 1)
  }

  /** Who may run a refresh without the lock, and who may hold it. */
  predicate GoodClaim(id: Id, t: Task) {
    && (t.claim.Some? ==> InRefresh(t.pc) && t.claim.value.owner == id)
    && (InRefresh(t.pc) && t.claim.None? ==> !t.pc.Releasing? && t.pc.why.LastResort?)
  }

  predicate GoodRounds(t: Task) {
    && (t.rounds >= 1 ==> (t.rounds - 1) as real * POLL < WaitCap(t.cfg))
    && t.steps <= StepsUpTo(t.pc, t.rounds)
  }

  predicate GoodTask(v: View, id: Id, t: Task) {
    GoodPc(v, t) && GoodClaim(id, t) && GoodRounds(t)
  }

  predicate GoodTiers(s: State) {
    && (s.l1.Some? ==> GoodEntry(ViewOf(s), s.l1.value))
    && (s.l2.Some? ==> GoodEntry(ViewOf(s), s.l2.value) && s.l2.value.ttl > 0)
    && (s.lastL2.Some? && L2Live(s.lastL2.value, s.now) ==> s.l2 == s.lastL2)
    && (s.l2.Some? ==> s.lastL2 == s.l2)
    && (forall c :: c in s.completed ==> c.at <= s.now)
  }

  predicate GoodTasks(v: View, tasks: map<Id, Task>, next: Id) {
    forall id :: id in tasks ==> id < next && GoodTask(v, id, tasks[id])
  }

  predicate Inv(s: State) {
    GoodTasks(ViewOf(s), s.tasks, s.next) && GoodTiers(s)
  }

  /** A task that does not move keeps its guarantees while time passes and refreshes complete. */
  lemma BystanderStaysGood(v: View, w: View, id: Id, t: Task)
    requires GoodTask(v, id, t) && Later(v, w)
    ensures GoodTask(w, id, t)
  {
  }

  lemma BystandersStayGood(v: View, w: View, tasks: map<Id, Task>, next: Id)
    requires GoodTasks(v, tasks, next) && Later(v, w)
    ensures GoodTasks(w, tasks, next)
  {
    forall id | id in tasks ensures id < next && GoodTask(w, id, tasks[id]) {
      BystanderStaysGood(v, w, id, tasks[id]);
    }
  }

  /** The shared part moved from s to s' and one task moved to t: the invariant holds again. */
  lemma PutKeepsInv(s: State, s': State, id: Id, t: Task)
    requires Inv(s) && id in s.tasks && s'.tasks == s.tasks && s'.next == s.next
    requires Later(ViewOf(s), ViewOf(s')) && GoodTiers(s')
    requires GoodTask(ViewOf(s'), id, t.(steps := t.steps + 1))
    ensures Inv(Put(s', id, t))
  {
    BystandersStayGood(ViewOf(s), ViewOf(s'), s.tasks, s.next);
    var end := Put(s', id, t);
    assert ViewOf(end) == ViewOf(s') && end.next == s.next;
    assert GoodTiers(end);
  }

  lemma ServedIsGood(v: View, id: Id, t: Task, e: Entry, spawned: nat)
    requires GoodTask(v, id, t) && GoodEntry(v, e) && e.source.data.Some?
    requires e.ttl != 0 ==> v.now <= e.writtenAt + e.ttl as real
    requires t.pc.ReadL1? || t.pc.ReadL2? || t.pc.PollL1? || t.pc.PollL2?
    requires spawned == if (t.pc.ReadL1? || t.pc.ReadL2?) && FreshUntil(e) <= v.now then 1 else 0
    ensures GoodTask(v, id, Served(t, e, e.source.data.value, v.now).(spawned := spawned, steps := t.steps + 1))
  {
  }

  lemma SpawnKeepsInv(s: State, cfg: Config, background: bool)
    requires Inv(s)
    ensures Inv(s.(tasks := s.tasks[s.next := NewTask(cfg, background)], next := s.next + 1))
  {
    var s' := s.(tasks := s.tasks[s.next := NewTask(cfg, background)], next := s.next + 1);
    assert ViewOf(s') == ViewOf(s) && GoodTiers(s');
    assert GoodTask(ViewOf(s), s.next, NewTask(cfg, background));
  }

  lemma JudgeKeepsInv(s: State, id: Id, e: Entry)
    requires Inv(s) && id in s.tasks && (s.tasks[id].pc.ReadL1? || s.tasks[id].pc.ReadL2?)
    requires GoodEntry(ViewOf(s), e) && (e.ttl != 0 ==> s.now <= e.writtenAt + e.ttl as real)
    ensures Inv(Judge(s, id, s.tasks[id], e))
  {
    var t := s.tasks[id];
    assert GoodTask(ViewOf(s), id, t);
    if e.source.data.None? {
      PutKeepsInv(s, s, id, t.(pc := Acquire(FirstTry)));
    } else {
      var served := Served(t, e, e.source.data.value, s.now);
      ServedIsGood(ViewOf(s), id, t, e, if FreshUntil(e) <= s.now then 1 else 0);
      if s.now < FreshUntil(e) {
        PutKeepsInv(s, s, id, served);
      } else {
        SpawnKeepsInv(s, t.cfg, true);
        var s' := s.(tasks := s.tasks[s.next := NewTask(t.cfg, true)], next := s.next + 1);
        PutKeepsInv(s', s', id, served.(spawned := t.spawned + 1));
      }
    }
  }

  lemma ReadKeepsInv(s: State, id: Id, outcome: Outcome)
    requires Inv(s) && id in s.tasks && (s.tasks[id].pc.ReadL1? || s.tasks[id].pc.ReadL2? || s.tasks[id].pc.Gate?)
    ensures Inv(Moved(s, id, outcome))
  {
    var t := s.tasks[id];
    assert GoodTask(ViewOf(s), id, t);
    match t.pc {
      case ReadL1 =>
        if outcome.Works? && s.l1.Some? && L1Live(s.l1.value, s.now) {
          JudgeKeepsInv(s, id, s.l1.value);
        } else {
          PutKeepsInv(s, s, id, t.(pc := ReadL2));
        }
      case ReadL2 =>
        if outcome.Works? && s.l2.Some? && L2Live(s.l2.value, s.now) {
          JudgeKeepsInv(s, id, s.l2.value);
        } else {
          PutKeepsInv(s, s, id, t.(pc := Acquire(FirstTry)));
        }
      case Gate => PutKeepsInv(s, s, id, t.(pc := if outcome.Works? then Acquire(Background) else Done(Nothing)));
    }
  }

  /** Leaving `_do_refresh`, or being cancelled, leaves a task with its guarantees. */
  lemma FinishedIsGood(v: View, id: Id, t: Task, why: Why, made: Option<Completion>, aborted: bool)
    requires GoodWhy(t, why, if t.pc.Acquire? then 0 else 1) && (made.Some? ==> GoodMade(v, made.value))
    requires GoodRounds(t) && (t.pc.Acquire? || InRefresh(t.pc)) && t.pc.why == why && t.pc != Acquire(LastResort)
    ensures GoodTask(v, id, Finished(t, v.now, why, made, aborted).(steps := t.steps + 1))
  {
    assert WaitCap(t.cfg) > 0.0;
  }

  lemma LeavingIsGood(v: View, id: Id, t: Task, why: Why, made: Option<Completion>, aborted: bool)
    requires GoodTask(v, id, t) && (t.pc.Refreshing? || t.pc.WriteL1? || t.pc.WriteL2?) && t.pc.why == why
    requires made.Some? ==> GoodMade(v, made.value)
    ensures GoodTask(v, id, Leaving(t, v.now, why, made, aborted).(steps := t.steps + 1))
  {
    if t.claim.None? {
      FinishedIsGood(v, id, t, why, made, aborted);
    }
  }

  /** A refresh begins with the lock, or without it as a last resort. */
  lemma RefreshingIsGood(v: View, id: Id, t: Task, claim: Option<Lock>)
    requires GoodTask(v, id, t) && t.pc.Acquire?
    requires if claim.Some? then claim.value.owner == id else t.pc.why.LastResort?
    ensures GoodTask(v, id, t.(pc := Refreshing(t.pc.why), claim := claim, refreshes := t.refreshes + 1, steps := t.steps + 1))
  {
  }

  lemma LockingKeepsInv(s: State, id: Id)
    requires Inv(s) && id in s.tasks && s.tasks[id].pc.Acquire? && !(s.lock.Some? && LockLive(s.lock.value, s.now))
    ensures Inv(Acquiring(s, id, s.tasks[id], s.tasks[id].pc.why, Works))
  {
    var t := s.tasks[id];
    assert GoodTask(ViewOf(s), id, t);
    var mine := NewLock(id, t.cfg, s.now);
    RefreshingIsGood(ViewOf(s), id, t, Some(mine));
    PutKeepsInv(s, s.(lock := Some(mine)), id,
      t.(pc := Refreshing(t.pc.why), claim := Some(mine), refreshes := t.refreshes + 1));
  }

  lemma AcquireKeepsInv(s: State, id: Id, outcome: Outcome)
    requires Inv(s) && id in s.tasks && s.tasks[id].pc.Acquire?
    ensures Inv(Moved(s, id, outcome))
  {
    var t := s.tasks[id];
    var why := t.pc.why;
    assert GoodTask(ViewOf(s), id, t);
    if outcome.Works? && !(s.lock.Some? && LockLive(s.lock.value, s.now)) {
      LockingKeepsInv(s, id);
    } else if why.LastResort? {
      RefreshingIsGood(ViewOf(s), id, t, None);
      PutKeepsInv(s, s, id, t.(pc := Refreshing(why), refreshes := t.refreshes + 1));
    } else {
      FinishedIsGood(ViewOf(s), id, t, why, None, false);
      PutKeepsInv(s, s, id, Finished(t, s.now, why, None, false));
    }
  }

  lemma RefreshReturns(s: State, id: Id, data: Option<Data>)
    requires Inv(s) && id in s.tasks && s.tasks[id].pc.Refreshing?
    ensures Inv(Moved(s, id, Yields(data)))
  {
    var t := s.tasks[id];
    assert GoodTask(ViewOf(s), id, t);
    var made := Completion(id, data, s.now);
    var s' := s.(completed := s.completed + {made});
    BystanderStaysGood(ViewOf(s), ViewOf(s'), id, t);
    PutKeepsInv(s, s', id, t.(pc := WriteL1(t.pc.why, made)));
  }

  lemma WriteL1KeepsInv(s: State, id: Id, outcome: Outcome)
    requires Inv(s) && id in s.tasks && s.tasks[id].pc.WriteL1?
    ensures Inv(Moved(s, id, outcome))
  {
    var t := s.tasks[id];
    assert GoodTask(ViewOf(s), id, t);
    var row := Some(Entry(t.pc.made, t.cfg.freshTtl, t.cfg.staleTtl, s.now));
    PutKeepsInv(s, if outcome.Works? then s.(l1 := row) else s, id, t.(pc := WriteL2(t.pc.why, t.pc.made)));
  }

  lemma WriteL2KeepsInv(s: State, id: Id, outcome: Outcome)
    requires Inv(s) && id in s.tasks && s.tasks[id].pc.WriteL2?
    ensures Inv(Moved(s, id, outcome))
  {
    var t := s.tasks[id];
    assert GoodTask(ViewOf(s), id, t);
    var made, why := t.pc.made, t.pc.why;
    var row := Some(Entry(made, t.cfg.freshTtl, t.cfg.staleTtl, s.now));
    LeavingIsGood(ViewOf(s), id, t, why, Some(made), false);
    var s' := if outcome.Works? && t.cfg.staleTtl > 0 then s.(l2 := row, lastL2 := row) else s;
    PutKeepsInv(s, s', id, Leaving(t, s.now, why, Some(made), false));
  }

  lemma RefreshKeepsInv(s: State, id: Id, outcome: Outcome)
    requires Inv(s) && id in s.tasks && s.tasks[id].pc.Refreshing?
    ensures Inv(Moved(s, id, outcome))
  {
    var t := s.tasks[id];
    assert GoodTask(ViewOf(s), id, t);
    if outcome.Yields? {
      RefreshReturns(s, id, outcome.data);
    } else {
      LeavingIsGood(ViewOf(s), id, t, t.pc.why, None, false);
      PutKeepsInv(s, s, id, Leaving(t, s.now, t.pc.why, None, false));
    }
  }

  lemma ReleaseKeepsInv(s: State, id: Id, outcome: Outcome)
    requires Inv(s) && id in s.tasks && s.tasks[id].pc.Releasing?
    ensures Inv(Moved(s, id, outcome))
  {
    var t := s.tasks[id];
    assert GoodTask(ViewOf(s), id, t);
    FinishedIsGood(ViewOf(s), id, t, t.pc.why, t.pc.kept, t.pc.aborted);
    PutKeepsInv(s, if outcome.Works? then s.(lock := None) else s, id,
      Finished(t, s.now, t.pc.why, t.pc.kept, t.pc.aborted));
  }

  lemma NextRoundIsGood(v: View, id: Id, t: Task)
    requires GoodTask(v, id, t) && t.pc.PollLock?
    ensures GoodTask(v, id, NextRound(t, v.now, t.pc.deadline).(steps := t.steps + 1))
  {
    assert (t.rounds + 1) as real * POLL == t.rounds as real * POLL + POLL;
  }

  lemma PollKeepsInv(s: State, id: Id, outcome: Outcome)
    requires Inv(s) && id in s.tasks && (s.tasks[id].pc.PollL1? || s.tasks[id].pc.PollL2?)
    ensures Inv(Moved(s, id, outcome))
  {
    var t := s.tasks[id];
    var deadline := t.pc.deadline;
    assert GoodTask(ViewOf(s), id, t);
    var e := if t.pc.PollL1? then s.l1 else s.l2;
    var found := outcome.Works? && e.Some? && if t.pc.PollL1? then L1Live(e.value, s.now) else L2Live(e.value, s.now);
    if found && e.value.source.data.Some? {
      ServedIsGood(ViewOf(s), id, t, e.value, 0);
      PutKeepsInv(s, s, id, Served(t, e.value, e.value.source.data.value, s.now));
    } else if t.pc.PollL1? && !found {
      PutKeepsInv(s, s, id, t.(pc := PollL2(deadline)));
    } else {
      PutKeepsInv(s, s, id, t.(pc := PollLock(deadline)));
    }
  }

  lemma WaitKeepsInv(s: State, id: Id, outcome: Outcome)
    requires Inv(s) && id in s.tasks && (s.tasks[id].pc.Asleep? || s.tasks[id].pc.PollLock?)
    ensures Inv(Moved(s, id, outcome))
  {
    var t := s.tasks[id];
    var deadline := t.pc.deadline;
    assert GoodTask(ViewOf(s), id, t);
    if t.pc.PollLock? {
      NextRoundIsGood(ViewOf(s), id, t);
      PutKeepsInv(s, s, id,
        if outcome.Works? && s.lock.Some? && LockLive(s.lock.value, s.now) then NextRound(t, s.now, deadline)
        else t.(pc := Acquire(LastResort)));
    } else if s.now >= t.pc.until {
      PutKeepsInv(s, s, id, t.(pc := PollL1(deadline)));
    }
  }

  lemma AbortedIsGood(v: View, id: Id, t: Task)
    requires GoodTask(v, id, t) && !t.pc.Done?
    ensures GoodTask(v, id, t.(claim := None, pc := Done(Aborted), steps := t.steps + 1))
  {
  }

  lemma CancelledRefreshKeepsInv(s: State, id: Id)
    requires Inv(s) && id in s.tasks && (s.tasks[id].pc.Refreshing? || s.tasks[id].pc.WriteL1? || s.tasks[id].pc.WriteL2?)
    ensures Inv(Put(s, id, Leaving(s.tasks[id], s.now, s.tasks[id].pc.why, None, true)))
  {
    var t := s.tasks[id];
    assert GoodTask(ViewOf(s), id, t);
    LeavingIsGood(ViewOf(s), id, t, t.pc.why, None, true);
    PutKeepsInv(s, s, id, Leaving(t, s.now, t.pc.why, None, true));
  }

  lemma AbortKeepsInv(s: State, id: Id)
    requires Inv(s) && id in s.tasks && !s.tasks[id].pc.Done?
    ensures Inv(Put(s, id, s.tasks[id].(claim := None, pc := Done(Aborted))))
  {
    var t := s.tasks[id];
    assert GoodTask(ViewOf(s), id, t);
    AbortedIsGood(ViewOf(s), id, t);
    PutKeepsInv(s, s, id, t.(claim := None, pc := Done(Aborted)));
  }

  lemma CancelKeepsInv(s: State, id: Id)
    requires Inv(s) && id in s.tasks
    ensures Inv(CancelledIn(s, id))
  {
    var pc := s.tasks[id].pc;
    if pc.Refreshing? || pc.WriteL1? || pc.WriteL2? {
      CancelledRefreshKeepsInv(s, id);
    } else if !pc.Done? {
      AbortKeepsInv(s, id);
    }
  }

  lemma EnvironmentKeepsInv(s: State, e: Event)
    requires Inv(s) && !e.Act?
    ensures Inv(Step(s, e))
  {
    if e.Call? {
      SpawnKeepsInv(s, e.cfg, false);
    } else {
      var s' := Step(s, e);
      BystandersStayGood(ViewOf(s), ViewOf(s'), s.tasks, s.next);
      assert GoodTiers(s');
    }
  }

  lemma StepKeepsInv(s: State, e: Event)
    requires Inv(s)
    ensures Inv(Step(s, e))
  {
    if !e.Act? {
      EnvironmentKeepsInv(s, e);
    } else if e.id in s.tasks {
      var pc := s.tasks[e.id].pc;
      if e.outcome.Cancelled? {
        CancelKeepsInv(s, e.id);
      } else {
        match pc {
          case ReadL1 => ReadKeepsInv(s, e.id, e.outcome);
          case ReadL2 => ReadKeepsInv(s, e.id, e.outcome);
          case Gate => ReadKeepsInv(s, e.id, e.outcome);
          case Acquire(_) => AcquireKeepsInv(s, e.id, e.outcome);
          case Refreshing(_) => RefreshKeepsInv(s, e.id, e.outcome);
          case WriteL1(_, _) => WriteL1KeepsInv(s, e.id, e.outcome);
          case WriteL2(_, _) => WriteL2KeepsInv(s, e.id, e.outcome);
          case Releasing(_, _, _) => ReleaseKeepsInv(s, e.id, e.outcome);
          case PollL1(_) => PollKeepsInv(s, e.id, e.outcome);
          case PollL2(_) => PollKeepsInv(s, e.id, e.outcome);
          case Done(_) =>
          case _ => WaitKeepsInv(s, e.id, e.outcome);
        }
      }
    }
  }

  lemma {:induction false} RunKeepsInv(s: State, es: seq<Event>)
    requires Inv(s)
    ensures Inv(Run(s, es))
    decreases |es|
  {
    if es != [] {
      StepKeepsInv(s, es[0]);
      RunKeepsInv(Step(s, es[0]), es[1..]);
    }
  }

  // ---- Main results ------------------------------------------------------------------------------

  /**
  Provenance and age. In every interleaving, a value a caller gets was produced by a completed refresh of
  the key; one served from a cache tier was written there at most that row's stale TTL before the read;
  and the first read starts a background refresh exactly when what it serves is past its fresh window.
  */
  lemma ResultsAreGenuine(start: Time, es: seq<Event>, id: Id)
    requires id in Run(Start(start), es).tasks
    ensures
      var s := Run(Start(start), es);
      var t := s.tasks[id];
      t.pc.Done? && t.pc.result.Value? ==>
        match t.pc.result.how
        case Produced(c) => c in s.completed && c.data == Some(t.pc.result.data)
        case Cached(e, readAt) =>
          && e.source in s.completed && e.source.data == Some(t.pc.result.data)
          && e.source.at <= e.writtenAt <= readAt && (e.ttl != 0 ==> readAt <= e.writtenAt + e.ttl as real)
          && (t.rounds == 0 ==> (t.spawned == 1 <==> e.source.at + e.freshTtl as real <= readAt))
  {
    RunKeepsInv(Start(start), es);
    assert GoodTask(ViewOf(Run(Start(start), es)), id, Run(Start(start), es).tasks[id]);
  }

  /**
  Bounded work. A foreground call runs its refresh at most twice and starts at most one background
  refresh; a background runner runs one and starts none. The wait loop begins sleep k only while the
  deadline is ahead, so (k - 1) * 0.2 < max(miss_wait_seconds, 15), and a call ends within
  12 + 4 * rounds awaits.
  */
  lemma CallsAreBounded(start: Time, es: seq<Event>, id: Id)
    requires id in Run(Start(start), es).tasks
    ensures
      var t := Run(Start(start), es).tasks[id];
      && t.refreshes <= (if t.background then 1 else 2) && t.spawned <= (if t.background then 0 else 1)
      && (t.rounds >= 1 ==> (t.rounds - 1) as real * POLL < WaitCap(t.cfg))
      && t.steps <= 12 + 4 * t.rounds
      && (t.cfg.missWait <= COLD_WAIT_CAP ==> t.rounds <= 75 && t.steps <= 312)
  {
    RunKeepsInv(Start(start), es);
    var t := Run(Start(start), es).tasks[id];
    assert GoodTask(ViewOf(Run(Start(start), es)), id, t);
    assert t.rounds > 75 ==> (t.rounds - 1) as real * POLL >= 75.0 * POLL;
  }

  /** A refresh running without the lock is always a cold caller's last resort. */
  lemma UnlockedRefreshIsLastResort(start: Time, es: seq<Event>, id: Id)
    requires id in Run(Start(start), es).tasks
    ensures
      var t := Run(Start(start), es).tasks[id];
      InRefresh(t.pc) && t.claim.None? ==> t.pc.why.LastResort? && !t.background && t.rounds >= 1
  {
    RunKeepsInv(Start(start), es);
    assert GoodTask(ViewOf(Run(Start(start), es)), id, Run(Start(start), es).tasks[id]);
  }

  // ---- A caller gets what its refresh produced ----------------------------------------------------------

  /** The refresh a task carries to its end. */
  function Carried(pc: Pc): Option<Completion> {
    match pc
    case WriteL1(_, made) => Some(made)
    case WriteL2(_, made) => Some(made)
    case Releasing(_, kept, _) => kept
    case Done(Value(_, Produced(made))) => Some(made)
    case _ => None
  }

  /** The task was cancelled. */
  predicate Dropped(pc: Pc) {
    pc == Done(Aborted) || (pc.Releasing? && pc.aborted)
  }

  /** Of all the refreshes of this task that produced a value, the one it carries is the only one. */
  predicate OnlyCarried(completed: set<Completion>, id: Id, carried: Option<Completion>) {
    forall c :: c in completed && c.task == id && c.data.Some? ==> carried == Some(c)
  }

  predicate Keeps(completed: set<Completion>, id: Id, t: Task) {
    t.background || Dropped(t.pc) || OnlyCarried(completed, id, Carried(t.pc))
  }

  /** Returns None only after a last resort. */
  predicate EmptyHanded(t: Task) {
    !t.background && t.pc == Done(Nothing) ==> t.rounds >= 1 && t.refreshes >= 1
  }

  predicate RefreshIsCounted(t: Task) {
    InRefresh(t.pc) ==> t.refreshes >= 1
  }

  predicate KeepsAll(s: State) {
    && (forall c :: c in s.completed ==> c.task < s.next)
    && (forall id :: id in s.tasks ==>
          Keeps(s.completed, id, s.tasks[id]) && EmptyHanded(s.tasks[id]) && RefreshIsCounted(s.tasks[id]))
  }

  lemma FinishedKeeps(completed: set<Completion>, id: Id, t: Task, now: Time, why: Why, made: Option<Completion>, aborted: bool)
    requires aborted || t.background || OnlyCarried(completed, id, made)
    requires why.Background? ==> t.background
    requires why.LastResort? ==> t.rounds >= 1 && t.refreshes >= 1
    ensures var end := Finished(t, now, why, made, aborted); Keeps(completed, id, end) && EmptyHanded(end) && RefreshIsCounted(end)
  {
  }

  lemma LeavingKeeps(completed: set<Completion>, id: Id, t: Task, now: Time, why: Why, made: Option<Completion>, aborted: bool)
    requires aborted || t.background || OnlyCarried(completed, id, made)
    requires why.Background? ==> t.background
    requires why.LastResort? ==> t.rounds >= 1
    requires t.refreshes >= 1
    ensures var end := Leaving(t, now, why, made, aborted); Keeps(completed, id, end) && EmptyHanded(end) && RefreshIsCounted(end)
  {
    if t.claim.None? {
      FinishedKeeps(completed, id, t, now, why, made, aborted);
    }
  }

  lemma RefreshKeeps(s: State, id: Id, t: Task, outcome: Outcome)
    requires InRefresh(t.pc) && GoodPc(ViewOf(s), t) && Keeps(s.completed, id, t) && t.refreshes >= 1
    ensures
      var s' := Refresh(s, id, t, outcome);
      id in s'.tasks && Keeps(s'.completed, id, s'.tasks[id]) && EmptyHanded(s'.tasks[id]) && RefreshIsCounted(s'.tasks[id])
  {
    match t.pc {
      case Refreshing(why) =>
        if !outcome.Yields? {
          LeavingKeeps(s.completed, id, t, s.now, why, None, false);
        }
      case WriteL1(_, _) =>
      case WriteL2(why, made) => LeavingKeeps(s.completed, id, t, s.now, why, Some(made), false);
      case Releasing(why, kept, aborted) => FinishedKeeps(s.completed, id, t, s.now, why, kept, aborted);
    }
  }

  lemma CancelledKeeps(s: State, id: Id)
    requires Inv(s) && KeepsAll(s) && id in s.tasks
    ensures
      var s' := CancelledIn(s, id);
      id in s'.tasks && Keeps(s'.completed, id, s'.tasks[id]) && EmptyHanded(s'.tasks[id]) && RefreshIsCounted(s'.tasks[id])
  {
    var t := s.tasks[id];
    assert GoodTask(ViewOf(s), id, t);
    if t.pc.Refreshing? || t.pc.WriteL1? || t.pc.WriteL2? {
      LeavingKeeps(s.completed, id, t, s.now, t.pc.why, None, true);
    }
  }

  lemma ReadingKeeps(s: State, id: Id, t: Task, outcome: Outcome)
    requires id < s.next && GoodPc(ViewOf(s), t) && Keeps(s.completed, id, t)
    requires t.pc.ReadL1? || t.pc.ReadL2? || t.pc.Gate?
    ensures
      var s' := Reading(s, id, t, outcome);
      && id in s'.tasks && s'.completed == s.completed
      && Keeps(s'.completed, id, s'.tasks[id]) && EmptyHanded(s'.tasks[id]) && RefreshIsCounted(s'.tasks[id])
  {
  }

  lemma PollingKeeps(s: State, id: Id, t: Task, outcome: Outcome)
    requires Waiting(t.pc) && Keeps(s.completed, id, t) && !t.background
    ensures
      var end := Polling(s, t, outcome);
      Keeps(s.completed, id, end) && EmptyHanded(end) && RefreshIsCounted(end)
  {
  }

  lemma AcquiringKeeps(s: State, id: Id, t: Task, outcome: Outcome)
    requires t.pc.Acquire? && GoodPc(ViewOf(s), t) && Keeps(s.completed, id, t)
    ensures
      var s' := Acquiring(s, id, t, t.pc.why, outcome);
      && id in s'.tasks && s'.completed == s.completed
      && Keeps(s'.completed, id, s'.tasks[id]) && EmptyHanded(s'.tasks[id]) && RefreshIsCounted(s'.tasks[id])
  {
  }

  lemma MoverKeeps(s: State, id: Id, outcome: Outcome)
    requires Inv(s) && KeepsAll(s) && id in s.tasks
    ensures
      var s' := Step(s, Act(id, outcome));
      id in s'.tasks && Keeps(s'.completed, id, s'.tasks[id]) && EmptyHanded(s'.tasks[id]) && RefreshIsCounted(s'.tasks[id])
  {
    var t := s.tasks[id];
    assert GoodTask(ViewOf(s), id, t) && id < s.next;
    if outcome.Cancelled? {
      CancelledKeeps(s, id);
    } else if t.pc.Done? {
    } else if t.pc.Acquire? {
      AcquiringKeeps(s, id, t, outcome);
    } else if InRefresh(t.pc) {
      RefreshKeeps(s, id, t, outcome);
    } else if Waiting(t.pc) {
      PollingKeeps(s, id, t, outcome);
    } else {
      ReadingKeeps(s, id, t, outcome);
    }
  }

  /** A step completes no refresh but the mover's own. */
  lemma StepCompletions(s: State, e: Event)
    ensures forall c :: c in Step(s, e).completed && c !in s.completed ==> e.Act? && e.id in s.tasks && c.task == e.id
    ensures s.completed <= Step(s, e).completed && s.next <= Step(s, e).next
  {
  }

  lemma OtherKeeps(s: State, s': State, e: Event, id: Id)
    requires KeepsAll(s) && id in s.tasks && id in s'.tasks && s'.tasks[id] == s.tasks[id]
    requires forall c :: c in s'.completed && c !in s.completed ==> c.task != id
    ensures Keeps(s'.completed, id, s'.tasks[id])
  {
  }

  lemma NewTaskKeeps(s: State, s': State, id: Id, cfg: Config, background: bool)
    requires Inv(s) && KeepsAll(s) && id !in s.tasks && id >= s.next
    requires forall c :: c in s'.completed && c !in s.completed ==> c.task in s.tasks
    ensures Keeps(s'.completed, id, NewTask(cfg, background))
  {
  }

  lemma NewIdsAreFresh(s: State, e: Event, id: Id)
    requires Inv(s) && id in Step(s, e).tasks && id !in s.tasks
    ensures id >= s.next
  {
    if e.Act? && e.id in s.tasks {
      assert e.id < s.next;
      if !e.outcome.Cancelled? {
        MoverAddsFresh(s, e.id, e.outcome, id);
      }
    }
  }

  lemma MoverAddsFresh(s: State, mover: Id, outcome: Outcome, id: Id)
    requires mover in s.tasks && mover < s.next && id in Moved(s, mover, outcome).tasks && id !in s.tasks
    ensures id == s.next
  {
    var t := s.tasks[mover];
    if !t.pc.Done? && !t.pc.Acquire? && !Waiting(t.pc) && !InRefresh(t.pc) {
      assert Reading(s, mover, t, outcome).tasks.Keys <= s.tasks.Keys + {mover, s.next};
    }
  }

  lemma StepKeepsAllKept(s: State, e: Event)
    requires Inv(s) && KeepsAll(s)
    ensures KeepsAll(Step(s, e))
  {
    var s' := Step(s, e);
    StepCompletions(s, e);
    forall id | id in s'.tasks
      ensures Keeps(s'.completed, id, s'.tasks[id]) && EmptyHanded(s'.tasks[id]) && RefreshIsCounted(s'.tasks[id])
    {
      if e.Act? && e.id in s.tasks && id == e.id {
        MoverKeeps(s, id, e.outcome);
      } else if id in s.tasks {
        if e.Act? && e.id in s.tasks {
          OthersStay(s, e.id, e.outcome, id);
        }
        OtherKeeps(s, s', e, id);
      } else {
        NewIdsAreFresh(s, e, id);
        if e.Act? {
          OthersStay(s, e.id, e.outcome, id);
          NewTaskKeeps(s, s', id, s.tasks[e.id].cfg, true);
        } else {
          NewTaskKeeps(s, s', id, e.cfg, false);
        }
      }
    }
  }

  lemma {:induction false} RunKeepsAllKept(s: State, es: seq<Event>)
    requires Inv(s) && KeepsAll(s)
    ensures KeepsAll(Run(s, es))
    decreases |es|
  {
    if es != [] {
      StepKeepsInv(s, es[0]);
      StepKeepsAllKept(s, es[0]);
      RunKeepsAllKept(Step(s, es[0]), es[1..]);
    }
  }

  /**
  A caller gets what its refresh produced. At the end of every run, a foreground call that returned None has waited
  and run its last resort, and none of its refreshes produced a value; and one that ended uncancelled, and whose
  refresh produced a value, returned just that value.
  */
  lemma CallersGetWhatTheyMade(start: Time, es: seq<Event>, id: Id)
    requires id in Run(Start(start), es).tasks && !Run(Start(start), es).tasks[id].background
    ensures
      var s := Run(Start(start), es);
      var t := s.tasks[id];
      && (t.pc == Done(Nothing) ==>
            t.rounds >= 1 && t.refreshes >= 1 && forall c :: c in s.completed && c.task == id ==> c.data.None?)
      && (forall c :: c in s.completed && c.task == id && c.data.Some? && t.pc.Done? && t.pc.result != Aborted ==>
            t.pc.result == Value(c.data.value, Produced(c)))
  {
    RunKeepsInv(Start(start), es);
    RunKeepsAllKept(Start(start), es);
    var s := Run(Start(start), es);
    assert GoodTask(ViewOf(s), id, s.tasks[id]);
    assert Keeps(s.completed, id, s.tasks[id]) && EmptyHanded(s.tasks[id]);
  }

  // ---- Reading, cancelling, vetoing and releasing ----------------------------------------------------------

  /** The envelope a read of this tier finds. */
  function Found(s: State, inL1: bool): Option<Entry> {
    if inL1 then if s.l1.Some? && L1Live(s.l1.value, s.now) then s.l1 else None
    else if s.l2.Some? && L2Live(s.l2.value, s.now) then s.l2 else None
  }

  predicate ReadsTier(pc: Pc) {
    pc.ReadL1? || pc.ReadL2? || pc.PollL1? || pc.PollL2?
  }

  /**
  Readers take what they find: a read of a tier, at the start of a call or in its wait loop, ends the call if and
  only if it works and finds a live envelope that is not null, and then with that envelope's value.
  */
  lemma ReadersTakeWhatTheyFind(s: State, id: Id, outcome: Outcome)
    requires Inv(s) && id in s.tasks && ReadsTier(s.tasks[id].pc) && !outcome.Cancelled?
    ensures
      var e, after := Found(s, s.tasks[id].pc.ReadL1? || s.tasks[id].pc.PollL1?), Step(s, Act(id, outcome)).tasks[id];
      if outcome.Works? && e.Some? && e.value.source.data.Some?
      then after.pc == Done(Value(e.value.source.data.value, Cached(e.value, s.now)))
      else !after.pc.Done?
  {
    var t := s.tasks[id];
    assert id < s.next;
    if Waiting(t.pc) {
      PollTakes(s, t, outcome);
    } else {
      ReadTakes(s, id, t, outcome);
    }
  }

  lemma PollTakes(s: State, t: Task, outcome: Outcome)
    requires t.pc.PollL1? || t.pc.PollL2?
    ensures
      var e, after := Found(s, t.pc.PollL1?), Polling(s, t, outcome);
      if outcome.Works? && e.Some? && e.value.source.data.Some?
      then after.pc == Done(Value(e.value.source.data.value, Cached(e.value, s.now)))
      else !after.pc.Done?
  {
  }

  lemma ReadTakes(s: State, id: Id, t: Task, outcome: Outcome)
    requires (t.pc.ReadL1? || t.pc.ReadL2?) && id < s.next
    ensures
      var e, s' := Found(s, t.pc.ReadL1?), Reading(s, id, t, outcome);
      && id in s'.tasks
      && if outcome.Works? && e.Some? && e.value.source.data.Some?
         then s'.tasks[id].pc == Done(Value(e.value.source.data.value, Cached(e.value, s.now)))
         else !s'.tasks[id].pc.Done?
  {
  }

  predicate IsDropped(s: State, id: Id) {
    id in s.tasks && Dropped(s.tasks[id].pc)
  }

  predicate EverDropped(s: State, es: seq<Event>, id: Id)
    decreases |es|
  {
    IsDropped(s, id) || (es != [] && EverDropped(Step(s, es[0]), es[1..], id))
  }

  /** The task is cancelled before it is done. */
  predicate IsCancelled(s: State, e: Event, id: Id) {
    e == Act(id, Cancelled) && id in s.tasks && !s.tasks[id].pc.Done?
  }

  predicate EverCancelled(s: State, es: seq<Event>, id: Id)
    decreases |es|
  {
    es != [] && (IsCancelled(s, es[0], id) || EverCancelled(Step(s, es[0]), es[1..], id))
  }

  lemma FinishedDrops(t: Task, now: Time, why: Why, made: Option<Completion>, aborted: bool)
    ensures Dropped(Finished(t, now, why, made, aborted).pc) <==> aborted
    ensures Dropped(Leaving(t, now, why, made, aborted).pc) <==> aborted
  {
  }

  lemma RefreshDropsNothing(s: State, id: Id, t: Task, outcome: Outcome)
    requires InRefresh(t.pc)
    ensures var s' := Refresh(s, id, t, outcome); id in s'.tasks && (Dropped(s'.tasks[id].pc) <==> Dropped(t.pc))
  {
    match t.pc {
      case Refreshing(why) => FinishedDrops(t, s.now, why, None, false);
      case WriteL1(_, _) =>
      case WriteL2(why, made) => FinishedDrops(t, s.now, why, Some(made), false);
      case Releasing(why, kept, aborted) => FinishedDrops(t, s.now, why, kept, aborted);
    }
  }

  lemma ReadingDropsNothing(s: State, id: Id, t: Task, outcome: Outcome)
    requires id < s.next && (t.pc.ReadL1? || t.pc.ReadL2? || t.pc.Gate?)
    ensures var s' := Reading(s, id, t, outcome); id in s'.tasks && !Dropped(s'.tasks[id].pc)
  {
  }

  lemma CancelDrops(s: State, id: Id)
    requires id in s.tasks && !s.tasks[id].pc.Done?
    ensures id in CancelledIn(s, id).tasks && Dropped(CancelledIn(s, id).tasks[id].pc)
  {
    var t := s.tasks[id];
    if t.pc.Refreshing? || t.pc.WriteL1? || t.pc.WriteL2? {
      FinishedDrops(t, s.now, t.pc.why, None, true);
    }
  }

  lemma MoverDropsNothing(s: State, id: Id, outcome: Outcome)
    requires id in s.tasks && id < s.next
    ensures id in Moved(s, id, outcome).tasks && (Dropped(Moved(s, id, outcome).tasks[id].pc) <==> Dropped(s.tasks[id].pc))
  {
    var t := s.tasks[id];
    if t.pc.Done? {
    } else if t.pc.Acquire? {
      FinishedDrops(t, s.now, t.pc.why, None, false);
    } else if InRefresh(t.pc) {
      RefreshDropsNothing(s, id, t, outcome);
    } else if Waiting(t.pc) {
      assert !Dropped(Polling(s, t, outcome).pc);
    } else {
      ReadingDropsNothing(s, id, t, outcome);
    }
  }

  lemma StepDropsIff(s: State, e: Event, id: Id)
    requires Inv(s)
    ensures IsDropped(Step(s, e), id) <==> IsDropped(s, id) || IsCancelled(s, e, id)
  {
    if e.Act? && e.id in s.tasks {
      if id != e.id {
        OthersStay(s, e.id, e.outcome, id);
      } else {
        assert id < s.next;
        if !e.outcome.Cancelled? {
          MoverDropsNothing(s, id, e.outcome);
        } else if !s.tasks[id].pc.Done? {
          CancelDrops(s, id);
        }
      }
    }
  }

  lemma {:induction false} RunDropsIff(s: State, es: seq<Event>, id: Id)
    requires Inv(s)
    ensures IsDropped(Run(s, es), id) <==> IsDropped(s, id) || EverCancelled(s, es, id)
    decreases |es|
  {
    if es != [] {
      StepDropsIff(s, es[0], id);
      StepKeepsInv(s, es[0]);
      RunDropsIff(Step(s, es[0]), es[1..], id);
    }
  }

  /**
  Cancellation. At the end of every run a task is aborted, or on its way out through its release, if and only if it
  was cancelled before it was done; so a cancelled call never delivers a value, nor goes on to wait or refresh.
  */
  lemma AbortedIffCancelled(start: Time, es: seq<Event>, id: Id)
    ensures
      var s := Run(Start(start), es);
      (id in s.tasks && (s.tasks[id].pc == Done(Aborted) || (s.tasks[id].pc.Releasing? && s.tasks[id].pc.aborted)))
      <==> EverCancelled(Start(start), es, id)
  {
    RunDropsIff(Start(start), es, id);
  }

  /** A background runner that has got past its gate to the lock. */
  predicate IsPastGate(s: State, id: Id) {
    id in s.tasks && s.tasks[id].background && (s.tasks[id].pc.Acquire? || s.tasks[id].refreshes > 0)
  }

  predicate EverPastGate(s: State, es: seq<Event>, id: Id)
    decreases |es|
  {
    IsPastGate(s, id) || (es != [] && EverPastGate(Step(s, es[0]), es[1..], id))
  }

  /** `should_refresh` lets the runner through. */
  predicate PassesGate(s: State, e: Event, id: Id) {
    e == Act(id, Works) && id in s.tasks && s.tasks[id].pc.Gate?
  }

  predicate EverPassesGate(s: State, es: seq<Event>, id: Id)
    decreases |es|
  {
    es != [] && (PassesGate(s, es[0], id) || EverPassesGate(Step(s, es[0]), es[1..], id))
  }

  lemma GateIff(s: State, id: Id, outcome: Outcome)
    requires Inv(s) && id in s.tasks && s.tasks[id].background && !IsPastGate(s, id)
    ensures IsPastGate(Step(s, Act(id, outcome)), id) <==> PassesGate(s, Act(id, outcome), id)
  {
    var t := s.tasks[id];
    assert GoodTask(ViewOf(s), id, t) && id < s.next;
    assert t.pc.Gate? || t.pc.Done?;
  }

  lemma StepPastGateIff(s: State, e: Event, id: Id)
    requires Inv(s) && !IsPastGate(s, id)
    ensures IsPastGate(Step(s, e), id) <==> PassesGate(s, e, id)
  {
    if e.Act? && e.id in s.tasks {
      if id != e.id {
        OthersStay(s, e.id, e.outcome, id);
      } else if s.tasks[id].background {
        GateIff(s, id, e.outcome);
      } else {
        assert GoodTask(ViewOf(s), id, s.tasks[id]) && id < s.next;
        BackgroundStays(s, id, e.outcome);
      }
    }
  }

  lemma {:induction false} RunPastGateIff(s: State, es: seq<Event>, id: Id)
    requires Inv(s) && !IsPastGate(s, id)
    ensures EverPastGate(s, es, id) <==> EverPassesGate(s, es, id)
    decreases |es|
  {
    if es != [] {
      StepPastGateIff(s, es[0], id);
      StepKeepsInv(s, es[0]);
      if !IsPastGate(Step(s, es[0]), id) {
        RunPastGateIff(Step(s, es[0]), es[1..], id);
      }
    }
  }

  /** The veto. In every run a background runner ever tries the lock or refreshes if and only if its gate let it through. */
  lemma VetoedRunnersNeverRefresh(start: Time, es: seq<Event>, id: Id)
    ensures EverPastGate(Start(start), es, id) <==> EverPassesGate(Start(start), es, id)
  {
    RunPastGateIff(Start(start), es, id);
  }

  /** Every release of the run works and is not cancelled. */
  predicate ReleasesWork(s: State, es: seq<Event>)
    decreases |es|
  {
    es != [] ==>
      && (es[0].Act? && es[0].id in s.tasks && s.tasks[es[0].id].pc.Releasing? ==> es[0].outcome.Works?)
      && ReleasesWork(Step(s, es[0]), es[1..])
  }

  /** A lock row is there only while the task that set it is at work under it. */
  predicate NoOrphan(s: State) {
    s.lock.Some? ==> s.lock.value.owner in s.tasks && s.tasks[s.lock.value.owner].claim == s.lock
  }

  /** A task that gives up its claim releases. */
  lemma MoverReleases(s: State, id: Id, outcome: Outcome)
    requires Inv(s) && id in s.tasks && s.tasks[id].claim.Some? && (s.tasks[id].pc.Releasing? ==> outcome.Works?)
    ensures
      var s' := Step(s, Act(id, outcome));
      id in s'.tasks && (s'.tasks[id].claim == s.tasks[id].claim || s'.lock == None)
  {
    var t := s.tasks[id];
    assert GoodTask(ViewOf(s), id, t) && id < s.next;
    if !outcome.Cancelled? {
      RefreshReleases(s, id, t, outcome);
    }
  }

  lemma RefreshReleases(s: State, id: Id, t: Task, outcome: Outcome)
    requires InRefresh(t.pc) && t.claim.Some? && (t.pc.Releasing? ==> outcome.Works?)
    ensures
      var s' := Refresh(s, id, t, outcome);
      id in s'.tasks && (s'.tasks[id].claim == t.claim || s'.lock == None)
  {
  }

  lemma StepLeavesNoOrphan(s: State, e: Event)
    requires Inv(s) && NoOrphan(s)
    requires e.Act? && e.id in s.tasks && s.tasks[e.id].pc.Releasing? ==> e.outcome.Works?
    ensures NoOrphan(Step(s, e))
  {
    if e.Act? && e.id in s.tasks {
      MoverClaims(s, e.id, e.outcome);
      if s.tasks[e.id].claim.Some? {
        MoverReleases(s, e.id, e.outcome);
      }
      if s.lock.Some? && s.lock.value.owner != e.id {
        OthersStay(s, e.id, e.outcome, s.lock.value.owner);
      }
    }
  }

  lemma {:induction false} RunLeavesNoOrphan(s: State, es: seq<Event>)
    requires Inv(s) && NoOrphan(s) && ReleasesWork(s, es)
    ensures NoOrphan(Run(s, es))
    decreases |es|
  {
    if es != [] {
      StepKeepsInv(s, es[0]);
      StepLeavesNoOrphan(s, es[0]);
      RunLeavesNoOrphan(Step(s, es[0]), es[1..]);
    }
  }

  /**
  Every lock is released. In every run in which the releases themselves work, however the refreshes end (with a
  value, with None, raising or cancelled), a lock row is there only while the task that set it is still at work.
  */
  lemma NobodyLeavesALock(start: Time, es: seq<Event>)
    requires ReleasesWork(Start(start), es)
    ensures
      var s := Run(Start(start), es);
      s.lock.Some? ==>
        s.lock.value.owner in s.tasks && s.tasks[s.lock.value.owner].claim == s.lock
        && InRefresh(s.tasks[s.lock.value.owner].pc)
  {
    RunKeepsInv(Start(start), es);
    RunLeavesNoOrphan(Start(start), es);
    var s := Run(Start(start), es);
    if s.lock.Some? {
      assert GoodTask(ViewOf(s), s.lock.value.owner, s.tasks[s.lock.value.owner]);
    }
  }

  // ---- Single flight --------------------------------------------------------------------------------

  /** Every lock holder is still inside its own lock's lifetime. */
  predicate HoldersInTime(s: State) {
    forall id :: id in s.tasks && s.tasks[id].claim.Some? ==> LockLive(s.tasks[id].claim.value, s.now)
  }

  /** Along the run holders finish in time, and L1 never loses the lock row under a holder. */
  predicate LocksLast(s: State, es: seq<Event>)
    decreases |es|
  {
    && HoldersInTime(s)
    && (es != [] ==>
          && (es[0].LoseLock? ==> forall id :: id in s.tasks ==> s.tasks[id].claim.None?)
          && LocksLast(Step(s, es[0]), es[1..]))
  }

  /** The lock row is the holder's own. */
  predicate LockIsClaimed(s: State) {
    forall id :: id in s.tasks && s.tasks[id].claim.Some? ==>
      s.lock == s.tasks[id].claim && s.lock.value.owner == id
  }

  /** From tasks to after, `other` stays as it is, or is a background task that has just been started. */
  predicate Bystander(tasks: map<Id, Task>, after: map<Id, Task>, other: Id, cfg: Config) {
    && (other in tasks ==> other in after && after[other] == tasks[other])
    && (other in after && other !in tasks ==> after[other] == NewTask(cfg, true))
  }

  /** Every move is a `Put`, over shared changes that leave the tasks alone or start a background task. */
  lemma OthersStay(s: State, id: Id, outcome: Outcome, other: Id)
    requires Inv(s) && id in s.tasks && other != id
    ensures Bystander(s.tasks, Step(s, Act(id, outcome)).tasks, other, s.tasks[id].cfg)
  {
    var t := s.tasks[id];
    assert id < s.next;
    if outcome.Cancelled? {
      CancelledOthers(s, id, other);
    } else if InRefresh(t.pc) {
      RefreshOthers(s, id, t, outcome, other);
    } else if t.pc.Acquire? {
      AcquiringOthers(s, id, t, outcome, other);
    } else if !t.pc.Done? && !Waiting(t.pc) {
      ReadingOthers(s, id, t, outcome, other);
    }
  }

  lemma CancelledOthers(s: State, id: Id, other: Id)
    requires id in s.tasks && other != id
    ensures Bystander(s.tasks, CancelledIn(s, id).tasks, other, s.tasks[id].cfg)
  {
  }

  lemma RefreshOthers(s: State, id: Id, t: Task, outcome: Outcome, other: Id)
    requires InRefresh(t.pc) && other != id
    ensures Bystander(s.tasks, Refresh(s, id, t, outcome).tasks, other, t.cfg)
  {
  }

  lemma AcquiringOthers(s: State, id: Id, t: Task, outcome: Outcome, other: Id)
    requires t.pc.Acquire? && other != id
    ensures Bystander(s.tasks, Acquiring(s, id, t, t.pc.why, outcome).tasks, other, t.cfg)
  {
  }

  lemma ReadingOthers(s: State, id: Id, t: Task, outcome: Outcome, other: Id)
    requires id < s.next && other != id && (forall k :: k in s.tasks ==> k < s.next)
    ensures Bystander(s.tasks, Reading(s, id, t, outcome).tasks, other, t.cfg)
  {
  }

  /** From s to s', the task takes a free lock, gives up the one it holds, or leaves lock and claim alone. */
  predicate Claims(s: State, s': State, id: Id, t: Task) {
    && id in s'.tasks
    && (|| (s'.lock == s.lock && s'.tasks[id].claim in {None, t.claim})
        || (t.claim.Some? && s'.lock == None && s'.tasks[id].claim == None)
        || (!(s.lock.Some? && LockLive(s.lock.value, s.now)) && s'.lock == s'.tasks[id].claim
            && s'.lock == Some(NewLock(id, t.cfg, s.now))))
  }

  lemma MoverClaims(s: State, id: Id, outcome: Outcome)
    requires Inv(s) && id in s.tasks
    ensures Claims(s, Step(s, Act(id, outcome)), id, s.tasks[id])
  {
    var t := s.tasks[id];
    assert GoodTask(ViewOf(s), id, t) && id < s.next;
    if outcome.Cancelled? {
      CancelledClaims(s, id);
    } else if InRefresh(t.pc) {
      RefreshClaims(s, id, t, outcome);
    } else if t.pc.Acquire? {
      AcquiringClaims(s, id, t, outcome);
    } else if !t.pc.Done? && !Waiting(t.pc) {
      ReadingClaims(s, id, t, outcome);
    }
  }

  lemma CancelledClaims(s: State, id: Id)
    requires id in s.tasks
    ensures Claims(s, CancelledIn(s, id), id, s.tasks[id])
  {
  }

  lemma RefreshClaims(s: State, id: Id, t: Task, outcome: Outcome)
    requires InRefresh(t.pc) && GoodClaim(id, t)
    ensures Claims(s, Refresh(s, id, t, outcome), id, t)
  {
  }

  lemma AcquiringClaims(s: State, id: Id, t: Task, outcome: Outcome)
    requires t.pc.Acquire?
    ensures Claims(s, Acquiring(s, id, t, t.pc.why, outcome), id, t)
  {
  }

  lemma ReadingClaims(s: State, id: Id, t: Task, outcome: Outcome)
    requires id < s.next
    ensures Claims(s, Reading(s, id, t, outcome), id, t)
  {
  }

  /** Only a working `SET NX` gives a task a lock it did not have. */
  lemma MoverTakes(s: State, id: Id, outcome: Outcome)
    requires Inv(s) && id in s.tasks
    ensures
      var s' := Step(s, Act(id, outcome));
      id in s'.tasks && s'.tasks[id].claim.Some? && s'.tasks[id].claim != s.tasks[id].claim ==>
        outcome.Works? && s.tasks[id].pc.Acquire?
  {
    var t := s.tasks[id];
    assert GoodTask(ViewOf(s), id, t) && id < s.next;
    if outcome.Cancelled? || t.pc.Acquire? || t.pc.Done? {
    } else if InRefresh(t.pc) {
      RefreshTakesNothing(s, id, t, outcome);
    } else if Waiting(t.pc) {
      assert Polling(s, t, outcome).claim == t.claim;
    } else {
      ReadingTakesNothing(s, id, t, outcome);
    }
  }

  lemma RefreshTakesNothing(s: State, id: Id, t: Task, outcome: Outcome)
    requires InRefresh(t.pc)
    ensures var s' := Refresh(s, id, t, outcome); id in s'.tasks && s'.tasks[id].claim in {None, t.claim}
  {
  }

  lemma ReadingTakesNothing(s: State, id: Id, t: Task, outcome: Outcome)
    requires id < s.next
    ensures var s' := Reading(s, id, t, outcome); id in s'.tasks && s'.tasks[id].claim == t.claim
  {
  }

  /** A task's working `SET NX` comes while another is still at work past its own lock's expiry. */
  predicate Overruns(s: State, e: Event) {
    && e.Act? && e.outcome.Works? && e.id in s.tasks && s.tasks[e.id].pc.Acquire?
    && exists holder :: holder in s.tasks && s.tasks[holder].claim.Some? && !LockLive(s.tasks[holder].claim.value, s.now)
  }

  lemma StepKeepsLockClaimed(s: State, e: Event)
    requires Inv(s) && LockIsClaimed(s) && !Overruns(s, e)
    requires e.LoseLock? ==> forall id :: id in s.tasks ==> s.tasks[id].claim.None?
    ensures LockIsClaimed(Step(s, e))
  {
    var s' := Step(s, e);
    if e.Act? && e.id in s.tasks {
      MoverClaims(s, e.id, e.outcome);
      MoverTakes(s, e.id, e.outcome);
      forall id | id in s'.tasks && s'.tasks[id].claim.Some?
        ensures s'.lock == s'.tasks[id].claim && s'.lock.value.owner == id
      {
        if id != e.id {
          OthersStay(s, e.id, e.outcome, id);
        }
      }
    }
  }

  lemma {:induction false} RunKeepsLockClaimed(s: State, es: seq<Event>)
    requires Inv(s) && LockIsClaimed(s) && LocksLast(s, es)
    ensures LockIsClaimed(Run(s, es))
    decreases |es|
  {
    if es != [] {
      StepKeepsLockClaimed(s, es[0]);
      StepKeepsInv(s, es[0]);
      RunKeepsLockClaimed(Step(s, es[0]), es[1..]);
    }
  }

  /**
  Single flight. In every interleaving of callers and background runners in which each holder finishes
  before its lock runs out (and L1 keeps the row meanwhile), at most one lock-holding refresh is in
  flight; every other refresh in flight is a cold caller's last resort.
  */
  lemma AtMostOneHolder(start: Time, es: seq<Event>, i: Id, j: Id)
    requires LocksLast(Start(start), es)
    requires i in Run(Start(start), es).tasks && j in Run(Start(start), es).tasks
    ensures
      var tasks := Run(Start(start), es).tasks;
      && (tasks[i].claim.Some? && tasks[j].claim.Some? ==> i == j)
      && (InRefresh(tasks[i].pc) && InRefresh(tasks[j].pc) && i != j ==>
            tasks[i].pc.why.LastResort? || tasks[j].pc.why.LastResort?)
  {
    RunKeepsLockClaimed(Start(start), es);
    UnlockedRefreshIsLastResort(start, es, i);
    UnlockedRefreshIsLastResort(start, es, j);
  }

  // ---- Exactly when single flight fails -----------------------------------------------------------

  predicate TwoHolders(s: State) {
    exists i, j :: i in s.tasks && j in s.tasks && i != j && s.tasks[i].claim.Some? && s.tasks[j].claim.Some?
  }

  predicate EverTwoHolders(s: State, es: seq<Event>)
    decreases |es|
  {
    TwoHolders(s) || (es != [] && EverTwoHolders(Step(s, es[0]), es[1..]))
  }

  /** A task's working `SET NX` finds no live row while another holds. */
  predicate TakesBeside(s: State, e: Event) {
    && e.Act? && e.outcome.Works? && e.id in s.tasks && s.tasks[e.id].pc.Acquire? && !Locked(s)
    && exists holder :: holder in s.tasks && s.tasks[holder].claim.Some?
  }

  predicate EverTakesBeside(s: State, es: seq<Event>)
    decreases |es|
  {
    es != [] && (TakesBeside(s, es[0]) || EverTakesBeside(Step(s, es[0]), es[1..]))
  }

  lemma TakerHoldsNothing(s: State, id: Id)
    requires Inv(s) && id in s.tasks && s.tasks[id].pc.Acquire?
    ensures s.tasks[id].claim.None?
  {
    assert GoodTask(ViewOf(s), id, s.tasks[id]);
  }

  lemma BesideMakesTwo(s: State, e: Event)
    requires Inv(s) && TakesBeside(s, e)
    ensures TwoHolders(Step(s, e))
  {
    var holder :| holder in s.tasks && s.tasks[holder].claim.Some?;
    TakerHoldsNothing(s, e.id);
    OthersStay(s, e.id, e.outcome, holder);
    assert Step(s, e).tasks[e.id].claim.Some?;
  }

  lemma TwoNeedBeside(s: State, e: Event)
    requires Inv(s) && !TwoHolders(s) && TwoHolders(Step(s, e))
    ensures TakesBeside(s, e)
  {
    var s' := Step(s, e);
    var i, j :| i in s'.tasks && j in s'.tasks && i != j && s'.tasks[i].claim.Some? && s'.tasks[j].claim.Some?;
    if e.Act? && e.id in s.tasks {
      MoverClaims(s, e.id, e.outcome);
      MoverTakes(s, e.id, e.outcome);
      if i != e.id {
        OthersStay(s, e.id, e.outcome, i);
      }
      if j != e.id {
        OthersStay(s, e.id, e.outcome, j);
      }
      if s.tasks[e.id].pc.Acquire? {
        TakerHoldsNothing(s, e.id);
      }
    }
  }

  lemma {:induction false} RunTakesBesideIff(s: State, es: seq<Event>)
    requires Inv(s) && !TwoHolders(s)
    ensures EverTwoHolders(s, es) <==> EverTakesBeside(s, es)
    decreases |es|
  {
    if es != [] {
      if TakesBeside(s, es[0]) {
        BesideMakesTwo(s, es[0]);
        assert EverTwoHolders(Step(s, es[0]), es[1..]);
      } else {
        if TwoHolders(Step(s, es[0])) {
          TwoNeedBeside(s, es[0]);
        }
        StepKeepsInv(s, es[0]);
        RunTakesBesideIff(Step(s, es[0]), es[1..]);
      }
    }
  }

  /**
  Exactly when single flight fails, in any run at all: two tasks ever hold the lock if and only if a working
  attempt at it finds no live row while another task holds it.
  */
  lemma TwoHoldersIff(start: Time, es: seq<Event>)
    ensures EverTwoHolders(Start(start), es) <==> EverTakesBeside(Start(start), es)
  {
    RunTakesBesideIff(Start(start), es);
  }

  predicate EverOverruns(s: State, es: seq<Event>)
    decreases |es|
  {
    es != [] && (Overruns(s, es[0]) || EverOverruns(Step(s, es[0]), es[1..]))
  }

  /** L1 never loses the lock row under a holder. */
  predicate LockKept(s: State, es: seq<Event>)
    decreases |es|
  {
    es != [] ==>
      && (es[0].LoseLock? ==> forall id :: id in s.tasks ==> s.tasks[id].claim.None?)
      && LockKept(Step(s, es[0]), es[1..])
  }

  /** The row of an overrun holder is dead, so the other task takes the lock beside it. */
  lemma OverrunMakesTwo(s: State, e: Event)
    requires Inv(s) && LockIsClaimed(s) && Overruns(s, e)
    ensures TwoHolders(Step(s, e))
  {
    var holder :| holder in s.tasks && s.tasks[holder].claim.Some? && !LockLive(s.tasks[holder].claim.value, s.now);
    assert GoodClaim(e.id, s.tasks[e.id]) by {
      assert GoodTask(ViewOf(s), e.id, s.tasks[e.id]);
    }
    assert holder != e.id && s.lock == s.tasks[holder].claim;
    OthersStay(s, e.id, e.outcome, holder);
    assert Step(s, e).tasks[e.id].claim.Some?;
  }

  lemma {:induction false} RunHasTwoHoldersIff(s: State, es: seq<Event>)
    requires Inv(s) && LockIsClaimed(s) && LockKept(s, es)
    ensures EverTwoHolders(s, es) <==> EverOverruns(s, es)
    decreases |es|
  {
    assert !TwoHolders(s);
    if es != [] {
      if Overruns(s, es[0]) {
        OverrunMakesTwo(s, es[0]);
        assert EverTwoHolders(Step(s, es[0]), es[1..]);
      } else {
        StepKeepsLockClaimed(s, es[0]);
        StepKeepsInv(s, es[0]);
        RunHasTwoHoldersIff(Step(s, es[0]), es[1..]);
      }
    }
  }

  /**
  And the time is to blame, unless L1 is: in every run in which L1 does not lose the lock row under a holder, two tasks
  ever hold the lock if and only if somebody's working attempt at it comes while another holder is still at work
  past its own lock's expiry. A holder that overruns while nobody tries the lock does no harm.
  */
  lemma SecondHolderIff(start: Time, es: seq<Event>)
    requires LockKept(Start(start), es)
    ensures EverTwoHolders(Start(start), es) <==> EverOverruns(Start(start), es)
  {
    RunHasTwoHoldersIff(Start(start), es);
  }

  // ---- Exactly when a caller refreshes on its own ----------------------------------------------------

  predicate Locked(s: State) {
    s.lock.Some? && LockLive(s.lock.value, s.now)
  }

  /** A foreground task that has come to its own refresh. */
  predicate OnItsOwn(t: Task) {
    !t.background && (t.pc == Acquire(LastResort) || InRefresh(t.pc) || t.refreshes > 0)
  }

  predicate IsOnItsOwn(s: State, id: Id) {
    id in s.tasks && OnItsOwn(s.tasks[id])
  }

  predicate EverOnItsOwn(s: State, es: seq<Event>, id: Id)
    decreases |es|
  {
    IsOnItsOwn(s, id) || (es != [] && EverOnItsOwn(Step(s, es[0]), es[1..], id))
  }

  /**
  An uncancelled step of the task at the lock: its first try works and finds no live row, or its poll of the lock
  fails, finds no live row, or comes at or after the deadline.
  */
  predicate FindsNoHolder(s: State, e: Event, id: Id) {
    && e.Act? && e.id == id && !e.outcome.Cancelled? && id in s.tasks
    && match s.tasks[id].pc
       case Acquire(FirstTry) => e.outcome.Works? && !Locked(s)
       case PollLock(deadline) => !e.outcome.Works? || !Locked(s) || deadline <= s.now
       case _ => false
  }

  predicate EverFindsNoHolder(s: State, es: seq<Event>, id: Id)
    decreases |es|
  {
    es != [] && (FindsNoHolder(s, es[0], id) || EverFindsNoHolder(Step(s, es[0]), es[1..], id))
  }

  lemma BackgroundStays(s: State, id: Id, outcome: Outcome)
    requires id in s.tasks && id < s.next
    ensures
      var s' := Step(s, Act(id, outcome));
      id in s'.tasks && s'.tasks[id].background == s.tasks[id].background
  {
    if !outcome.Cancelled? && !s.tasks[id].pc.Done? {
      StillBackground(s, id, outcome);
    }
  }

  lemma PollingOwnIff(s: State, t: Task, outcome: Outcome)
    requires Waiting(t.pc) && !t.background && t.refreshes == 0 && (t.pc.Asleep? ==> t.pc.until <= s.now)
    ensures
      OnItsOwn(Polling(s, t, outcome))
      <==> t.pc.PollLock? && (!outcome.Works? || !Locked(s) || t.pc.deadline <= s.now)
  {
  }

  lemma ReadingNotOwn(s: State, id: Id, t: Task, outcome: Outcome)
    requires id < s.next && !t.background && t.refreshes == 0 && (t.pc.ReadL1? || t.pc.ReadL2?)
    ensures var s' := Reading(s, id, t, outcome); id in s'.tasks && !OnItsOwn(s'.tasks[id])
  {
  }

  lemma ForegroundOwnIff(s: State, id: Id, outcome: Outcome)
    requires Inv(s) && id in s.tasks && !s.tasks[id].background && !OnItsOwn(s.tasks[id])
    ensures IsOnItsOwn(Step(s, Act(id, outcome)), id) <==> FindsNoHolder(s, Act(id, outcome), id)
  {
    var t := s.tasks[id];
    assert GoodTask(ViewOf(s), id, t) && id < s.next;
    if outcome.Cancelled? || t.pc.Done? || t.pc.Acquire? {
    } else if Waiting(t.pc) {
      if !(t.pc.Asleep? && s.now < t.pc.until) {
        PollingOwnIff(s, t, outcome);
      }
    } else {
      ReadingNotOwn(s, id, t, outcome);
    }
  }

  lemma StepOwnIff(s: State, e: Event, id: Id)
    requires Inv(s) && !IsOnItsOwn(s, id)
    ensures IsOnItsOwn(Step(s, e), id) <==> FindsNoHolder(s, e, id)
  {
    if e.Act? && e.id in s.tasks {
      if id != e.id {
        OthersStay(s, e.id, e.outcome, id);
      } else if s.tasks[id].background {
        assert GoodTask(ViewOf(s), id, s.tasks[id]) && id < s.next;
        BackgroundStays(s, id, e.outcome);
      } else {
        ForegroundOwnIff(s, id, e.outcome);
      }
    }
  }

  lemma {:induction false} RunOwnIff(s: State, es: seq<Event>, id: Id)
    requires Inv(s) && !IsOnItsOwn(s, id)
    ensures EverOnItsOwn(s, es, id) <==> EverFindsNoHolder(s, es, id)
    decreases |es|
  {
    if es != [] {
      StepOwnIff(s, es[0], id);
      StepKeepsInv(s, es[0]);
      if !IsOnItsOwn(Step(s, es[0]), id) {
        RunOwnIff(Step(s, es[0]), es[1..], id);
      }
    }
  }

  /**
  Exactly when a caller comes to a refresh of its own. In every continuation of every run, a task that has not
  come to one (or that arrives) does so if and only if in one of its own steps its first try at the lock works and
  finds no live row, or a later poll of the lock fails, finds no live row, or comes at or after the deadline.
  Neither looks at the tiers again, so the value may be there by then.
  */
  lemma CallerRefreshesIff(start: Time, before: seq<Event>, es: seq<Event>, id: Id)
    requires !IsOnItsOwn(Run(Start(start), before), id)
    ensures EverOnItsOwn(Run(Start(start), before), es, id) <==> EverFindsNoHolder(Run(Start(start), before), es, id)
  {
    RunKeepsInv(Start(start), before);
    RunOwnIff(Run(Start(start), before), es, id);
  }

  // ---- When a caller blocks, and how the tiers keep it from that -----------------------------------------

  /** A caller that blocks on a foreground refresh, or is about to. */
  predicate Blocked(t: Task) {
    && !t.background
    && (t.pc.Acquire? || InRefresh(t.pc) || Waiting(t.pc) || (t.pc.Done? && (t.refreshes > 0 || t.rounds > 0)))
  }

  /** The last write L2 accepted is non-null and unexpired. */
  predicate Covered(s: State) {
    s.lastL2.Some? && s.lastL2.value.source.data.Some? && L2Live(s.lastL2.value, s.now)
  }

  /** The event is no failing read of L2. */
  predicate L2Answers(s: State, e: Event) {
    e.Act? && e.id in s.tasks && s.tasks[e.id].pc.ReadL2? ==> e.outcome.Works? || e.outcome.Cancelled?
  }

  predicate CoveredRun(s: State, es: seq<Event>)
    decreases |es|
  {
    Covered(s) && (es != [] ==> L2Answers(s, es[0]) && CoveredRun(Step(s, es[0]), es[1..]))
  }

  /** L1 holds a null envelope that a read would find. */
  predicate NullInL1(s: State) {
    s.l1.Some? && L1Live(s.l1.value, s.now) && s.l1.value.source.data.None?
  }

  /** The event is a task's first read of L1, and it finds a null envelope. */
  predicate FindsNull(s: State, e: Event, id: Id) {
    e == Act(id, Works) && id in s.tasks && s.tasks[id].pc.ReadL1? && NullInL1(s)
  }

  predicate EverFindsNull(s: State, es: seq<Event>, id: Id)
    decreases |es|
  {
    es != [] && (FindsNull(s, es[0], id) || EverFindsNull(Step(s, es[0]), es[1..], id))
  }

  predicate IsBlocked(s: State, id: Id) {
    id in s.tasks && Blocked(s.tasks[id])
  }

  /** The task is blocked in some state of the run. */
  predicate EverBlocked(s: State, es: seq<Event>, id: Id)
    decreases |es|
  {
    IsBlocked(s, id) || (es != [] && EverBlocked(Step(s, es[0]), es[1..], id))
  }

  /** No refresh returns None in the run. */
  predicate NoNullRefresh(es: seq<Event>) {
    forall i :: 0 <= i < |es| ==> es[i].Act? ==> es[i].outcome != Yields(None)
  }

  /** No null envelope is in L1, or about to be written there. */
  predicate NullFree(s: State) {
    !NullInL1(s) && forall id :: id in s.tasks && s.tasks[id].pc.WriteL1? ==> s.tasks[id].pc.made.data.Some?
  }

  /**
  Exactly when a covered caller turns cold: at its L1 read, and only when L1 holds a live null envelope,
  which hides the good L2 row from it.
  */
  lemma CoveredReaderBlocksIff(s: State, id: Id, outcome: Outcome)
    requires Inv(s) && Covered(s) && id in s.tasks && (s.tasks[id].pc.ReadL1? || s.tasks[id].pc.ReadL2?)
    requires !outcome.Cancelled? && (s.tasks[id].pc.ReadL2? ==> outcome.Works?)
    ensures
      Blocked(Step(s, Act(id, outcome)).tasks[id])
      <==> s.tasks[id].pc.ReadL1? && outcome.Works? && NullInL1(s)
  {
    assert GoodTask(ViewOf(s), id, s.tasks[id]);
  }

  /** The event is a task's first read of L2, and it finds nothing to serve. */
  predicate MissesL2(s: State, e: Event, id: Id) {
    && e.Act? && e.id == id && !e.outcome.Cancelled? && id in s.tasks && s.tasks[id].pc.ReadL2?
    && !(e.outcome.Works? && s.l2.Some? && L2Live(s.l2.value, s.now) && s.l2.value.source.data.Some?)
  }

  predicate EverMissesL2(s: State, es: seq<Event>, id: Id)
    decreases |es|
  {
    es != [] && (MissesL2(s, es[0], id) || EverMissesL2(Step(s, es[0]), es[1..], id))
  }

  lemma ReaderBlocksIff(s: State, id: Id, outcome: Outcome)
    requires Inv(s) && id in s.tasks && (s.tasks[id].pc.ReadL1? || s.tasks[id].pc.ReadL2?) && !outcome.Cancelled?
    ensures IsBlocked(Moved(s, id, outcome), id)
       <==> FindsNull(s, Act(id, outcome), id) || MissesL2(s, Act(id, outcome), id)
  {
    assert GoodTask(ViewOf(s), id, s.tasks[id]) && id < s.next;
  }

  /** A task becomes blocked in its first reads, and nowhere else. */
  lemma StepBlocksIff(s: State, e: Event, id: Id)
    requires Inv(s) && !IsBlocked(s, id)
    ensures IsBlocked(Step(s, e), id) <==> FindsNull(s, e, id) || MissesL2(s, e, id)
  {
    if e.Act? && e.id in s.tasks {
      if id != e.id {
        OthersStay(s, e.id, e.outcome, id);
      } else {
        MoverBlocksIff(s, id, e.outcome);
      }
    }
  }

  lemma MoverBlocksIff(s: State, id: Id, outcome: Outcome)
    requires Inv(s) && id in s.tasks && !Blocked(s.tasks[id])
    ensures IsBlocked(Step(s, Act(id, outcome)), id)
       <==> FindsNull(s, Act(id, outcome), id) || MissesL2(s, Act(id, outcome), id)
  {
    var t := s.tasks[id];
    assert GoodTask(ViewOf(s), id, t) && id < s.next;
    if outcome.Cancelled? {
    } else if t.pc.ReadL1? || t.pc.ReadL2? {
      ReaderBlocksIff(s, id, outcome);
    } else if !t.pc.Done? {
      StillBackground(s, id, outcome);
    }
  }

  lemma StillBackground(s: State, id: Id, outcome: Outcome)
    requires id in s.tasks && id < s.next && !s.tasks[id].pc.Done?
    ensures id in Moved(s, id, outcome).tasks && Moved(s, id, outcome).tasks[id].background == s.tasks[id].background
  {
    var t := s.tasks[id];
    if InRefresh(t.pc) {
      assert Refresh(s, id, t, outcome).tasks[id].background == t.background;
    } else if Waiting(t.pc) {
      assert Polling(s, t, outcome).background == t.background;
    }
  }

  lemma {:induction false} RunBlocksIff(s: State, es: seq<Event>, id: Id)
    requires Inv(s) && !IsBlocked(s, id)
    ensures EverBlocked(s, es, id) <==> EverFindsNull(s, es, id) || EverMissesL2(s, es, id)
    decreases |es|
  {
    if es != [] {
      StepBlocksIff(s, es[0], id);
      StepKeepsInv(s, es[0]);
      if IsBlocked(Step(s, es[0]), id) {
        assert EverBlocked(Step(s, es[0]), es[1..], id);
      } else {
        RunBlocksIff(Step(s, es[0]), es[1..], id);
      }
    }
  }

  /** While L2 covers the key and answers, no first read of it comes back empty. */
  lemma {:induction false} CoveredRunMissesNothing(s: State, es: seq<Event>, id: Id)
    requires Inv(s) && CoveredRun(s, es)
    ensures !EverMissesL2(s, es, id)
    decreases |es|
  {
    if es != [] {
      StepKeepsInv(s, es[0]);
      CoveredRunMissesNothing(Step(s, es[0]), es[1..], id);
    }
  }

  /** What a move does to L1, and the null it may be about to write. */
  lemma MoverNullFree(s: State, id: Id, outcome: Outcome)
    requires id in s.tasks && id < s.next && NullFree(s) && outcome != Yields(None)
    ensures
      var s' := Step(s, Act(id, outcome));
      && id in s'.tasks && !NullInL1(s') && (s'.tasks[id].pc.WriteL1? ==> s'.tasks[id].pc.made.data.Some?)
  {
    var t := s.tasks[id];
    if outcome.Cancelled? || t.pc.Done? || t.pc.Acquire? {
    } else if InRefresh(t.pc) {
      RefreshNullFree(s, id, t, outcome);
    } else if Waiting(t.pc) {
      assert !Polling(s, t, outcome).pc.WriteL1?;
    } else {
      ReadingNullFree(s, id, t, outcome);
    }
  }

  lemma RefreshNullFree(s: State, id: Id, t: Task, outcome: Outcome)
    requires InRefresh(t.pc) && !NullInL1(s) && outcome != Yields(None)
    requires t.pc.WriteL1? ==> t.pc.made.data.Some?
    ensures
      var s' := Refresh(s, id, t, outcome);
      && id in s'.tasks && !NullInL1(s') && (s'.tasks[id].pc.WriteL1? ==> s'.tasks[id].pc.made.data.Some?)
  {
  }

  lemma ReadingNullFree(s: State, id: Id, t: Task, outcome: Outcome)
    requires id < s.next && !NullInL1(s)
    ensures
      var s' := Reading(s, id, t, outcome);
      id in s'.tasks && !NullInL1(s') && !s'.tasks[id].pc.WriteL1?
  {
  }

  lemma StepKeepsNullFree(s: State, e: Event)
    requires Inv(s) && NullFree(s) && (e.Act? ==> e.outcome != Yields(None))
    ensures NullFree(Step(s, e))
  {
    var s' := Step(s, e);
    if e.Act? && e.id in s.tasks {
      assert e.id < s.next;
      MoverNullFree(s, e.id, e.outcome);
      forall id | id in s'.tasks && s'.tasks[id].pc.WriteL1? ensures s'.tasks[id].pc.made.data.Some? {
        if id != e.id {
          OthersStay(s, e.id, e.outcome, id);
        }
      }
    }
  }

  lemma {:induction false} NullFreeRunFindsNoNull(s: State, es: seq<Event>, id: Id)
    requires Inv(s) && NullFree(s) && NoNullRefresh(es)
    ensures !EverFindsNull(s, es, id)
    decreases |es|
  {
    if es != [] {
      StepKeepsInv(s, es[0]);
      StepKeepsNullFree(s, es[0]);
      NullFreeRunFindsNoNull(Step(s, es[0]), es[1..], id);
    }
  }

  /**
  Exactly when a caller blocks. In every continuation of every run, a task that was not blocked (or that arrives)
  comes to take the lock, wait or refresh in the foreground if and only if its own first read of L1 finds a null
  envelope, or its own first read of L2 fails or finds nothing unexpired and non-null.
  */
  lemma CallersBlockIff(start: Time, before: seq<Event>, es: seq<Event>, id: Id)
    requires !IsBlocked(Run(Start(start), before), id)
    ensures
      var s := Run(Start(start), before);
      EverBlocked(s, es, id) <==> EverFindsNull(s, es, id) || EverMissesL2(s, es, id)
  {
    RunKeepsInv(Start(start), before);
    RunBlocksIff(Run(Start(start), before), es, id);
  }

  /**
  Exactly when a caller blocks while L2 covers the key. After any run, take any stretch throughout which the
  last write L2 accepted is non-null and unexpired and L2 answers its reads. Whatever L1 losses, L2 purges,
  competing stores and null refreshes happen, a task that was not blocked at its start (or arrives in it) comes
  to take the lock, wait or refresh in the foreground if and only if its own first L1 read finds a null envelope.
  */
  lemma CoveredCallersBlockIff(start: Time, before: seq<Event>, es: seq<Event>, id: Id)
    requires CoveredRun(Run(Start(start), before), es) && !IsBlocked(Run(Start(start), before), id)
    ensures EverBlocked(Run(Start(start), before), es, id) <==> EverFindsNull(Run(Start(start), before), es, id)
  {
    var s := Run(Start(start), before);
    RunKeepsInv(Start(start), before);
    RunBlocksIff(s, es, id);
    CoveredRunMissesNothing(s, es, id);
  }

  /**
  So nobody waits while L2 covers the key, when no null envelope is in L1 or on its way there at the start of
  the stretch, and no refresh returns None in it. What refreshers returned before does not matter.
  */
  lemma CoveredCallersNeverBlock(start: Time, before: seq<Event>, es: seq<Event>, id: Id)
    requires CoveredRun(Run(Start(start), before), es) && !IsBlocked(Run(Start(start), before), id)
    requires NullFree(Run(Start(start), before)) && NoNullRefresh(es)
    ensures !EverBlocked(Run(Start(start), before), es, id)
    ensures !IsBlocked(Run(Run(Start(start), before), es), id)
  {
    var s := Run(Start(start), before);
    RunKeepsInv(Start(start), before);
    NullFreeRunFindsNoNull(s, es, id);
    CoveredCallersBlockIff(start, before, es, id);
    EndIsInRun(s, es, id);
  }

  /** L1 holds a live envelope that is not null. */
  predicate L1Serves(s: State) {
    s.l1.Some? && L1Live(s.l1.value, s.now) && s.l1.value.source.data.Some?
  }

  /** The event is no failing first read of L1. */
  predicate L1Answers(s: State, e: Event) {
    e.Act? && e.id in s.tasks && s.tasks[e.id].pc.ReadL1? ==> e.outcome.Works? || e.outcome.Cancelled?
  }

  predicate L1ServedRun(s: State, es: seq<Event>)
    decreases |es|
  {
    L1Serves(s) && (es != [] ==> L1Answers(s, es[0]) && L1ServedRun(Step(s, es[0]), es[1..]))
  }

  /** The task is past L1, about to read L2. */
  predicate AtL2(s: State, id: Id) {
    id in s.tasks && s.tasks[id].pc.ReadL2?
  }

  lemma StepStaysOffL2(s: State, e: Event, id: Id)
    requires Inv(s) && L1Serves(s) && L1Answers(s, e) && !AtL2(s, id)
    ensures !AtL2(Step(s, e), id)
  {
    if e.Act? && e.id in s.tasks {
      if id != e.id {
        OthersStay(s, e.id, e.outcome, id);
      } else if !e.outcome.Cancelled? {
        assert id < s.next;
        MoverStaysOffL2(s, id, e.outcome);
      }
    }
  }

  lemma MoverStaysOffL2(s: State, id: Id, outcome: Outcome)
    requires id in s.tasks && id < s.next && !s.tasks[id].pc.ReadL2?
    requires s.tasks[id].pc.ReadL1? ==> outcome.Works? && L1Serves(s)
    ensures !AtL2(Moved(s, id, outcome), id)
  {
    var t := s.tasks[id];
    if t.pc.Done? || t.pc.Acquire? {
    } else if InRefresh(t.pc) {
      assert !Refresh(s, id, t, outcome).tasks[id].pc.ReadL2?;
    } else if Waiting(t.pc) {
      assert !Polling(s, t, outcome).pc.ReadL2?;
    } else {
      assert !Reading(s, id, t, outcome).tasks[id].pc.ReadL2?;
    }
  }

  lemma {:induction false} L1ServedRunBlocksNobody(s: State, es: seq<Event>, id: Id)
    requires Inv(s) && L1ServedRun(s, es)
    ensures !EverFindsNull(s, es, id) && (!AtL2(s, id) ==> !EverMissesL2(s, es, id))
    decreases |es|
  {
    if es != [] {
      StepKeepsInv(s, es[0]);
      if !AtL2(s, id) {
        StepStaysOffL2(s, es[0], id);
      }
      L1ServedRunBlocksNobody(Step(s, es[0]), es[1..], id);
    }
  }

  /**
  L1 alone is enough too. Through any stretch throughout which L1 holds a live envelope that is not null and answers
  its first reads, nobody blocks but a task that had missed L1 before, and it if and only if its read of L2 fails or
  finds nothing.
  */
  lemma L1ServedCallersBlockIff(start: Time, before: seq<Event>, es: seq<Event>, id: Id)
    requires L1ServedRun(Run(Start(start), before), es) && !IsBlocked(Run(Start(start), before), id)
    ensures
      var s := Run(Start(start), before);
      && (EverBlocked(s, es, id) <==> EverMissesL2(s, es, id))
      && (EverBlocked(s, es, id) ==> AtL2(s, id))
  {
    RunKeepsInv(Start(start), before);
    CallersBlockIff(start, before, es, id);
    L1ServedRunBlocksNobody(Run(Start(start), before), es, id);
  }

  lemma {:induction false} EndIsInRun(s: State, es: seq<Event>, id: Id)
    ensures IsBlocked(Run(s, es), id) ==> EverBlocked(s, es, id)
    decreases |es|
  {
    if es != [] {
      EndIsInRun(Step(s, es[0]), es[1..], id);
    }
  }

  // ---- What does not hold ---------------------------------------------------------------------------

  lemma {:induction false} RunInTwo(s: State, xs: seq<Event>, ys: seq<Event>)
    ensures Run(s, xs + ys) == Run(Run(s, xs), ys)
    decreases |xs|
  {
    if xs == [] {
      assert xs + ys == ys;
    } else {
      assert (xs + ys)[1..] == xs[1..] + ys;
      RunInTwo(Step(s, xs[0]), xs[1..], ys);
    }
  }

  lemma RunOne(s: State, e: Event)
    ensures Run(s, [e]) == Step(s, e)
  {
    assert Run(Step(s, e), [e][1..]) == Step(s, e);
  }

  /** Four steps, by way of the state after two. */
  lemma RunFour(s: State, a: Event, b: Event, mid: State, c: Event, d: Event, end: State)
    requires Step(Step(s, a), b) == mid && Step(Step(mid, c), d) == end
    ensures Run(s, [a] + [b] + [c] + [d]) == end
  {
    RunOne(s, a);
    RunOne(Step(s, a), b);
    RunOne(mid, c);
    RunOne(Step(mid, c), d);
    RunInTwo(s, [a], [b]);
    RunInTwo(s, [a] + [b], [c]);
    RunInTwo(s, [a] + [b] + [c], [d]);
  }

  /** A cold call, up to the moment its refresher starts. */
  function ColdCall(cfg: Config, id: Id): seq<Event> {
    [Call(cfg)] + [Act(id, Works)] + [Act(id, Works)] + [Act(id, Works)]
  }

  lemma ColdCallReads(s: State, cfg: Config) returns (end: State)
    requires s.l1 == None && s.next !in s.tasks
    ensures end == Step(Step(s, Call(cfg)), Act(s.next, Works))
    ensures end == s.(next := s.next + 1, tasks := s.tasks[s.next := Task(cfg, false, ReadL2, None, 0, 0, 0, 0.0, 1)])
  {
    var s1 := Step(s, Call(cfg));
    assert s1.tasks[s.next] == NewTask(cfg, false);
    end := Step(s1, Act(s.next, Works));
    assert end.tasks == s.tasks[s.next := end.tasks[s.next]];
  }

  lemma ColdCallAcquires(s: State, id: Id, cfg: Config) returns (end: State)
    requires id in s.tasks && s.tasks[id] == Task(cfg, false, ReadL2, None, 0, 0, 0, 0.0, 1)
    requires s.l2 == None && !(s.lock.Some? && LockLive(s.lock.value, s.now))
    ensures end == Step(Step(s, Act(id, Works)), Act(id, Works))
    ensures
      var lock := NewLock(id, cfg, s.now);
      end == s.(
        lock := Some(lock), tasks := s.tasks[id := Task(cfg, false, Refreshing(FirstTry), Some(lock), 1, 0, 0, 0.0, 3)])
  {
    var s1 := Step(s, Act(id, Works));
    assert s1.tasks[id].pc == Acquire(FirstTry);
    end := Step(s1, Act(id, Works));
    assert end.tasks == s.tasks[id := end.tasks[id]];
  }

  lemma TasksOverwritten(tasks: map<Id, Task>, id: Id, first: Task, second: Task)
    ensures tasks[id := first][id := second] == tasks[id := second]
  {
  }

  lemma ColdCallSteps(s: State, cfg: Config) returns (mid: State, end: State)
    requires s.l1 == None && s.l2 == None && !(s.lock.Some? && LockLive(s.lock.value, s.now)) && s.next !in s.tasks
    ensures mid == Step(Step(s, Call(cfg)), Act(s.next, Works))
    ensures end == Step(Step(mid, Act(s.next, Works)), Act(s.next, Works))
    ensures end.now == s.now && end.l1 == s.l1 && end.l2 == s.l2 && end.next == s.next + 1
    ensures
      var lock := NewLock(s.next, cfg, s.now);
      && end.lock == Some(lock)
      && end.tasks == s.tasks[s.next := Task(cfg, false, Refreshing(FirstTry), Some(lock), 1, 0, 0, 0.0, 3)]
  {
    mid := ColdCallReads(s, cfg);
    end := ColdCallAcquires(mid, s.next, cfg);
    TasksOverwritten(s.tasks, s.next, mid.tasks[s.next], end.tasks[s.next]);
  }

  lemma ColdCallRefreshes(s: State, cfg: Config)
    requires s.l1 == None && s.l2 == None && !(s.lock.Some? && LockLive(s.lock.value, s.now)) && s.next !in s.tasks
    ensures
      var end := Run(s, ColdCall(cfg, s.next));
      var lock := NewLock(s.next, cfg, s.now);
      && end.now == s.now && end.l1 == s.l1 && end.l2 == s.l2 && end.next == s.next + 1 && end.lock == Some(lock)
      && end.tasks == s.tasks[s.next := Task(cfg, false, Refreshing(FirstTry), Some(lock), 1, 0, 0, 0.0, 3)]
  {
    var mid, end := ColdCallSteps(s, cfg);
    RunFour(s, Call(cfg), Act(s.next, Works), mid, Act(s.next, Works), Act(s.next, Works), end);
  }

  /**
  Without the timing hypothesis there is no single flight: whatever the (positive) lock TTL, a holder that
  outlives it lets a second caller take the lock, and both refreshes are in flight.
  */
  lemma OverrunBreaksSingleFlight(cfg: Config)
    requires cfg.lockTtl > 0
    ensures
      var es := ColdCall(cfg, 0) + [Tick(cfg.lockTtl as real + 1.0)] + ColdCall(cfg, 1);
      var tasks := Run(Start(0.0), es).tasks;
      && 0 in tasks && tasks[0].pc.Refreshing? && tasks[0].claim.Some?
      && 1 in tasks && tasks[1].pc.Refreshing? && tasks[1].claim.Some?
  {
    var first, tick, second := ColdCall(cfg, 0), [Tick(cfg.lockTtl as real + 1.0)], ColdCall(cfg, 1);
    ColdCallRefreshes(Start(0.0), cfg);
    var s := Run(Start(0.0), first);
    RunOne(s, tick[0]);
    RunInTwo(Start(0.0), first, tick);
    var late := Run(Start(0.0), first + tick);
    ColdCallRefreshes(late, cfg);
    RunInTwo(Start(0.0), first + tick, second);
  }

  /** A caller's refresher returns `data`, both tiers accept it, and the lock is released. */
  function Completes(id: Id, data: Data): seq<Event> {
    [Act(id, Yields(Some(data)))] + [Act(id, Works)] + [Act(id, Works)] + [Act(id, Works)]
  }

  lemma YieldAndWriteL1(s: State, id: Id, data: Data)
    requires id in s.tasks && s.tasks[id].pc == Refreshing(FirstTry)
    ensures
      var t, made := s.tasks[id], Completion(id, Some(data), s.now);
      Step(Step(s, Act(id, Yields(Some(data)))), Act(id, Works)) == s.(
        l1 := Some(Entry(made, t.cfg.freshTtl, t.cfg.staleTtl, s.now)), completed := s.completed + {made},
        tasks := s.tasks[id := t.(pc := WriteL2(FirstTry, made), steps := t.steps + 2)])
  {
    var made := Completion(id, Some(data), s.now);
    var s1 := Step(s, Act(id, Yields(Some(data))));
    assert s1.tasks[id].pc == WriteL1(FirstTry, made);
    var s2 := Step(s1, Act(id, Works));
    assert s2.tasks == s.tasks[id := s2.tasks[id]];
  }

  lemma WriteL2AndRelease(s: State, id: Id, made: Completion)
    requires id in s.tasks && s.tasks[id].pc == WriteL2(FirstTry, made) && made.data.Some?
    requires s.tasks[id].claim.Some? && s.tasks[id].cfg.staleTtl > 0
    ensures
      var t := s.tasks[id];
      var row := Some(Entry(made, t.cfg.freshTtl, t.cfg.staleTtl, s.now));
      Step(Step(s, Act(id, Works)), Act(id, Works)) == s.(
        l2 := row, lastL2 := row, lock := None,
        tasks := s.tasks[id := t.(pc := Done(Value(made.data.value, Produced(made))), claim := None, steps := t.steps + 2)])
  {
    var s1 := Step(s, Act(id, Works));
    assert s1.tasks[id].pc == Releasing(FirstTry, Some(made), false);
    var s2 := Step(s1, Act(id, Works));
    assert s2.tasks == s.tasks[id := s2.tasks[id]];
  }

  lemma CompletesStores(s: State, id: Id, data: Data)
    requires id in s.tasks && s.tasks[id].pc == Refreshing(FirstTry) && s.tasks[id].claim.Some?
    requires s.tasks[id].cfg.staleTtl > 0
    ensures
      var t, end := s.tasks[id], Run(s, Completes(id, data));
      var row := Some(Entry(Completion(id, Some(data), s.now), t.cfg.freshTtl, t.cfg.staleTtl, s.now));
      && end.l1 == row && end.l2 == row && end.lastL2 == row && end.lock == None && end.now == s.now && end.next == s.next
      && end.tasks.Keys == s.tasks.Keys && (forall k :: k in s.tasks && k != id ==> end.tasks[k] == s.tasks[k])
      && end.tasks[id].pc == Done(Value(data, Produced(Completion(id, Some(data), s.now))))
  {
    YieldAndWriteL1(s, id, data);
    var s2 := Step(Step(s, Act(id, Yields(Some(data)))), Act(id, Works));
    WriteL2AndRelease(s2, id, Completion(id, Some(data), s.now));
    var end := Step(Step(s2, Act(id, Works)), Act(id, Works));
    RunFour(s, Act(id, Yields(Some(data))), Act(id, Works), s2, Act(id, Works), Act(id, Works), end);
  }

  /** A cold call that has found both tiers empty and is about to try the lock. */
  lemma ColdReader(cfg: Config) returns (es: seq<Event>)
    ensures
      Run(Start(0.0), es)
      == Start(0.0).(next := 1, tasks := map[0 := Task(cfg, false, Acquire(FirstTry), None, 0, 0, 0, 0.0, 2)])
    ensures cfg.lockTtl >= 0 ==> Untimed(es)
  {
    var s := Start(0.0);
    var s2 := ColdCallReads(s, cfg);
    var first := [Call(cfg)] + [Act(0, Works)];
    RunOne(s, Call(cfg));
    RunOne(Step(s, Call(cfg)), Act(0, Works));
    RunInTwo(s, [Call(cfg)], [Act(0, Works)]);
    assert Run(s, first) == s2;
    RunOne(s2, Act(0, Works));
    RunInTwo(s, first, [Act(0, Works)]);
    es := first + [Act(0, Works)];
  }

  /** No clock tick, no lost lock, and no negative lock TTL. */
  predicate Untimed(es: seq<Event>) {
    forall i :: 0 <= i < |es| ==> !es[i].Tick? && !es[i].LoseLock? && (es[i].Call? ==> es[i].cfg.lockTtl >= 0)
  }

  predicate AllInTime(s: State) {
    HoldersInTime(s) && forall id :: id in s.tasks ==> s.tasks[id].cfg.lockTtl >= 0
  }

  lemma MoverKeepsCfg(s: State, id: Id, outcome: Outcome)
    requires id in s.tasks && id < s.next
    ensures id in Step(s, Act(id, outcome)).tasks && Step(s, Act(id, outcome)).tasks[id].cfg == s.tasks[id].cfg
    ensures Step(s, Act(id, outcome)).now == s.now
  {
    var t := s.tasks[id];
    if outcome.Cancelled? || t.pc.Done? || t.pc.Acquire? {
    } else if InRefresh(t.pc) {
      assert Refresh(s, id, t, outcome).tasks[id].cfg == t.cfg;
    } else if Waiting(t.pc) {
      assert Polling(s, t, outcome).cfg == t.cfg;
    } else {
      assert Reading(s, id, t, outcome).tasks[id].cfg == t.cfg;
    }
  }

  lemma StepKeepsAllInTime(s: State, e: Event)
    requires Inv(s) && AllInTime(s) && Untimed([e])
    ensures AllInTime(Step(s, e))
  {
    assert [e][0] == e;
    var s' := Step(s, e);
    if e.Act? && e.id in s.tasks {
      assert e.id < s.next;
      MoverKeepsCfg(s, e.id, e.outcome);
      MoverClaims(s, e.id, e.outcome);
      forall id | id in s'.tasks
        ensures s'.tasks[id].cfg.lockTtl >= 0 && (s'.tasks[id].claim.Some? ==> LockLive(s'.tasks[id].claim.value, s'.now))
      {
        if id != e.id {
          OthersStay(s, e.id, e.outcome, id);
        }
      }
    }
  }

  /** While no time passes, every lock lasts. */
  lemma {:induction false} UntimedLocksLast(s: State, es: seq<Event>)
    requires Inv(s) && AllInTime(s) && Untimed(es)
    ensures LocksLast(s, es)
    decreases |es|
  {
    if es != [] {
      assert Untimed([es[0]]);
      StepKeepsInv(s, es[0]);
      StepKeepsAllInTime(s, es[0]);
      UntimedLocksLast(Step(s, es[0]), es[1..]);
    }
  }

  lemma TakesFreeLock(s: State, id: Id)
    requires id in s.tasks && s.tasks[id].pc == Acquire(FirstTry) && s.lock == None
    ensures
      var end := Step(s, Act(id, Works));
      && end.tasks.Keys == s.tasks.Keys && (forall k :: k in s.tasks && k != id ==> end.tasks[k] == s.tasks[k])
      && end.tasks[id].pc == Refreshing(FirstTry) && end.tasks[id].claim.Some?
  {
  }

  lemma ColdRunIsUntimed(first: seq<Event>, cfg: Config)
    requires Untimed(first) && cfg.lockTtl >= 0
    ensures Untimed(first + ColdCall(cfg, 1) + Completes(1, "v") + [Act(0, Works)])
  {
    assert Untimed(ColdCall(cfg, 1)) && Untimed(Completes(1, "v")) && Untimed([Act(0, Works)]);
  }

  lemma ColdCallersRefreshTwice(cfg: Config) returns (es: seq<Event>)
    requires cfg.staleTtl > 0
    ensures cfg.lockTtl >= 0 ==> Untimed(es)
    ensures
      var tasks := Run(Start(0.0), es).tasks;
      && 1 in tasks && tasks[1].pc == Done(Value("v", Produced(Completion(1, Some("v"), 0.0))))
      && 0 in tasks && tasks[0].pc == Refreshing(FirstTry) && tasks[0].claim.Some?
  {
    var first := ColdReader(cfg);
    var s1 := Run(Start(0.0), first);
    ColdCallRefreshes(s1, cfg);
    RunInTwo(Start(0.0), first, ColdCall(cfg, 1));
    var s2 := Run(s1, ColdCall(cfg, 1));
    CompletesStores(s2, 1, "v");
    RunInTwo(Start(0.0), first + ColdCall(cfg, 1), Completes(1, "v"));
    var s3 := Run(s2, Completes(1, "v"));
    TakesFreeLock(s3, 0);
    RunOne(s3, Act(0, Works));
    es := first + ColdCall(cfg, 1) + Completes(1, "v") + [Act(0, Works)];
    RunInTwo(Start(0.0), first + ColdCall(cfg, 1) + Completes(1, "v"), [Act(0, Works)]);
    if cfg.lockTtl >= 0 {
      ColdRunIsUntimed(first, cfg);
    }
  }

  /**
  Concurrent cold callers may refresh more than once, with every lock in time: a caller that found both
  tiers empty, and reaches the lock only after another caller has refreshed, stored and released, takes
  the free lock and refreshes again.
  */
  lemma ColdCallersMayRefreshTwice(cfg: Config) returns (es: seq<Event>)
    requires cfg.staleTtl > 0 && cfg.lockTtl >= 0
    ensures LocksLast(Start(0.0), es)
    ensures
      var tasks := Run(Start(0.0), es).tasks;
      && 1 in tasks && tasks[1].pc == Done(Value("v", Produced(Completion(1, Some("v"), 0.0))))
      && 0 in tasks && tasks[0].pc == Refreshing(FirstTry) && tasks[0].claim.Some?
  {
    es := ColdCallersRefreshTwice(cfg);
    UntimedLocksLast(Start(0.0), es);
  }

  /**
  The first try at the lock. In every run with its locks in time, a caller whose first try works refreshes if and
  only if no live lock row is there, and else goes to sleep; so it always waits while somebody holds the lock. What
  becomes of the sleepers is `CallerRefreshesIff`.
  */
  lemma ColdCallerRefreshesIff(start: Time, es: seq<Event>, id: Id)
    requires LocksLast(Start(start), es)
    requires id in Run(Start(start), es).tasks && Run(Start(start), es).tasks[id].pc == Acquire(FirstTry)
    ensures
      var s := Run(Start(start), es);
      var locked, after := s.lock.Some? && LockLive(s.lock.value, s.now), Step(s, Act(id, Works)).tasks[id];
      && (after.pc == Refreshing(FirstTry) <==> !locked) && (after.pc.Asleep? <==> locked)
      && (locked ==>
            var cap := if s.tasks[id].cfg.missWait > 15.0 then s.tasks[id].cfg.missWait else 15.0;
            after.pc == Asleep(s.now + 0.2, s.now + cap))
      && ((exists holder :: holder in s.tasks && s.tasks[holder].claim.Some?) ==> after.pc.Asleep?)
  {
    var s := Run(Start(start), es);
    RunKeepsLockClaimed(Start(start), es);
    EndInTime(Start(start), es);
    if holder :| holder in s.tasks && s.tasks[holder].claim.Some? {
      assert s.lock == s.tasks[holder].claim;
    }
  }

  // ---- A waiter that refreshes although the value is there ---------------------------------------------

  lemma {:induction false} LocksLastInTwo(s: State, xs: seq<Event>, ys: seq<Event>)
    requires LocksLast(s, xs) && LocksLast(Run(s, xs), ys)
    ensures LocksLast(s, xs + ys)
    decreases |xs|
  {
    if xs == [] {
      assert xs + ys == ys;
    } else {
      assert (xs + ys)[1..] == xs[1..] + ys;
      LocksLastInTwo(Step(s, xs[0]), xs[1..], ys);
    }
  }

  /** A tick that leaves every lock in time, then no more time. */
  lemma TickLocksLast(s: State, to: Time, rest: seq<Event>)
    requires Inv(s) && AllInTime(s) && s.now <= to && AllInTime(s.(now := to)) && Untimed(rest)
    ensures LocksLast(s, [Tick(to)] + rest)
  {
    StepKeepsInv(s, Tick(to));
    UntimedLocksLast(s.(now := to), rest);
    assert ([Tick(to)] + rest)[1..] == rest;
  }

  /** What one task's steps leave alone. */
  predicate OnlyTask(s: State, end: State, id: Id) {
    && end.now == s.now && end.l1 == s.l1 && end.l2 == s.l2 && end.lock == s.lock
    && id in end.tasks && end.tasks.Keys == s.tasks.Keys + {id}
    && (forall k :: k in s.tasks && k != id ==> end.tasks[k] == s.tasks[k])
  }

  /** A foreground task that waits, having run no refresh. */
  predicate IsWaiter(t: Task, cfg: Config, pc: Pc) {
    t.cfg == cfg && !t.background && t.claim.None? && t.refreshes == 0 && t.pc == pc
  }

  lemma ReaderSleeps(s: State, id: Id, cfg: Config) returns (end: State)
    requires id in s.tasks && IsWaiter(s.tasks[id], cfg, ReadL2) && s.l2 == None && Locked(s)
    ensures end == Step(Step(s, Act(id, Works)), Act(id, Works))
    ensures OnlyTask(s, end, id) && IsWaiter(end.tasks[id], cfg, Asleep(s.now + POLL, s.now + WaitCap(cfg)))
  {
    var s1 := Step(s, Act(id, Works));
    assert s1.tasks[id].pc == Acquire(FirstTry);
    end := Step(s1, Act(id, Works));
  }

  lemma ColdCallSleeps(s: State, cfg: Config) returns (end: State)
    requires s.l1 == None && s.l2 == None && Locked(s) && s.next !in s.tasks
    ensures end == Run(s, ColdCall(cfg, s.next)) && OnlyTask(s, end, s.next)
    ensures IsWaiter(end.tasks[s.next], cfg, Asleep(s.now + POLL, s.now + WaitCap(cfg)))
  {
    var mid := ColdCallReads(s, cfg);
    end := ReaderSleeps(mid, s.next, cfg);
    RunFour(s, Call(cfg), Act(s.next, Works), mid, Act(s.next, Works), Act(s.next, Works), end);
  }

  /** The sleep ends, and a poll of both tiers finds them empty. */
  function Poll(id: Id, to: Time): seq<Event> {
    [Tick(to)] + [Act(id, Works)] + [Act(id, Works)] + [Act(id, Works)]
  }

  lemma WakesToL1(s: State, id: Id, cfg: Config, to: Time, deadline: Time) returns (end: State)
    requires id in s.tasks && IsWaiter(s.tasks[id], cfg, Asleep(to, deadline)) && s.now <= to
    ensures end == Step(Step(s, Tick(to)), Act(id, Works))
    ensures OnlyTask(s.(now := to), end, id) && IsWaiter(end.tasks[id], cfg, PollL1(deadline))
  {
    end := Step(s.(now := to), Act(id, Works));
  }

  lemma PollsToLock(s: State, id: Id, cfg: Config, deadline: Time) returns (end: State)
    requires id in s.tasks && IsWaiter(s.tasks[id], cfg, PollL1(deadline)) && s.l1 == None && s.l2 == None
    ensures end == Step(Step(s, Act(id, Works)), Act(id, Works))
    ensures OnlyTask(s, end, id) && IsWaiter(end.tasks[id], cfg, PollLock(deadline))
  {
    var s1 := Step(s, Act(id, Works));
    assert s1.tasks[id].pc == PollL2(deadline);
    end := Step(s1, Act(id, Works));
  }

  lemma PollFindsNothing(s: State, id: Id, cfg: Config, to: Time, deadline: Time) returns (end: State)
    requires id in s.tasks && IsWaiter(s.tasks[id], cfg, Asleep(to, deadline)) && s.now <= to
    requires s.l1 == None && s.l2 == None
    ensures end == Run(s, Poll(id, to))
    ensures OnlyTask(s.(now := to), end, id) && IsWaiter(end.tasks[id], cfg, PollLock(deadline))
  {
    var mid := WakesToL1(s, id, cfg, to, deadline);
    end := PollsToLock(mid, id, cfg, deadline);
    RunFour(s, Tick(to), Act(id, Works), mid, Act(id, Works), Act(id, Works), end);
  }

  /** The lock is gone, so the waiter takes it, without another look at the tiers. */
  lemma WaiterTakesLock(s: State, id: Id, cfg: Config, deadline: Time) returns (end: State)
    requires id in s.tasks && IsWaiter(s.tasks[id], cfg, PollLock(deadline)) && s.lock == None
    ensures end == Run(s, [Act(id, Works)] + [Act(id, Works)])
    ensures id in end.tasks && end.tasks[id].pc == Refreshing(LastResort) && end.tasks[id].refreshes == 1
    ensures end.l1 == s.l1 && end.l2 == s.l2 && end.now == s.now
  {
    var s1 := Step(s, Act(id, Works));
    assert s1.tasks[id].pc == Acquire(LastResort);
    end := Step(s1, Act(id, Works));
    RunOne(s, Act(id, Works));
    RunOne(s1, Act(id, Works));
    RunInTwo(s, [Act(id, Works)], [Act(id, Works)]);
  }

  /** The waiter's run: caller 0 refreshes, caller 1 waits and polls, caller 0 stores and releases. */
  function WaiterRest(): seq<Event> {
    [Act(1, Works)] + [Act(1, Works)] + [Act(1, Works)] + Completes(0, "v") + ([Act(1, Works)] + [Act(1, Works)])
  }

  lemma WaiterRunIsUntimed(cfg: Config)
    requires cfg.lockTtl >= 0
    ensures Untimed(ColdCall(cfg, 0) + ColdCall(cfg, 1)) && Untimed(WaiterRest())
  {
  }

  lemma PollThenRest()
    ensures Poll(1, POLL) + Completes(0, "v") + ([Act(1, Works)] + [Act(1, Works)]) == [Tick(POLL)] + WaiterRest()
  {
  }

  /** Both callers are there: caller 0 refreshing under the lock, caller 1 asleep. */
  lemma WaiterSetsOff(cfg: Config) returns (s: State)
    ensures s == Run(Start(0.0), ColdCall(cfg, 0) + ColdCall(cfg, 1))
    ensures cfg.lockTtl >= 0 ==>
      && s.now == 0.0 && s.l1 == None && s.l2 == None && (forall k :: k in s.tasks <==> k == 0 || k == 1)
      && s.tasks[0].cfg == cfg && s.tasks[0].pc == Refreshing(FirstTry) && s.tasks[0].claim == Some(NewLock(0, cfg, 0.0))
      && s.lock == s.tasks[0].claim && IsWaiter(s.tasks[1], cfg, Asleep(POLL, WaitCap(cfg)))
  {
    RunInTwo(Start(0.0), ColdCall(cfg, 0), ColdCall(cfg, 1));
    s := Run(Start(0.0), ColdCall(cfg, 0) + ColdCall(cfg, 1));
    if cfg.lockTtl >= 0 {
      ColdCallRefreshes(Start(0.0), cfg);
      var end := ColdCallSleeps(Run(Start(0.0), ColdCall(cfg, 0)), cfg);
    }
  }

  lemma WaiterEnds(s: State, cfg: Config) returns (end: State)
    requires 0 in s.tasks && s.tasks[0].cfg == cfg && s.tasks[0].pc == Refreshing(FirstTry) && s.tasks[0].claim.Some?
    requires 1 in s.tasks && IsWaiter(s.tasks[1], cfg, Asleep(POLL, WaitCap(cfg)))
    requires s.now == 0.0 && s.l1 == None && s.l2 == None && cfg.staleTtl > 0
    ensures end == Run(s, [Tick(POLL)] + WaiterRest())
    ensures 1 in end.tasks && end.tasks[1].pc == Refreshing(LastResort) && end.tasks[1].refreshes == 1
    ensures
      var row := Some(Entry(Completion(0, Some("v"), POLL), cfg.freshTtl, cfg.staleTtl, POLL));
      end.l1 == row && end.l2 == row && end.now == POLL
  {
    var polled := PollFindsNothing(s, 1, cfg, POLL, WaitCap(cfg));
    CompletesStores(polled, 0, "v");
    var stored := Run(polled, Completes(0, "v"));
    end := WaiterTakesLock(stored, 1, cfg, WaitCap(cfg));
    RunInTwo(s, Poll(1, POLL), Completes(0, "v"));
    RunInTwo(s, Poll(1, POLL) + Completes(0, "v"), [Act(1, Works)] + [Act(1, Works)]);
    PollThenRest();
  }

  lemma WaiterLocksLast(cfg: Config)
    requires cfg.lockTtl >= 0
    ensures LocksLast(Start(0.0), ColdCall(cfg, 0) + ColdCall(cfg, 1) + ([Tick(POLL)] + WaiterRest()))
  {
    var first := ColdCall(cfg, 0) + ColdCall(cfg, 1);
    var s := WaiterSetsOff(cfg);
    WaiterRunIsUntimed(cfg);
    UntimedLocksLast(Start(0.0), first);
    RunKeepsInv(Start(0.0), first);
    WaiterInTime(s, cfg);
    TickLocksLast(s, POLL, WaiterRest());
    LocksLastInTwo(Start(0.0), first, [Tick(POLL)] + WaiterRest());
  }

  lemma WaiterInTime(s: State, cfg: Config)
    requires s.now == 0.0 && cfg.lockTtl >= 0 && (forall k :: k in s.tasks <==> k == 0 || k == 1)
    requires s.tasks[0].cfg == cfg && s.tasks[0].claim == Some(NewLock(0, cfg, 0.0))
    requires s.tasks[1].cfg == cfg && s.tasks[1].claim.None?
    ensures AllInTime(s) && AllInTime(s.(now := POLL))
  {
  }

  /**
  The second way to refresh twice, again with every lock in time: a caller sleeps while another holds the lock, polls
  both tiers empty, and comes to the lock when the other has just stored and released. It refreshes as a last
  resort, while both tiers hold the live value.
  */
  lemma WaiterMayRefreshToo(cfg: Config) returns (es: seq<Event>)
    requires cfg.staleTtl > 0 && cfg.lockTtl >= 0
    ensures LocksLast(Start(0.0), es)
    ensures
      var s := Run(Start(0.0), es);
      && 1 in s.tasks && s.tasks[1].pc == Refreshing(LastResort) && s.tasks[1].refreshes == 1
      && L1Serves(s) && s.l2 == s.l1 && L2Live(s.l2.value, s.now)
  {
    var s := WaiterSetsOff(cfg);
    var end := WaiterEnds(s, cfg);
    es := ColdCall(cfg, 0) + ColdCall(cfg, 1) + ([Tick(POLL)] + WaiterRest());
    RunInTwo(Start(0.0), ColdCall(cfg, 0) + ColdCall(cfg, 1), [Tick(POLL)] + WaiterRest());
    WaiterLocksLast(cfg);
  }

  lemma {:induction false} EndInTime(s: State, es: seq<Event>)
    requires LocksLast(s, es)
    ensures HoldersInTime(Run(s, es))
    decreases |es|
  {
    if es != [] {
      EndInTime(Step(s, es[0]), es[1..]);
    }
  }

  /** A stale read: it is served, and the background refresher it starts takes the lock. */
  function StaleCall(cfg: Config, id: Id): seq<Event> {
    [Call(cfg)] + [Act(id, Works)] + [Act(id + 1, Works)] + [Act(id + 1, Works)]
  }

  lemma StaleCallSpawns(s: State, cfg: Config) returns (end: State)
    requires s.l1.Some? && L1Live(s.l1.value, s.now) && s.l1.value.source.data.Some?
    requires FreshUntil(s.l1.value) <= s.now
    ensures
      && end == Step(Step(s, Call(cfg)), Act(s.next, Works))
      && end.lastL2 == s.lastL2 && end.now == s.now && end.next == s.next + 2 && end.lock == s.lock
      && s.next + 1 in end.tasks && end.tasks[s.next + 1] == NewTask(cfg, true)
  {
    var s1 := Step(s, Call(cfg));
    assert s1.tasks[s.next] == NewTask(cfg, false);
    end := Step(s1, Act(s.next, Works));
  }

  lemma RunnerRefreshes(s: State, id: Id, cfg: Config) returns (end: State)
    requires id in s.tasks && s.tasks[id] == NewTask(cfg, true) && s.lock == None
    ensures
      && end == Step(Step(s, Act(id, Works)), Act(id, Works))
      && end.lastL2 == s.lastL2 && end.now == s.now && end.next == s.next
      && id in end.tasks && end.tasks[id].pc == Refreshing(Background) && end.tasks[id].cfg == cfg
  {
    var s1 := Step(s, Act(id, Works));
    assert s1.tasks[id].pc == Acquire(Background) && s1.lock == None;
    end := Step(s1, Act(id, Works));
  }

  lemma StaleCallSteps(s: State, cfg: Config) returns (mid: State, end: State)
    requires s.lock == None && s.l1.Some? && L1Live(s.l1.value, s.now) && s.l1.value.source.data.Some?
    requires FreshUntil(s.l1.value) <= s.now
    ensures mid == Step(Step(s, Call(cfg)), Act(s.next, Works))
    ensures end == Step(Step(mid, Act(s.next + 1, Works)), Act(s.next + 1, Works))
    ensures end.lastL2 == s.lastL2 && end.now == s.now && end.next == s.next + 2
    ensures s.next + 1 in end.tasks && end.tasks[s.next + 1].pc == Refreshing(Background) && end.tasks[s.next + 1].cfg == cfg
  {
    mid := StaleCallSpawns(s, cfg);
    end := RunnerRefreshes(mid, s.next + 1, cfg);
  }

  lemma StaleCallRuns(s: State, cfg: Config, mid: State, end: State)
    requires mid == Step(Step(s, Call(cfg)), Act(s.next, Works))
    requires end == Step(Step(mid, Act(s.next + 1, Works)), Act(s.next + 1, Works))
    ensures Run(s, StaleCall(cfg, s.next)) == end
  {
    RunFour(s, Call(cfg), Act(s.next, Works), mid, Act(s.next + 1, Works), Act(s.next + 1, Works), end);
  }

  lemma StaleCallRefreshes(s: State, cfg: Config) returns (end: State)
    requires s.lock == None && s.l1.Some? && L1Live(s.l1.value, s.now) && s.l1.value.source.data.Some?
    requires FreshUntil(s.l1.value) <= s.now
    ensures end == Run(s, StaleCall(cfg, s.next))
    ensures end.lastL2 == s.lastL2 && end.now == s.now && end.next == s.next + 2
    ensures s.next + 1 in end.tasks && end.tasks[s.next + 1].pc == Refreshing(Background) && end.tasks[s.next + 1].cfg == cfg
  {
    var mid;
    mid, end := StaleCallSteps(s, cfg);
    StaleCallRuns(s, cfg, mid, end);
  }

  /** The refresher returns None and stores it in L1; then a caller reads L1. */
  function NullWrite(cfg: Config, runner: Id, late: Id): seq<Event> {
    [Act(runner, Yields(None))] + [Act(runner, Works)] + [Call(cfg)] + [Act(late, Works)]
  }

  lemma CoveredCons(s: State, e: Event, rest: seq<Event>)
    requires Covered(s) && L2Answers(s, e) && CoveredRun(Step(s, e), rest)
    ensures CoveredRun(s, [e] + rest)
  {
    assert ([e] + rest)[1..] == rest;
  }

  lemma NullWriteSteps(s: State, cfg: Config, runner: Id) returns (s1: State, s2: State, s3: State, s4: State)
    requires runner in s.tasks && s.tasks[runner].pc == Refreshing(Background) && runner < s.next
    requires s.tasks[runner].cfg == cfg && cfg.staleTtl > 0 && s.next !in s.tasks
    ensures s1 == Step(s, Act(runner, Yields(None))) && s2 == Step(s1, Act(runner, Works))
    ensures s3 == Step(s2, Call(cfg)) && s4 == Step(s3, Act(s.next, Works))
    ensures forall x :: x in [s1, s2, s3, s4] ==> x.lastL2 == s.lastL2 && x.now == s.now
    ensures runner in s1.tasks && !s1.tasks[runner].pc.ReadL2?
    ensures s.next in s3.tasks && !s3.tasks[s.next].pc.ReadL2?
    ensures IsBlocked(s4, s.next)
  {
    s1 := Step(s, Act(runner, Yields(None)));
    assert s1.tasks[runner].pc.WriteL1? && s1.tasks[runner].cfg == cfg;
    s2 := Step(s1, Act(runner, Works));
    assert s2.next == s.next && s2.l1.Some? && s2.l1.value.source.data == None && L1Live(s2.l1.value, s2.now);
    s3 := Step(s2, Call(cfg));
    assert s3.tasks[s.next] == NewTask(cfg, false);
    s4 := Step(s3, Act(s.next, Works));
  }

  lemma NullWriteBlocks(s: State, cfg: Config, runner: Id)
    requires runner in s.tasks && s.tasks[runner].pc == Refreshing(Background) && runner < s.next
    requires s.tasks[runner].cfg == cfg && cfg.staleTtl > 0 && s.next !in s.tasks && Covered(s)
    ensures CoveredRun(s, NullWrite(cfg, runner, s.next))
    ensures IsBlocked(Run(s, NullWrite(cfg, runner, s.next)), s.next)
  {
    var s1, s2, s3, s4 := NullWriteSteps(s, cfg, runner);
    var a, b, c, d := Act(runner, Yields(None)), Act(runner, Works), Call(cfg), Act(s.next, Works);
    assert Covered(s1) && Covered(s2) && Covered(s3) && Covered(s4);
    CoveredCons(s3, d, []);
    CoveredCons(s2, c, [d] + []);
    CoveredCons(s1, b, [c] + ([d] + []));
    CoveredCons(s, a, [b] + ([c] + ([d] + [])));
    assert NullWrite(cfg, runner, s.next) == [a] + ([b] + ([c] + ([d] + [])));
    RunFour(s, a, b, s2, c, d, s4);
  }

  /** A cold call fills both tiers. */
  lemma WarmRun(cfg: Config) returns (es: seq<Event>)
    requires cfg.staleTtl > 0
    ensures
      var s := Run(Start(0.0), es);
      var row := Some(Entry(Completion(0, Some("v"), 0.0), cfg.freshTtl, cfg.staleTtl, 0.0));
      s.l1 == row && s.lastL2 == row && s.lock == None && s.now == 0.0 && NoNullRefresh(es)
  {
    ColdCallRefreshes(Start(0.0), cfg);
    CompletesStores(Run(Start(0.0), ColdCall(cfg, 0)), 0, "v");
    RunInTwo(Start(0.0), ColdCall(cfg, 0), Completes(0, "v"));
    es := ColdCall(cfg, 0) + Completes(0, "v");
    WarmRunHasNoNull(cfg);
  }

  lemma WarmRunHasNoNull(cfg: Config)
    ensures NoNullRefresh(ColdCall(cfg, 0) + Completes(0, "v"))
  {
  }

  /** Then a call finds the row stale, and its background runner is refreshing. */
  lemma StaleRun(cfg: Config) returns (es: seq<Event>, runner: Id)
    requires cfg.staleTtl > 0 && cfg.freshTtl <= 0
    ensures
      var s := Run(Start(0.0), es);
      && s.lastL2 == Some(Entry(Completion(0, Some("v"), 0.0), cfg.freshTtl, cfg.staleTtl, 0.0)) && s.now == 0.0
      && runner in s.tasks && s.tasks[runner].pc == Refreshing(Background) && s.tasks[runner].cfg == cfg
      && runner < s.next && NoNullRefresh(es)
  {
    var warm := WarmRun(cfg);
    var s := Run(Start(0.0), warm);
    var end := StaleCallRefreshes(s, cfg);
    RunInTwo(Start(0.0), warm, StaleCall(cfg, s.next));
    es, runner := warm + StaleCall(cfg, s.next), s.next + 1;
  }

  /**
  The hypothesis on None is needed. There is a run without a null refresh, and a covered stretch after it, in
  which a caller that arrives in the stretch ends up blocked: a background refresher has returned None, and the
  null envelope it stored in L1 hides the good row of L2.
  */
  lemma NullRefreshHidesL2()
    ensures exists before, es, id ::
      var s, end := Run(Start(0.0), before), Run(Run(Start(0.0), before), es);
      && NoNullRefresh(before) && CoveredRun(s, es) && id !in s.tasks && EverFindsNull(s, es, id)
      && id in end.tasks && Blocked(end.tasks[id])
  {
    var cfg := Config(0, 600, 60, 2.0);
    var before, runner := StaleRun(cfg);
    var s := Run(Start(0.0), before);
    RunKeepsInv(Start(0.0), before);
    assert s.next !in s.tasks;
    NullWriteBlocks(s, cfg, runner);
    var es := NullWrite(cfg, runner, s.next);
    EndIsInRun(s, es, s.next);
    CoveredCallersBlockIff(0.0, before, es, s.next);
    assert IsBlocked(Run(s, es), s.next);
  }
}
