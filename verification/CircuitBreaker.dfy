/**
The circuit breaker of app/platform/circuit_breaker.py.

`guard()` is an entry and an exit with the upstream call between them, so calls admitted while the
breaker was closed can leave after it opened. A cancelled call leaves through BaseException and
records nothing, but still releases the probe lock.
*/
module CircuitBreaker {
  import opened Wrappers

  datatype Outcome = Success | Failure

  /** What `guard()` does with a caller: refuse it, or let it in as an ordinary call or as the probe. */
  datatype Admission = Ordinary | Probe | Refused(retryAfter: Time)

  datatype Exit = Succeeded | Raised | Cancelled

  /** The fields of one breaker. */
  datatype Fields = Fields(failures: nat, openedAt: Option<Time>, probing: bool)

  predicate CoolingDown(f: Fields, cooldown: Time, now: Time) {
    f.openedAt.Some? && now - f.openedAt.value < cooldown
  }

  function Admit(f: Fields, cooldown: Time, now: Time): Admission {
    if CoolingDown(f, cooldown, now) then Refused(Max(0.0, cooldown - (now - f.openedAt.value)))
    else if f.openedAt.None? then Ordinary
    else if f.probing then Refused(0.0)
    else Probe
  }

  function Recorded(f: Fields, threshold: int, outcome: Outcome, now: Time): Fields {
    match outcome
    case Success => f.(failures := 0, openedAt := None)
    case Failure =>
      var opens := f.failures + 1 >= threshold || f.openedAt.Some?;
      f.(failures := f.failures + 1, openedAt := if opens then Some(now) else None)
  }

  function Left(f: Fields, threshold: int, kind: Admission, exit: Exit, now: Time): Fields {
    var f' := match exit
      case Succeeded => Recorded(f, threshold, Success, now)
      case Raised => Recorded(f, threshold, Failure, now)
      case Cancelled => f;
    if kind.Probe? then f'.(probing := false) else f'
  }

  class CircuitBreaker {
    const name: string
    const failureThreshold: int
    const cooldown: Time
    var failures: nat
    var openedAt: Option<Time>
    var probing: bool

    function State(): Fields
      reads this
    {
      Fields(failures, openedAt, probing)
    }

    constructor (name: string, failureThreshold: int, cooldown: Time)
      ensures this.name == name && this.failureThreshold == failureThreshold && this.cooldown == cooldown
      ensures State() == Fields(0, None, false)
    {
      this.name, this.failureThreshold, this.cooldown := name, failureThreshold, cooldown;
      failures, openedAt, probing := 0, None, false;
    }

    method RecordSuccess()
      modifies this
      ensures forall now :: State() == Recorded(old(State()), failureThreshold, Success, now)
    {
      failures, openedAt := 0, None;
    }

    method RecordFailure(now: Time)
      modifies this
      ensures State() == Recorded(old(State()), failureThreshold, Failure, now)
    {
      failures := failures + 1;
      if failures >= failureThreshold && openedAt.None? {
        openedAt := Some(now);
      } else if openedAt.Some? {
        openedAt := Some(now);
      }
    }

    /** The way into `guard()`: the probe lock is taken at once, since it is only tried when free. */
    method Enter(now: Time) returns (admission: Admission)
      modifies this
      ensures admission == Admit(old(State()), cooldown, now)
      ensures State() == old(State()).(probing := old(probing) || admission.Probe?)
    {
      if openedAt.Some? && now - openedAt.value < cooldown {
        return Refused(if 0.0 < cooldown - (now - openedAt.value) then cooldown - (now - openedAt.value) else 0.0);
      }
      if openedAt.Some? {
        if probing {
          return Refused(0.0);
        }
        probing := true;
        return Probe;
      }
      admission := Ordinary;
    }

    /** The way out of `guard()`. */
    method Leave(kind: Admission, exit: Exit, now: Time)
      requires !kind.Refused? && (kind.Probe? ==> probing)
      modifies this
      ensures State() == Left(old(State()), failureThreshold, kind, exit, now)
    {
      match exit {
        case Succeeded => RecordSuccess();
        case Raised => RecordFailure(now);
        case Cancelled =>
      }
      if kind.Probe? {
        probing := false;
      }
    }
  }

  // ---- The registry ------------------------------------------------------------------------

  class Registry {
    var breakers: map<string, CircuitBreaker>

    constructor ()
      ensures breakers == map[]
    {
      breakers := map[];
    }

    /** The first caller configures a breaker; later callers get that same object, whatever they ask for. */
    method GetBreaker(name: string, failureThreshold: int, cooldown: Time) returns (breaker: CircuitBreaker)
      modifies this
      ensures breakers == old(breakers)[name := breaker]
      ensures name in old(breakers) ==> breaker == old(breakers)[name]
      ensures name !in old(breakers) ==>
        && fresh(breaker) && breaker.name == name && breaker.State() == Fields(0, None, false)
        && breaker.failureThreshold == failureThreshold && breaker.cooldown == cooldown
    {
      if name in breakers {
        breaker := breakers[name];
        assert breakers == breakers[name := breaker];
      } else {
        breaker := new CircuitBreaker(name, failureThreshold, cooldown);
        breakers := breakers[name := breaker];
      }
    }
  }

  /** `retry_after_s` is exact: with no outcome recorded meanwhile, the wait ends then and not before. */
  lemma RetryAfterIsExact(f: Fields, cooldown: Time, now: Time, later: Time)
    requires CoolingDown(f, cooldown, now) && now <= later
    ensures Admit(f, cooldown, now).Refused?
    ensures CoolingDown(f, cooldown, later) <==> later < now + Admit(f, cooldown, now).retryAfter
    ensures Admit(f, cooldown, later).Probe? <==> later >= now + Admit(f, cooldown, now).retryAfter && !f.probing
  {
  }

  // ---- Runs: any interleaving of entries, exits and direct records ---------------------------

  type Id = nat

  datatype Event =
    | Enters(id: Id, at: Time)
    | Leaves(id: Id, exit: Exit, at: Time)
    | Records(outcome: Outcome, at: Time)     // record_success / record_failure called directly

  /** One recorded outcome. */
  datatype Entry = Entry(outcome: Outcome, at: Time)

  datatype Config = Config(threshold: int, cooldown: Time)

  /** The breaker, the calls inside `guard()`, and two histories: outcomes recorded, probes admitted. */
  datatype State = State(f: Fields, inside: map<Id, Admission>, log: seq<Entry>, probes: seq<Time>, now: Time)

  function Start(now: Time): State {
    State(Fields(0, None, false), map[], [], [], now)
  }

  predicate Enabled(s: State, e: Event) {
    && s.now <= e.at
    && (e.Enters? ==> e.id !in s.inside)
    && (e.Leaves? ==> e.id in s.inside)
  }

  function Logged(log: seq<Entry>, exit: Exit, now: Time): seq<Entry> {
    match exit
    case Succeeded => log + [Entry(Success, now)]
    case Raised => log + [Entry(Failure, now)]
    case Cancelled => log
  }

  function Step(c: Config, s: State, e: Event): State
    requires Enabled(s, e)
  {
    match e
    case Enters(id, now) =>
      var admission := Admit(s.f, c.cooldown, now);
      if admission.Refused? then s.(now := now)
      else
        s.(f := s.f.(probing := s.f.probing || admission.Probe?), inside := s.inside[id := admission],
           probes := if admission.Probe? then s.probes + [now] else s.probes, now := now)
    case Leaves(id, exit, now) =>
      s.(f := Left(s.f, c.threshold, s.inside[id], exit, now), inside := s.inside - {id},
         log := Logged(s.log, exit, now), now := now)
    case Records(outcome, now) =>
      s.(f := Recorded(s.f, c.threshold, outcome, now), log := s.log + [Entry(outcome, now)], now := now)
  }

  predicate Possible(c: Config, s: State, es: seq<Event>)
    decreases |es|
  {
    es == [] || (Enabled(s, es[0]) && Possible(c, Step(c, s, es[0]), es[1..]))
  }

  function Run(c: Config, s: State, es: seq<Event>): State
    requires Possible(c, s, es)
    decreases |es|
  {
    if es == [] then s else Run(c, Step(c, s, es[0]), es[1..])
  }

  // ---- The state is a function of the outcome log ---------------------------------------------

  /** How many failures end the log. */
  function TrailingFailures(log: seq<Entry>): nat {
    if log == [] || log[|log| - 1].outcome.Success? then 0 else 1 + TrailingFailures(log[..|log| - 1])
  }

  /** Open since the latest failure, once the trailing failures reach the threshold (and at least 1). */
  function OpenedByLog(log: seq<Entry>, threshold: int): Option<Time> {
    var run := TrailingFailures(log);
    if run >= 1 && run >= threshold then Some(log[|log| - 1].at) else None
  }

  predicate ReadsOffLog(c: Config, s: State) {
    && s.f.failures == TrailingFailures(s.log)
    && s.f.openedAt == OpenedByLog(s.log, c.threshold)
  }

  /**
  Probes inside guard() and the lock say the same thing, and nobody refused is inside.
  */
  predicate OneProbe(s: State) {
    && (forall id :: id in s.inside ==> !s.inside[id].Refused?)
    && (s.f.probing <==> exists id :: id in s.inside && s.inside[id].Probe?)
    && (forall i, j :: i in s.inside && j in s.inside && s.inside[i].Probe? && s.inside[j].Probe? ==> i == j)
  }

  lemma RecordReadsOffLog(f: Fields, threshold: int, log: seq<Entry>, outcome: Outcome, now: Time)
    requires f.failures == TrailingFailures(log) && f.openedAt == OpenedByLog(log, threshold)
    ensures
      var f', log' := Recorded(f, threshold, outcome, now), log + [Entry(outcome, now)];
      f'.failures == TrailingFailures(log') && f'.openedAt == OpenedByLog(log', threshold)
  {
    assert (log + [Entry(outcome, now)])[..|log|] == log;
  }

  lemma StepReadsOffLog(c: Config, s: State, e: Event)
    requires Enabled(s, e) && ReadsOffLog(c, s)
    ensures ReadsOffLog(c, Step(c, s, e))
  {
    match e {
      case Enters(_, _) =>
      case Leaves(_, exit, now) =>
        if exit != Cancelled {
          RecordReadsOffLog(s.f, c.threshold, s.log, if exit == Succeeded then Success else Failure, now);
        }
      case Records(outcome, now) => RecordReadsOffLog(s.f, c.threshold, s.log, outcome, now);
    }
  }

  lemma StepKeepsOneProbe(c: Config, s: State, e: Event)
    requires Enabled(s, e) && OneProbe(s)
    ensures OneProbe(Step(c, s, e))
  {
    var s' := Step(c, s, e);
    match e {
      case Enters(id, now) =>
        assert forall i :: i in s.inside ==> i in s'.inside && s'.inside[i] == s.inside[i];
        if Admit(s.f, c.cooldown, now).Probe? {
          assert s'.inside[id].Probe?;
        }
      case Leaves(id, exit, now) =>
        assert forall i :: i in s.inside && i != id ==> i in s'.inside && s'.inside[i] == s.inside[i];
      case Records(_, _) =>
    }
  }

  /**
  The closed form. For every interleaving of entries, exits and direct records, stragglers included,
  `failures` is the length of the trailing run of failures in the outcome log, and `opened_at` is the
  time of the latest failure exactly when that run has reached the threshold. At most one probe is in
  flight, and the lock is held exactly while one is.
  */
  lemma {:induction false} StateIsReadOffTheLog(c: Config, s: State, es: seq<Event>)
    requires Possible(c, s, es) && ReadsOffLog(c, s) && OneProbe(s)
    ensures ReadsOffLog(c, Run(c, s, es)) && OneProbe(Run(c, s, es))
    decreases |es|
  {
    if es != [] {
      StepReadsOffLog(c, s, es[0]);
      StepKeepsOneProbe(c, s, es[0]);
      StateIsReadOffTheLog(c, Step(c, s, es[0]), es[1..]);
    }
  }

  lemma EveryRunReadsOffTheLog(c: Config, now: Time, es: seq<Event>)
    requires Possible(c, Start(now), es)
    ensures ReadsOffLog(c, Run(c, Start(now), es)) && OneProbe(Run(c, Start(now), es))
  {
    StateIsReadOffTheLog(c, Start(now), es);
  }

  /**
  Who is let in, read off the histories. At the end of every run a caller is let in as an ordinary call if and only
  if the failures that end the log are none or fewer than the threshold; as the probe if and only if they reach the
  threshold, the latest of them is at least a cooldown old, and no probe is inside; and is refused otherwise, told
  how long the cooldown still lasts, or 0 while a probe is out.
  */
  lemma AdmissionReadsOffTheLog(c: Config, start: Time, es: seq<Event>, now: Time)
    requires Possible(c, Start(start), es)
    ensures
      var s := Run(c, Start(start), es);
      var admission, failures := Admit(s.f, c.cooldown, now), TrailingFailures(s.log);
      var open := failures >= 1 && failures >= c.threshold;
      && (admission.Ordinary? <==> !open)
      && (open ==>
            var age := now - s.log[|s.log| - 1].at;
            && (admission.Probe? <==> age >= c.cooldown && forall id :: id in s.inside ==> !s.inside[id].Probe?)
            && (age < c.cooldown ==> admission == Refused(c.cooldown - age))
            && (age >= c.cooldown && (exists id :: id in s.inside && s.inside[id].Probe?) ==> admission == Refused(0.0)))
  {
    EveryRunReadsOffTheLog(c, start, es);
  }

  // ---- While the upstream stays down ------------------------------------------------------------

  /** The event records no success. */
  predicate NoSuccess(e: Event) {
    match e
    case Enters(_, _) => true
    case Leaves(_, exit, _) => exit != Succeeded
    case Records(outcome, _) => outcome != Success
  }

  predicate StaysDown(es: seq<Event>) {
    forall i :: 0 <= i < |es| ==> NoSuccess(es[i])
  }

  /** A probe that leaves cancelled, which records nothing. */
  predicate LosesProbe(s: State, e: Event)
    requires Enabled(s, e)
  {
    e.Leaves? && e.exit == Cancelled && s.inside[e.id].Probe?
  }

  /** How many probes of the run end cancelled. */
  function LostProbes(c: Config, s: State, es: seq<Event>): nat
    requires Possible(c, s, es)
    decreases |es|
  {
    if es == [] then 0
    else (if LosesProbe(s, es[0]) then 1 else 0) + LostProbes(c, Step(c, s, es[0]), es[1..])
  }

  /** Everybody who tries to enter is refused or becomes the probe. */
  predicate AdmitsOnlyProbes(c: Config, s: State, es: seq<Event>)
    requires Possible(c, s, es)
    decreases |es|
  {
    es != [] ==>
      && (es[0].Enters? ==> !Admit(s.f, c.cooldown, es[0].at).Ordinary?)
      && AdmitsOnlyProbes(c, Step(c, s, es[0]), es[1..])
  }

  /** k cooldowns, without a product. */
  function Cooldowns(k: int, cooldown: Time): Time
    decreases if k < 0 then -k else k
  {
    if k == 0 then 0.0 else if k > 0 then Cooldowns(k - 1, cooldown) + cooldown else Cooldowns(k + 1, cooldown) - cooldown
  }

  lemma {:induction false} CooldownsAre(k: int, cooldown: Time)
    ensures Cooldowns(k, cooldown) == k as real * cooldown
    decreases if k < 0 then -k else k
  {
    if k > 0 {
      CooldownsAre(k - 1, cooldown);
      assert k as real * cooldown == (k - 1) as real * cooldown + cooldown;
    } else if k < 0 {
      CooldownsAre(k + 1, cooldown);
      assert k as real * cooldown == (k + 1) as real * cooldown - cooldown;
    }
  }

  lemma OneMore(k: int, cooldown: Time)
    ensures Cooldowns(k + 1, cooldown) == Cooldowns(k, cooldown) + cooldown
  {
  }

  /** The k-th of these probes, counting from 1, starts at least k - lost cooldowns after `since`. */
  predicate Spaced(probes: seq<Time>, since: Time, cooldown: Time, lost: nat) {
    forall k :: 0 <= k < |probes| ==> since + Cooldowns(k + 1 - lost, cooldown) <= probes[k]
  }

  /** n probes have started in the stretch, and the last of them may still be in flight. */
  predicate OpenLongEnough(f: Fields, cooldown: Time, n: nat, last: Time, now: Time, since: Time, lost: nat)
    requires f.openedAt.Some?
  {
    if f.probing && n > 0 then
      && last <= now && since + Cooldowns(n - lost, cooldown) <= last
      && since + Cooldowns(n - 1 - lost, cooldown) <= f.openedAt.value
    else since + Cooldowns(n - lost, cooldown) <= f.openedAt.value
  }

  function LastProbe(probes: seq<Time>): Time {
    if probes == [] then 0.0 else probes[|probes| - 1]
  }

  /**
  Along the stretch, where `before` counts the probes admitted earlier and `lost` those that ended cancelled in
  it: the breaker is open, and was last re-opened late enough for the probes that started.
  */
  predicate Stretch(c: Config, s: State, before: nat, since: Time, lost: nat) {
    && s.f.openedAt.Some? && s.f.openedAt.value <= s.now
    && before <= |s.probes|
    && (c.cooldown >= 0.0 || lost == 0 ==>
          && Spaced(s.probes[before..], since, c.cooldown, lost)
          && OpenLongEnough(s.f, c.cooldown, |s.probes| - before, LastProbe(s.probes), s.now, since, lost))
  }

  /** A cancelled probe loosens the spacing by one cooldown. */
  lemma LooserSpaced(probes: seq<Time>, since: Time, cooldown: Time, lost: nat)
    requires cooldown >= 0.0 && Spaced(probes, since, cooldown, lost)
    ensures Spaced(probes, since, cooldown, lost + 1)
  {
    forall k | 0 <= k < |probes| ensures since + Cooldowns(k + 1 - (lost + 1), cooldown) <= probes[k] {
      OneMore(k - lost, cooldown);
    }
  }

  lemma ProbeKeepsStretch(c: Config, s: State, e: Event, before: nat, since: Time, lost: nat)
    requires Enabled(s, e) && Stretch(c, s, before, since, lost) && e.Enters? && Admit(s.f, c.cooldown, e.at).Probe?
    ensures Stretch(c, Step(c, s, e), before, since, lost)
  {
    var mine, s' := s.probes[before..], Step(c, s, e);
    assert s'.probes[before..] == mine + [e.at];
    OneMore(|mine| - lost, c.cooldown);
  }

  lemma LostKeepsStretch(c: Config, s: State, e: Event, before: nat, since: Time, lost: nat)
    requires Enabled(s, e) && Stretch(c, s, before, since, lost) && LosesProbe(s, e)
    ensures Stretch(c, Step(c, s, e), before, since, lost + 1)
  {
    var n := |s.probes| - before;
    if c.cooldown >= 0.0 {
      LooserSpaced(s.probes[before..], since, c.cooldown, lost);
      OneMore(n - 1 - lost, c.cooldown);
    }
  }

  lemma StepKeepsStretch(c: Config, s: State, e: Event, before: nat, since: Time, lost: nat)
    requires Enabled(s, e) && NoSuccess(e) && Stretch(c, s, before, since, lost)
    ensures Stretch(c, Step(c, s, e), before, since, lost + if LosesProbe(s, e) then 1 else 0)
    ensures e.Enters? ==> !Admit(s.f, c.cooldown, e.at).Ordinary?
  {
    if e.Enters? && Admit(s.f, c.cooldown, e.at).Probe? {
      ProbeKeepsStretch(c, s, e, before, since, lost);
    } else if LosesProbe(s, e) {
      LostKeepsStretch(c, s, e, before, since, lost);
    } else {
      OneMore(|s.probes| - before - 1 - lost, c.cooldown);
    }
  }

  lemma {:induction false} RunKeepsStretch(c: Config, s: State, es: seq<Event>, before: nat, since: Time, lost: nat)
    requires Possible(c, s, es) && StaysDown(es) && Stretch(c, s, before, since, lost)
    ensures Stretch(c, Run(c, s, es), before, since, lost + LostProbes(c, s, es)) && AdmitsOnlyProbes(c, s, es)
    decreases |es|
  {
    if es != [] {
      StepKeepsStretch(c, s, es[0], before, since, lost);
      RunKeepsStretch(c, Step(c, s, es[0]), es[1..], before, since, lost + if LosesProbe(s, es[0]) then 1 else 0);
    }
  }

  /**
  No thundering herd. From a moment when the breaker is open since `since`, through any stretch with no
  recorded success, it stays open and lets in nobody but probes. When `lost` of them end cancelled, the k-th
  probe starts at least k - lost cooldowns after `since`, so a stretch that reaches D seconds past `since`
  admits at most floor(D / cooldown) + lost of them; without cancelled probes, floor(D / cooldown).
  */
  lemma ProbesAreSpaced(c: Config, s: State, es: seq<Event>, since: Time)
    requires Possible(c, s, es) && StaysDown(es)
    requires s.f.openedAt == Some(since) && since <= s.now
    ensures
      var end, lost := Run(c, s, es), LostProbes(c, s, es);
      var admitted := |end.probes| - |s.probes|;
      && AdmitsOnlyProbes(c, s, es) && end.f.openedAt.Some? && admitted >= 0
      && (c.cooldown >= 0.0 || lost == 0 ==> Spaced(end.probes[|s.probes|..], since, c.cooldown, lost))
      && (c.cooldown > 0.0 ==> admitted <= ((end.now - since) / c.cooldown).Floor + lost)
  {
    assert s.probes[|s.probes|..] == [];
    RunKeepsStretch(c, s, es, |s.probes|, since, 0);
    NowNeverBack(c, s, es);
    if c.cooldown > 0.0 {
      var end := Run(c, s, es);
      SpacedAreFew(|end.probes| - |s.probes|, LostProbes(c, s, es), c.cooldown, end.now - since);
    }
  }

  /** As many probes as fit in the time, and one more for each that was lost. */
  lemma SpacedAreFew(n: nat, lost: nat, cooldown: Time, length: Time)
    requires cooldown > 0.0 && length >= 0.0 && (n > 0 ==> Cooldowns(n - lost, cooldown) <= length)
    ensures n <= (length / cooldown).Floor + lost
  {
    CooldownsAre(n - lost, cooldown);
    AtMostQuotient(if n > lost then n - lost else 0, cooldown, length);
  }

  lemma AtMostQuotient(k: nat, cooldown: Time, length: Time)
    requires cooldown > 0.0 && length >= 0.0 && (k > 0 ==> k as real * cooldown <= length)
    ensures k <= (length / cooldown).Floor
  {
    var q := length / cooldown;
    assert length == q * cooldown;
    assert (q - k as real) * cooldown >= 0.0;
    assert q >= k as real;
  }

  lemma {:induction false} NowNeverBack(c: Config, s: State, es: seq<Event>)
    requires Possible(c, s, es)
    ensures s.now <= Run(c, s, es).now
    decreases |es|
  {
    if es != [] {
      NowNeverBack(c, Step(c, s, es[0]), es[1..]);
    }
  }

  /** Cancelled probes do add to the bound: they record nothing, so the next one may follow at once. */
  lemma CancelledProbesAreNotSpaced(c: Config, s: State, a: Id, b: Id, now: Time)
    requires s.now <= now && a !in s.inside && b !in s.inside
    requires s.f.openedAt.Some? && !CoolingDown(s.f, c.cooldown, now) && !s.f.probing
    ensures
      var es := [Enters(a, now), Leaves(a, Cancelled, now), Enters(b, now)];
      Possible(c, s, es) && Run(c, s, es).probes == s.probes + [now, now]
  {
    var s1 := Step(c, s, Enters(a, now));
    var s2 := Step(c, s1, Leaves(a, Cancelled, now));
    var s3 := Step(c, s2, Enters(b, now));
    var es := [Enters(a, now), Leaves(a, Cancelled, now), Enters(b, now)];
    assert es[1..] == [es[1], es[2]] && es[1..][1..] == [es[2]] && [es[2]][1..] == [];
    assert Possible(c, s3, []) && Possible(c, s2, [es[2]]) && Possible(c, s1, es[1..]);
    assert Run(c, s3, []) == s3 == Run(c, s2, [es[2]]) == Run(c, s1, es[1..]);
    assert s3.probes == s.probes + [now] + [now];
  }
}
