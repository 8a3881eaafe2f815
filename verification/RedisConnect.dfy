/**
The process-wide client of app/platform/redis_client.py: `get_redis` and `close_redis`.

There is no init lock. A caller that finds no client probes one across an await; afterwards it installs
its candidate only if nobody else has installed one meanwhile. `close_redis` awaits too, between reading
the client and forgetting it.
*/
module RedisConnect {
  import opened Wrappers

  type Id = nat

  /** A client, named after the caller that made it. */
  datatype Client = Real(maker: Id) | InMemory(maker: Id)

  function Made(id: Id, reachable: bool): Client {
    if reachable then Real(id) else InMemory(id)
  }

  /** The module global. */
  class Connection {
    var client: Option<Client>

    constructor ()
      ensures client == None
    {
      client := None;
    }

    /** `get_redis` up to its probe: None when it has to await one. */
    method Begin(id: Id, installed: bool) returns (found: Option<Client>)
      modifies this
      ensures (client, found) == Begun(old(client), id, installed)
    {
      if client.Some? {
        return client;
      }
      if !installed {
        client := Some(InMemory(id));
      }
      found := client;
    }

    /** `get_redis` after its probe. It never returns without a client. */
    method Finish(id: Id, reachable: bool) returns (found: Client)
      modifies this
      ensures client == Some(found) && found == Settled(old(client), id, reachable)
    {
      if client.None? {
        client := Some(Made(id, reachable));
      }
      found := client.value;
    }

    /** `close_redis` after its await. */
    method Forget()
      modifies this
      ensures client == None
    {
      client := None;
    }
  }

  function Begun(client: Option<Client>, id: Id, installed: bool): (Option<Client>, Option<Client>) {
    if client.Some? || installed then (client, client) else (Some(InMemory(id)), Some(InMemory(id)))
  }

  function Settled(client: Option<Client>, id: Id, reachable: bool): Client {
    if client.Some? then client.value else Made(id, reachable)
  }

  // ---- Concurrent callers ----------------------------------------------------------------------

  datatype Event =
    | Get(id: Id, installed: bool)     // a caller enters
    | Probed(id: Id, reachable: bool)  // a caller's probe ends
    | Forgotten                        // a close ends

  /** `got` has one entry per call that returned, in order; `probing` holds the callers in their await. */
  datatype State = State(client: Option<Client>, probing: set<Id>, got: seq<Client>)

  function Step(s: State, e: Event): State {
    match e
    case Get(id, installed) =>
      var (client, found) := Begun(s.client, id, installed);
      if found.Some? then State(client, s.probing, s.got + [found.value]) else s.(probing := s.probing + {id})
    case Probed(id, reachable) =>
      if id !in s.probing then s
      else
        var found := Settled(s.client, id, reachable);
        State(Some(found), s.probing - {id}, s.got + [found])
    case Forgotten => s.(client := None)
  }

  function Run(s: State, es: seq<Event>): State
    decreases |es|
  {
    if es == [] then s else Run(Step(s, es[0]), es[1..])
  }

  ghost predicate Converged(s: State, since: nat) {
    since <= |s.got| && forall i :: since <= i < |s.got| ==> s.client == Some(s.got[i])
  }

  lemma {:induction false} RunConverges(s: State, es: seq<Event>, since: nat)
    requires Converged(s, since) && Forgotten !in es
    ensures Converged(Run(s, es), since) && s.got <= Run(s, es).got
    ensures s.client.Some? ==> Run(s, es).client == s.client
    decreases |es|
  {
    if es != [] {
      assert Converged(Step(s, es[0]), since);
      RunConverges(Step(s, es[0]), es[1..], since);
    }
  }

  /**
  Concurrent callers converge on one client. From any state, with any number of callers in their probes,
  in every stretch in which no close ends, all calls that return get the same client, whatever their own
  probes said; it is the one the module keeps, and the one it had before if it had one.
  */
  lemma CallersConverge(s: State, es: seq<Event>, i: nat, j: nat)
    requires Forgotten !in es
    requires |s.got| <= i < |Run(s, es).got| && |s.got| <= j < |Run(s, es).got|
    ensures Run(s, es).got[i] == Run(s, es).got[j] && Run(s, es).client == Some(Run(s, es).got[i])
    ensures s.client.Some? ==> Run(s, es).got[i] == s.client.value
  {
    RunConverges(s, es, |s.got|);
  }

  /** The client's maker saw what its kind says: Redis answered its probe, or did not, or there is no package. */
  predicate Deserved(es: seq<Event>, c: Client) {
    match c
    case Real(id) => Probed(id, true) in es
    case InMemory(id) => Probed(id, false) in es || Get(id, false) in es
  }

  ghost predicate AllDeserved(es: seq<Event>, s: State) {
    && (s.client.Some? ==> Deserved(es, s.client.value))
    && forall i :: 0 <= i < |s.got| ==> Deserved(es, s.got[i])
  }

  lemma StepKeepsDeserved(all: seq<Event>, s: State, e: Event)
    requires AllDeserved(all, s) && e in all
    ensures AllDeserved(all, Step(s, e))
  {
    var s' := Step(s, e);
    forall i | 0 <= i < |s'.got| ensures Deserved(all, s'.got[i]) {
      if i < |s.got| {
        assert s'.got[i] == s.got[i];
      }
    }
  }

  lemma {:induction false} RunKeepsDeserved(all: seq<Event>, s: State, es: seq<Event>)
    requires AllDeserved(all, s) && forall e :: e in es ==> e in all
    ensures AllDeserved(all, Run(s, es))
    decreases |es|
  {
    if es != [] {
      StepKeepsDeserved(all, s, es[0]);
      RunKeepsDeserved(all, Step(s, es[0]), es[1..]);
    }
  }

  /**
  Every client handed out was made for its reason: a real one by a caller whose probe Redis answered, the stand-in
  by one whose probe failed or that found no Redis package.
  */
  lemma ClientsAreDeserved(es: seq<Event>, i: nat)
    requires i < |Run(State(None, {}, []), es).got|
    ensures Deserved(es, Run(State(None, {}, []), es).got[i])
  {
    RunKeepsDeserved(es, State(None, {}, []), es);
  }
}
