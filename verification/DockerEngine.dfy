/**
 The Docker engine as the agent uses it (internal/agent/runtime/docker_deployment.go:26-70): names
 and IDs are unique, a rename fails when the target name is taken, every call may fail with or
 without having taken effect, and the agent may stop before or after any call.
 */
module DockerEngine {
  import opened Common

  /** The execution a container was created for; a container without labels has an empty ID. */
  datatype Labels = Labels(deploymentId: string, fencingToken: uint64, cutoverSequence: uint64)

  datatype Container = Container(id: nat, labels: Labels)

  type Containers = map<string, Container>

  /** An answer, or the agent stopping at this call. */
  datatype Reply<+T> = Answer(value: T) | Crash {
    predicate IsFailure() { Crash? }

    function PropagateFailure<U>(): Reply<U>
      requires IsFailure()
    {
      Crash
    }

    function Extract(): T
      requires !IsFailure()
    {
      value
    }
  }

  datatype State = Running(healthy: bool) | NotRunning

  datatype Lookup = Found(container: Container, state: State) | NotFound | Unavailable

  datatype Removal = Removed | Missing | RemovalFailed

  datatype EngineCall =
    | Create(name: string, labels: Labels)
    | Start(id: nat)
    | Rename(id: nat, name: string)
    | Remove(id: nat)

  /** What is asked without changing a container. The image is looked up once: it is present, absent, or unknown. */
  datatype Question = Connected | Reachable | ImagePresent | ImageAbsent | ImagePulled | NetworkUsable | Ready(id: nat)

  /** What the engine told: a container and its state, or the answer to a question. */
  datatype Report = Seen(container: Container, state: State) | Told(question: Question, yes: bool)

  /** The state in which a container was first seen. */
  function FirstSeen(reports: seq<Report>, c: Container): Option<State> {
    if reports == [] then None
    else if reports[0].Seen? && reports[0].container == c then Some(reports[0].state)
    else FirstSeen(reports[1..], c)
  }

  lemma {:induction false} FirstSeenStays(reports: seq<Report>, more: seq<Report>, c: Container)
    ensures FirstSeen(reports + more, c) ==
      if FirstSeen(reports, c).Some? then FirstSeen(reports, c) else FirstSeen(more, c)
  {
    if reports == [] {
      assert reports + more == more;
    } else {
      FirstSeenStays(reports[1..], more, c);
      assert (reports + more)[1..] == reports[1..] + more;
    }
  }

  ghost predicate UniqueIds(m: Containers) {
    forall a, b :: a in m && b in m && m[a].id == m[b].id ==> a == b
  }

  ghost predicate HasId(m: Containers, id: nat) {
    exists name :: name in m && m[name].id == id
  }

  ghost function NameOf(m: Containers, id: nat): (name: string)
    requires HasId(m, id)
    ensures name in m && m[name].id == id
  {
    var name :| name in m && m[name].id == id;
    name
  }

  ghost function AfterRename(m: Containers, id: nat, to: string): Containers {
    if HasId(m, id) && to !in m then (m - {NameOf(m, id)})[to := m[NameOf(m, id)]] else m
  }

  ghost function AfterRemove(m: Containers, id: nat): Containers {
    if HasId(m, id) then m - {NameOf(m, id)} else m
  }

  lemma KnownName(m: Containers, name: string)
    requires UniqueIds(m) && name in m
    ensures HasId(m, m[name].id) && NameOf(m, m[name].id) == name
  {
  }

  class Engine {
    var containers: Containers
    var nextId: nat
    /** The calls that may have changed something, in order. */
    ghost var calls: seq<EngineCall>
    /** Some call failed although the engine could have served it. */
    ghost var disturbed: bool
    /** What the engine told, in order. */
    ghost var reports: seq<Report>

    ghost predicate Valid()
      reads this
    {
      UniqueIds(containers) && forall name :: name in containers ==> containers[name].id < nextId
    }

    constructor ()
      ensures Valid() && containers == map[] && calls == []
    {
      containers, nextId, calls, disturbed, reports := map[], 0, [], false, [];
    }

    method Inspect(name: string) returns (r: Reply<Lookup>)
      modifies this`disturbed, this`reports
      ensures r.Answer? && r.value.Found? ==> name in containers && r.value.container == containers[name]
      ensures r.Answer? && r.value.NotFound? ==> name !in containers
      ensures disturbed == (old(disturbed) || r == Answer(Unavailable))
      ensures reports == old(reports)
        + if r.Answer? && r.value.Found? then [Seen(r.value.container, r.value.state)] else []
    {
      if * { return Crash; }
      if * { disturbed := true; return Answer(Unavailable); }
      if name !in containers { return Answer(NotFound); }
      var state := ReportState();
      reports := reports + [Seen(containers[name], state)];
      return Answer(Found(containers[name], state));
    }

    method InspectId(id: nat) returns (r: Reply<Lookup>)
      requires Valid()
      modifies this`disturbed, this`reports
      ensures r.Answer? && r.value.Found? ==>
        HasId(containers, id) && r.value.container == containers[NameOf(containers, id)]
      ensures r.Answer? && r.value.NotFound? ==> !HasId(containers, id)
      ensures disturbed == (old(disturbed) || r == Answer(Unavailable))
      ensures reports == old(reports)
        + if r.Answer? && r.value.Found? then [Seen(r.value.container, r.value.state)] else []
    {
      if * { return Crash; }
      if * { disturbed := true; return Answer(Unavailable); }
      var name := Locate(id);
      if name.None? { return Answer(NotFound); }
      var state := ReportState();
      reports := reports + [Seen(containers[name.value], state)];
      return Answer(Found(containers[name.value], state));
    }

    /** Containers start, stop and change health on their own. */
    method ReportState() returns (state: State) {
      var healthy := *;
      if * { state := Running(healthy); } else { state := NotRunning; }
    }

    method Locate(id: nat) returns (name: Option<string>)
      requires Valid()
      ensures name.Some? <==> HasId(containers, id)
      ensures name.Some? ==> name.value in containers && name.value == NameOf(containers, id)
    {
      var remaining := containers.Keys;
      while remaining != {}
        invariant remaining <= containers.Keys
        invariant forall n :: n in containers && n !in remaining ==> containers[n].id != id
        decreases remaining
      {
        var n :| n in remaining;
        if containers[n].id == id {
          KnownName(containers, n);
          return Some(n);
        }
        remaining := remaining - {n};
      }
      return None;
    }

    method Create(name: string, labels: Labels) returns (r: Reply<Option<nat>>)
      requires Valid()
      modifies this`containers, this`nextId, this`calls, this`disturbed
      ensures Valid() && calls == old(calls) + [EngineCall.Create(name, labels)] && (old(disturbed) ==> disturbed)
      ensures containers == old(containers)
        || (name !in old(containers) && containers == old(containers)[name := Container(old(nextId), labels)])
      ensures r.Answer? && r.value.Some? ==>
        && name !in old(containers) && r.value.value == old(nextId)
        && containers == old(containers)[name := Container(old(nextId), labels)]
      ensures r.Answer? && r.value.None? && name !in old(containers) ==> disturbed
    {
      calls := calls + [EngineCall.Create(name, labels)];
      if * { return Crash; }
      if name in containers { return Answer(None); }
      if * { disturbed := true; return Answer(None); }
      containers, nextId := containers[name := Container(nextId, labels)], nextId + 1;
      if * { return Crash; }
      if * { disturbed := true; return Answer(None); }
      return Answer(Some(nextId - 1));
    }

    method Start(id: nat) returns (r: Reply<bool>)
      modifies this`calls, this`disturbed
      ensures calls == old(calls) + [EngineCall.Start(id)]
      ensures disturbed == (old(disturbed) || r == Answer(false))
    {
      calls := calls + [EngineCall.Start(id)];
      if * { return Crash; }
      if * { return Answer(true); }
      disturbed := true;
      return Answer(false);
    }

    method Rename(id: nat, name: string) returns (r: Reply<bool>)
      requires Valid()
      modifies this`containers, this`nextId, this`calls, this`disturbed
      ensures Valid() && calls == old(calls) + [EngineCall.Rename(id, name)] && (old(disturbed) ==> disturbed)
      ensures containers == old(containers) || containers == AfterRename(old(containers), id, name)
      ensures r == Answer(true) ==>
        && HasId(old(containers), id) && name !in old(containers)
        && containers == AfterRename(old(containers), id, name)
      ensures r == Answer(false) && HasId(old(containers), id) && name !in old(containers) ==> disturbed
    {
      calls := calls + [EngineCall.Rename(id, name)];
      if * { return Crash; }
      var from := Locate(id);
      if from.None? || name in containers { return Answer(false); }
      if * { disturbed := true; return Answer(false); }
      containers := (containers - {from.value})[name := containers[from.value]];
      if * { return Crash; }
      if * { disturbed := true; return Answer(false); }
      return Answer(true);
    }

    method Remove(id: nat) returns (r: Reply<Removal>)
      requires Valid()
      modifies this`containers, this`nextId, this`calls, this`disturbed
      ensures Valid() && calls == old(calls) + [EngineCall.Remove(id)] && (old(disturbed) ==> disturbed)
      ensures containers == old(containers) || containers == AfterRemove(old(containers), id)
      ensures r.Answer? && !r.value.RemovalFailed? ==> containers == AfterRemove(old(containers), id)
      ensures r == Answer(RemovalFailed) ==> disturbed
    {
      calls := calls + [EngineCall.Remove(id)];
      if * { return Crash; }
      if * { disturbed := true; return Answer(RemovalFailed); }
      var name := Locate(id);
      if name.None? { return Answer(Missing); }
      containers := containers - {name.value};
      if * { return Crash; }
      if * { disturbed := true; return Answer(RemovalFailed); }
      return Answer(Removed);
    }

    /** A question whose answer changes no container. */
    method Ask(question: Question) returns (r: Reply<bool>)
      modifies this`reports
      ensures reports == old(reports) + if r.Answer? then [Told(question, r.value)] else []
    {
      if * { return Crash; }
      var yes: bool := *;
      reports := reports + [Told(question, yes)];
      return Answer(yes);
    }
  }
}
