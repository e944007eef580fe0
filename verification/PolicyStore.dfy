/** The versioned policy store: creation, update, publication and rollback over three maps
    that must stay in step, and evaluation of the current definition. */
module PolicyStore {
  import opened Wrappers
  import opened Text
  import opened PolicyModel
  import opened PolicyEvaluation
  import Context

  /** A parsed UUID. */
  type Uuid = nat
  const NIL: Uuid := 0

  type Time = int

  datatype Status = Draft | Published

  datatype Policy = Policy(
    id: Uuid, name: string, version: int, status: Status, definition: Definition,
    createdBy: Uuid, createdAt: Time, publishedAt: Option<Time>)

  /** The optional creator field of a creation request. */
  datatype Creator = Blank | Malformed | User(id: Uuid)

  datatype PolicyError =
    | NameRequired | NameEmpty | NameTaken | InvalidDefinition | MalformedCreator
    | MalformedID | PolicyNotFound | NoVersions | NoPreviousVersion | TargetNotFound | FieldsRequired

  datatype State = State(
    policies: map<Uuid, Policy>,
    versions: map<Uuid, map<int, Definition>>,
    published: map<Uuid, int>)

  const EMPTY: State := State(map[], map[], map[])

  /** Another policy, other than `self`, already has this name up to case. */
  ghost predicate NameClashes(policies: map<Uuid, Policy>, name: string, self: Option<Uuid>) {
    exists id :: id in policies && self != Some(id) && EqualFold(policies[id].name, name)
  }

  ghost function CreateNext(s: State, name: string, d: Definition, creator: Creator, newID: Uuid, now: Time)
    : (State, Result<Policy, PolicyError>)
  {
    if TrimSpace(name) == "" then (s, Err(NameRequired))
    else if !ValidDefinition(d) then (s, Err(InvalidDefinition))
    else if creator.Malformed? then (s, Err(MalformedCreator))
    else if NameClashes(s.policies, TrimSpace(name), None) then (s, Err(NameTaken))
    else
      var author := if creator.User? then creator.id else NIL;
      var p := Policy(newID, TrimSpace(name), 1, Draft, d, author, now, None);
      (State(s.policies[newID := p], s.versions[newID := map[1 := d]], s.published), Ok(p))
  }

  function VersionsOf(s: State, id: Uuid): map<int, Definition> {
    if id in s.versions then s.versions[id] else map[]
  }

  ghost function UpdateNext(s: State, id: Option<Uuid>, name: string, d: Option<Definition>)
    : (State, Result<Policy, PolicyError>)
  {
    if id.None? then (s, Err(MalformedID))
    else if id.value !in s.policies then (s, Err(PolicyNotFound))
    else if name != "" && TrimSpace(name) == "" then (s, Err(NameEmpty))
    else if name != "" && NameClashes(s.policies, TrimSpace(name), id) then (s, Err(NameTaken))
    else if d.Some? && !ValidDefinition(d.value) then (s, Err(InvalidDefinition))
    else
      var old' := s.policies[id.value];
      var named := if name == "" then old' else old'.(name := TrimSpace(name));
      if d.None? then (s.(policies := s.policies[id.value := named]), Ok(named))
      else
        var p := named.(definition := d.value, version := named.version + 1, status := Draft, publishedAt := None);
        (State(s.policies[id.value := p],
               s.versions[id.value := VersionsOf(s, id.value)[p.version := d.value]], s.published), Ok(p))
  }

  function PublishNext(s: State, id: Option<Uuid>, now: Time): (State, Result<Policy, PolicyError>) {
    if id.None? then (s, Err(MalformedID))
    else if id.value !in s.policies then (s, Err(PolicyNotFound))
    else
      var p := s.policies[id.value].(status := Published, publishedAt := Some(now));
      (s.(policies := s.policies[id.value := p], published := s.published[id.value := p.version]), Ok(p))
  }

  /** The largest recorded version below the current one, or zero. */
  ghost predicate IsPrevious(available: map<int, Definition>, current: int, best: int) {
    && (best == 0 || (best in available && 0 < best < current))
    && forall v :: v in available && v < current ==> v <= best || v <= 0
  }

  function Previous(available: map<int, Definition>, current: int): (best: int)
    ensures IsPrevious(available, current, best)
    decreases current
  {
    if current <= 1 then 0
    else if current - 1 in available then current - 1
    else Previous(available, current - 1)
  }

  ghost function RollbackNext(s: State, id: Option<Uuid>, requested: int, now: Time)
    : (State, Result<Policy, PolicyError>)
  {
    if id.None? then (s, Err(MalformedID))
    else if id.value !in s.policies then (s, Err(PolicyNotFound))
    else
      var available := VersionsOf(s, id.value);
      var old' := s.policies[id.value];
      var target := if requested <= 0 then Previous(available, old'.version) else requested;
      if available == map[] then (s, Err(NoVersions))
      else if requested <= 0 && target == 0 then (s, Err(NoPreviousVersion))
      else if target !in available then (s, Err(TargetNotFound))
      else
        var p := old'.(definition := available[target], version := old'.version + 1,
                       status := Published, publishedAt := Some(now));
        (State(s.policies[id.value := p],
               s.versions[id.value := available[p.version := p.definition]],
               s.published[id.value := p.version]), Ok(p))
  }

  datatype Response = Response(policyID: Uuid, verdict: Verdict)

  /** Evaluation always uses the current definition, published or not. */
  ghost function EvaluateIn(s: State, id: Option<Uuid>, req: Context.Request, clock: Context.Instant)
    : Result<Response, PolicyError>
  {
    if id.None? then Err(MalformedID)
    else if id.value !in s.policies then Err(PolicyNotFound)
    else
      match Answer(s.policies[id.value].definition, req, clock)
      case Err(_) => Err(FieldsRequired)
      case Ok(v) => Ok(Response(s.policies[id.value].id, v))
  }

  class PolicyService {
    var policies: map<Uuid, Policy>
    var versions: map<Uuid, map<int, Definition>>
    var published: map<Uuid, int>

    function Contents(): State
      reads this
    {
      State(policies, versions, published)
    }

    constructor ()
      ensures Contents() == EMPTY
    {
      policies, versions, published := map[], map[], map[];
    }

    method NameInUse(name: string, self: Option<Uuid>) returns (taken: bool)
      ensures taken <==> NameClashes(policies, name, self)
    {
      var rest := policies.Keys;
      while rest != {}
        invariant rest <= policies.Keys
        invariant forall id :: id in policies && id !in rest ==> self == Some(id) || !EqualFold(policies[id].name, name)
        decreases rest
      {
        var id :| id in rest;
        if self != Some(id) && EqualFold(policies[id].name, name) {
          return true;
        }
        rest := rest - {id};
      }
      return false;
    }

    method CreatePolicy(name: string, definition: Definition, creator: Creator, newID: Uuid, now: Time)
      returns (r: Result<Policy, PolicyError>)
      requires newID !in policies
      modifies this
      ensures (Contents(), r) == CreateNext(old(Contents()), name, definition, creator, newID, now)
    {
      hide ValidDefinition, TrimSpace, EqualFold;
      var trimmed := TrimSpace(name);
      if trimmed == "" {
        return Err(NameRequired);
      }
      if !ValidDefinition(definition) {
        return Err(InvalidDefinition);
      }
      var createdBy := NIL;
      match creator {
        case Blank =>
        case Malformed => return Err(MalformedCreator);
        case User(id) => createdBy := id;
      }
      var policy := Policy(newID, trimmed, 1, Draft, definition, createdBy, now, None);
      var taken := NameInUse(trimmed, None);
      if taken {
        return Err(NameTaken);
      }
      policies := policies[policy.id := policy];
      versions := versions[policy.id := map[1 := policy.definition]];
      return Ok(policy);
    }

    method UpdatePolicy(policyID: Option<Uuid>, newName: string, definition: Option<Definition>)
      returns (r: Result<Policy, PolicyError>)
      modifies this
      ensures (Contents(), r) == UpdateNext(old(Contents()), policyID, newName, definition)
    {
      hide ValidDefinition, TrimSpace, EqualFold;
      if policyID.None? {
        return Err(MalformedID);
      }
      var id := policyID.value;
      if id !in policies {
        return Err(PolicyNotFound);
      }
      var policy := policies[id];
      if newName != "" {
        var name := TrimSpace(newName);
        if name == "" {
          return Err(NameEmpty);
        }
        var taken := NameInUse(name, Some(id));
        if taken {
          return Err(NameTaken);
        }
        policy := policy.(name := name);
      }
      if definition.Some? {
        if !ValidDefinition(definition.value) {
          return Err(InvalidDefinition);
        }
        policy := policy.(definition := definition.value);
        policy := policy.(version := policy.version + 1);
        policy := policy.(status := Draft);
        policy := policy.(publishedAt := None);
        if id !in versions {
          versions := versions[id := map[]];
        }
        versions := versions[id := versions[id][policy.version := policy.definition]];
        assert versions == old(versions)[id := VersionsOf(old(Contents()), id)[policy.version := policy.definition]];
      }
      policies := policies[id := policy];
      return Ok(policy);
    }

    method PublishPolicy(policyID: Option<Uuid>, now: Time) returns (r: Result<Policy, PolicyError>)
      modifies this
      ensures (Contents(), r) == PublishNext(old(Contents()), policyID, now)
    {
      if policyID.None? {
        return Err(MalformedID);
      }
      var id := policyID.value;
      if id !in policies {
        return Err(PolicyNotFound);
      }
      var policy := policies[id];
      policy := policy.(status := Published);
      policy := policy.(publishedAt := Some(now));
      policies := policies[id := policy];
      published := published[id := policy.version];
      return Ok(policy);
    }

    method PreviousVersion(id: Uuid, current: int) returns (best: int)
      ensures IsPrevious(VersionsOf(Contents(), id), current, best)
    {
      best := 0;
      if id !in versions {
        return;
      }
      var available := versions[id];
      var rest := available.Keys;
      while rest != {}
        invariant rest <= available.Keys
        invariant best == 0 || (best in available && 0 < best < current)
        invariant forall v :: v in available && v !in rest && v < current ==> v <= best
        decreases rest
      {
        ghost var some := Inhabited(rest);
        var v: int :| v in rest;
        if v < current && v > best {
          best := v;
        }
        rest := rest - {v};
      }
    }

    method RollbackPolicy(policyID: Option<Uuid>, requested: int, now: Time)
      returns (r: Result<Policy, PolicyError>)
      modifies this
      ensures (Contents(), r) == RollbackNext(old(Contents()), policyID, requested, now)
    {
      if policyID.None? {
        return Err(MalformedID);
      }
      var id := policyID.value;
      if id !in policies {
        return Err(PolicyNotFound);
      }
      var policy := policies[id];
      var available: map<int, Definition> := if id in versions then versions[id] else map[];
      if |available| == 0 {
        return Err(NoVersions);
      }
      var target := requested;
      if target <= 0 {
        target := PreviousVersion(id, policy.version);
        PreviousUnique(available, policy.version, target);
        if target == 0 {
          return Err(NoPreviousVersion);
        }
      }
      if target !in available {
        return Err(TargetNotFound);
      }
      policy := policy.(definition := available[target]);
      policy := policy.(version := policy.version + 1);
      policy := policy.(status := Published);
      policy := policy.(publishedAt := Some(now));
      versions := versions[id := available[policy.version := policy.definition]];
      published := published[id := policy.version];
      policies := policies[id := policy];
      return Ok(policy);
    }

    method EvaluatePolicy(policyID: Option<Uuid>, req: Context.Request, clock: Context.Instant)
      returns (r: Result<Response, PolicyError>)
      ensures r == EvaluateIn(Contents(), policyID, req, clock)
    {
      if policyID.None? {
        return Err(MalformedID);
      }
      if policyID.value !in policies {
        return Err(PolicyNotFound);
      }
      var policy := policies[policyID.value];
      var answer := Evaluate(policy.definition, req, clock);
      match answer {
        case Err(_) => return Err(FieldsRequired);
        case Ok(v) => return Ok(Response(policy.id, v));
      }
    }
  }

  lemma PreviousUnique(available: map<int, Definition>, current: int, best: int)
    requires IsPrevious(available, current, best)
    ensures best == Previous(available, current)
  {
  }
}
