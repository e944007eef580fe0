/** What every run of the policy store keeps, and what rolling back restores. */
module PolicyHistory {
  import opened Wrappers
  import opened Text
  import opened Conditions
  import opened PolicyModel
  import opened PolicyEvaluation
  import opened PolicyStore
  import Context
  import Values

  datatype Op =
    | Create(name: string, d: Definition, creator: Creator, newID: Uuid, now: Time)
    | Update(id: Option<Uuid>, newName: string, change: Option<Definition>)
    | Publish(id: Option<Uuid>, now: Time)
    | Rollback(id: Option<Uuid>, requested: int, now: Time)

  ghost function Next(s: State, op: Op): State {
    match op
    case Create(name, d, creator, newID, now) => CreateNext(s, name, d, creator, newID, now).0
    case Update(id, name, d) => UpdateNext(s, id, name, d).0
    case Publish(id, now) => PublishNext(s, id, now).0
    case Rollback(id, requested, now) => RollbackNext(s, id, requested, now).0
  }

  /** Generated identifiers are new. */
  predicate Legal(s: State, op: Op) {
    op.Create? ==> op.newID !in s.policies
  }

  ghost predicate Run(states: seq<State>, ops: seq<Op>) {
    && |states| == |ops| + 1
    && forall i :: 0 <= i < |ops| ==> Legal(states[i], ops[i]) && states[i + 1] == Next(states[i], ops[i])
  }

  // ---- The three maps stay in step ----

  function Mark(s: State, id: Uuid): Option<int> {
    if id in s.published then Some(s.published[id]) else None
  }

  /** One policy, its recorded versions and its published version agree. */
  ghost predicate InStep(id: Uuid, p: Policy, history: map<int, Definition>, mark: Option<int>) {
    && p.id == id
    && p.version >= 1
    && (forall v :: v in history <==> 1 <= v <= p.version)
    && history[p.version] == p.definition
    && (forall v :: v in history ==> ValidDefinition(history[v]))
    && (mark.Some? ==> 1 <= mark.value <= p.version)
    && (p.status == Published <==> mark == Some(p.version))
    && (p.status == Published <==> p.publishedAt.Some?)
    && p.name != "" && Trimmed(p.name)
  }

  ghost predicate NamesDistinct(policies: map<Uuid, Policy>) {
    forall a, b :: a in policies && b in policies && a != b ==> !EqualFold(policies[a].name, policies[b].name)
  }

  ghost predicate Inv(s: State) {
    && s.versions.Keys == s.policies.Keys
    && s.published.Keys <= s.policies.Keys
    && NamesDistinct(s.policies)
    && forall id :: id in s.policies ==> InStep(id, s.policies[id], s.versions[id], Mark(s, id))
  }

  ghost predicate GrowsTo(p: Policy, history: map<int, Definition>, p': Policy, history': map<int, Definition>) {
    && p.version <= p'.version
    && forall v :: v in history ==> v in history' && history'[v] == history[v]
  }

  /** History is append-only: nothing recorded for a policy changes or disappears. */
  ghost predicate Extends(s: State, t: State) {
    forall id :: id in s.policies && id in s.versions ==>
      && id in t.policies && id in t.versions
      && GrowsTo(s.policies[id], s.versions[id], t.policies[id], t.versions[id])
  }

  /** `t` differs from `s` at most in the policy `id`, which it holds. */
  ghost predicate Replaces(s: State, t: State, id: Uuid) {
    && id in t.policies && id in t.versions
    && t.policies == s.policies[id := t.policies[id]]
    && t.versions == s.versions[id := t.versions[id]]
    && (t.published == s.published || (id in t.published && t.published == s.published[id := t.published[id]]))
  }

  lemma ReplaceKeepsInv(s: State, t: State, id: Uuid)
    requires Inv(s) && Replaces(s, t, id)
    requires InStep(id, t.policies[id], t.versions[id], Mark(t, id))
    requires id in s.policies ==> GrowsTo(s.policies[id], s.versions[id], t.policies[id], t.versions[id])
    requires !NameClashes(s.policies, t.policies[id].name, Some(id))
    ensures Inv(t) && Extends(s, t)
  {
    hide InStep, GrowsTo, EqualFold;
    forall k | k in t.policies
      ensures InStep(k, t.policies[k], t.versions[k], Mark(t, k))
    {
      assert k != id ==> Mark(t, k) == Mark(s, k);
    }
    forall k | k in s.policies
      ensures GrowsTo(s.policies[k], s.versions[k], t.policies[k], t.versions[k])
    {
      assert k != id ==> GrowsTo(s.policies[k], s.versions[k], s.policies[k], s.versions[k]) by {
        GrowsReflexive(s.policies[k], s.versions[k]);
      }
    }
    DistinctAfter(s.policies, id, t.policies[id]);
  }

  lemma GrowsReflexive(p: Policy, history: map<int, Definition>)
    ensures GrowsTo(p, history, p, history)
  {
  }

  lemma DistinctAfter(policies: map<Uuid, Policy>, id: Uuid, p: Policy)
    requires NamesDistinct(policies) && !NameClashes(policies, p.name, Some(id))
    ensures NamesDistinct(policies[id := p])
  {
  }

  lemma NoClash(policies: map<Uuid, Policy>, id: Uuid)
    requires NamesDistinct(policies) && id in policies
    ensures !NameClashes(policies, policies[id].name, Some(id))
  {
  }

  lemma CreateKeepsInv(s: State, op: Op)
    requires Inv(s) && op.Create? && Legal(s, op)
    ensures Inv(Next(s, op)) && Extends(s, Next(s, op))
  {
    hide ValidDefinition, TrimSpace, EqualFold, InStep, GrowsTo;
    var t := Next(s, op);
    if CreateNext(s, op.name, op.d, op.creator, op.newID, op.now).1.Ok? {
      FirstVersionInStep(t.policies[op.newID], op.newID, op.d);
      assert !NameClashes(s.policies, TrimSpace(op.name), Some(op.newID));
      ReplaceKeepsInv(s, t, op.newID);
    } else {
      SameExtends(s);
    }
  }

  lemma SameExtends(s: State)
    ensures Extends(s, s)
  {
  }

  lemma FirstVersionInStep(p: Policy, id: Uuid, d: Definition)
    requires p.id == id && p.version == 1 && p.definition == d && p.status == Draft && p.publishedAt == None
    requires ValidDefinition(d) && p.name != "" && Trimmed(p.name)
    ensures InStep(id, p, map[1 := d], None)
  {
  }

  /** Adding one version on top keeps a policy in step, whether published or not. */
  lemma BumpInStep(id: Uuid, p: Policy, history: map<int, Definition>, mark: Option<int>, q: Policy, mark': Option<int>)
    requires InStep(id, p, history, mark)
    requires q.id == id && q.version == p.version + 1 && ValidDefinition(q.definition)
    requires q.name != "" && Trimmed(q.name)
    requires (q.status == Draft && q.publishedAt == None && mark' == mark)
      || (q.status == Published && q.publishedAt.Some? && mark' == Some(q.version))
    ensures InStep(id, q, history[q.version := q.definition], mark')
    ensures GrowsTo(p, history, q, history[q.version := q.definition])
  {
  }

  /** Changing the name or publishing keeps a policy in step. */
  lemma TouchInStep(id: Uuid, p: Policy, history: map<int, Definition>, mark: Option<int>, q: Policy,
                    mark': Option<int>)
    requires InStep(id, p, history, mark)
    requires q.id == id && q.version == p.version && q.definition == p.definition
    requires q.name != "" && Trimmed(q.name)
    requires (q.status == p.status && q.publishedAt == p.publishedAt && mark' == mark)
      || (q.status == Published && q.publishedAt.Some? && mark' == Some(q.version))
    ensures InStep(id, q, history, mark') && GrowsTo(p, history, q, history)
  {
  }

  lemma NameIsClean(id: Uuid, p: Policy, history: map<int, Definition>, mark: Option<int>)
    requires InStep(id, p, history, mark)
    ensures p.id == id && p.name != "" && Trimmed(p.name)
  {
  }

  lemma RenameKeepsInv(s: State, op: Op)
    requires Inv(s) && op.Update? && op.change.None? && UpdateNext(s, op.id, op.newName, op.change).1.Ok?
    ensures Inv(Next(s, op)) && Extends(s, Next(s, op))
  {
    hide ValidDefinition, TrimSpace, Trimmed, EqualFold, InStep, GrowsTo;
    var t, id := Next(s, op), op.id.value;
    NameIsClean(id, s.policies[id], s.versions[id], Mark(s, id));
    NoClash(s.policies, id);
    TouchInStep(id, s.policies[id], s.versions[id], Mark(s, id), t.policies[id], Mark(t, id));
    assert t.versions == s.versions[id := s.versions[id]];
    ReplaceKeepsInv(s, t, id);
  }

  lemma RedefineKeepsInv(s: State, op: Op)
    requires Inv(s) && op.Update? && op.change.Some? && UpdateNext(s, op.id, op.newName, op.change).1.Ok?
    ensures Inv(Next(s, op)) && Extends(s, Next(s, op))
  {
    hide ValidDefinition, TrimSpace, Trimmed, EqualFold, InStep, GrowsTo;
    var t, id := Next(s, op), op.id.value;
    NameIsClean(id, s.policies[id], s.versions[id], Mark(s, id));
    NoClash(s.policies, id);
    BumpInStep(id, s.policies[id], s.versions[id], Mark(s, id), t.policies[id], Mark(t, id));
    ReplaceKeepsInv(s, t, id);
  }

  lemma UpdateKeepsInv(s: State, op: Op)
    requires Inv(s) && op.Update?
    ensures Inv(Next(s, op)) && Extends(s, Next(s, op))
  {
    hide Inv, Extends, ValidDefinition, TrimSpace, NameClashes;
    if UpdateNext(s, op.id, op.newName, op.change).1.Ok? {
      if op.change.None? {
        RenameKeepsInv(s, op);
      } else {
        RedefineKeepsInv(s, op);
      }
    } else {
      SameExtends(s);
    }
  }

  lemma PublishKeepsInv(s: State, op: Op)
    requires Inv(s) && op.Publish?
    ensures Inv(Next(s, op)) && Extends(s, Next(s, op))
  {
    hide ValidDefinition, Trimmed, EqualFold, InStep, GrowsTo;
    var t := Next(s, op);
    if PublishNext(s, op.id, op.now).1.Ok? {
      var id := op.id.value;
      NameIsClean(id, s.policies[id], s.versions[id], Mark(s, id));
      NoClash(s.policies, id);
      TouchInStep(id, s.policies[id], s.versions[id], Mark(s, id), t.policies[id], Mark(t, id));
      assert t.versions == s.versions[id := s.versions[id]];
      ReplaceKeepsInv(s, t, id);
    } else {
      SameExtends(s);
    }
  }

  lemma RollbackKeepsInv(s: State, op: Op)
    requires Inv(s) && op.Rollback?
    ensures Inv(Next(s, op)) && Extends(s, Next(s, op))
  {
    hide ValidDefinition, Trimmed, EqualFold, InStep, GrowsTo;
    var t := Next(s, op);
    if RollbackNext(s, op.id, op.requested, op.now).1.Ok? {
      var id := op.id.value;
      var p, q := s.policies[id], t.policies[id];
      NameIsClean(id, p, s.versions[id], Mark(s, id));
      NoClash(s.policies, id);
      assert exists v :: v in s.versions[id] && s.versions[id][v] == q.definition;
      RecordedIsValid(id, p, s.versions[id], Mark(s, id), q.definition);
      BumpInStep(id, p, s.versions[id], Mark(s, id), q, Mark(t, id));
      ReplaceKeepsInv(s, t, id);
    } else {
      SameExtends(s);
    }
  }

  lemma RecordedIsValid(id: Uuid, p: Policy, history: map<int, Definition>, mark: Option<int>, d: Definition)
    requires InStep(id, p, history, mark) && exists v :: v in history && history[v] == d
    ensures ValidDefinition(d)
  {
  }

  lemma StepKeepsInv(s: State, op: Op)
    requires Inv(s) && Legal(s, op)
    ensures Inv(Next(s, op)) && Extends(s, Next(s, op))
  {
    hide Inv, Next, Extends;
    match op
    case Create(_, _, _, _, _) => CreateKeepsInv(s, op);
    case Update(_, _, _) => UpdateKeepsInv(s, op);
    case Publish(_, _) => PublishKeepsInv(s, op);
    case Rollback(_, _, _) => RollbackKeepsInv(s, op);
  }

  /** In every reachable state the three maps are in step. */
  lemma {:induction false} ReachableInStep(states: seq<State>, ops: seq<Op>, i: nat)
    requires Run(states, ops) && states[0] == EMPTY && i <= |ops|
    ensures Inv(states[i])
  {
    if i > 0 {
      ReachableInStep(states, ops, i - 1);
      StepKeepsInv(states[i - 1], ops[i - 1]);
    }
  }

  lemma ExtendsTransitive(s: State, t: State, u: State)
    requires Extends(s, t) && Extends(t, u)
    ensures Extends(s, u)
  {
  }

  /** Between any two points of a run, versions grow and past entries never change. */
  lemma {:induction false} HistoryIsAppendOnly(states: seq<State>, ops: seq<Op>, i: nat, j: nat)
    requires Run(states, ops) && states[0] == EMPTY && i <= j <= |ops|
    ensures Extends(states[i], states[j])
  {
    hide Inv, Extends, Next, Legal;
    SameExtends(states[i]);
    if i < j {
      HistoryIsAppendOnly(states, ops, i, j - 1);
      ReachableInStep(states, ops, j - 1);
      StepKeepsInv(states[j - 1], ops[j - 1]);
      ExtendsTransitive(states[i], states[j - 1], states[j]);
    }
  }

  /** The entry at the current version is the current definition. */
  lemma CurrentIsRecorded(s: State, id: Uuid)
    requires Inv(s) && id in s.policies
    ensures s.policies[id].id == id && s.policies[id].version >= 1 && id in s.versions
    ensures forall v :: v in s.versions[id] <==> 1 <= v <= s.policies[id].version
    ensures s.versions[id][s.policies[id].version] == s.policies[id].definition
  {
  }

  // ---- What the other operations do ----

  /** The other policies, their versions and marks are as before. */
  ghost predicate OthersKept(s: State, t: State, id: Uuid) {
    && (forall k :: k != id ==> (k in t.policies <==> k in s.policies) && (k in t.versions <==> k in s.versions))
    && (forall k :: k != id && k in s.policies ==> t.policies[k] == s.policies[k])
    && (forall k :: k != id && k in s.versions ==> t.versions[k] == s.versions[k])
    && (forall k :: k != id ==> Mark(t, k) == Mark(s, k))
  }

  /** No other policy has this name up to case. */
  ghost predicate NameFree(s: State, name: string, self: Uuid) {
    forall k :: k in s.policies && k != self ==> !EqualFold(s.policies[k].name, name)
  }

  /** A policy is created exactly if its trimmed name is not blank and free, its definition valid and
      its creator well-formed or absent; it then is a draft at version 1, which records and holds
      the definition it was given. Otherwise nothing changes. */
  lemma CreationOutcome(s: State, name: string, d: Definition, creator: Creator, newID: Uuid, now: Time,
                        t: State, r: Result<Policy, PolicyError>)
    requires Inv(s) && newID !in s.policies && (t, r) == CreateNext(s, name, d, creator, newID, now)
    ensures r.Ok? <==>
      TrimSpace(name) != "" && ValidDefinition(d) && !creator.Malformed? && NameFree(s, TrimSpace(name), newID)
    ensures r.Err? ==> t == s
    ensures r.Ok? ==>
      && newID in t.policies && newID in t.versions && OthersKept(s, t, newID) && Mark(t, newID) == None
      && t.versions[newID].Keys == {1} && t.versions[newID][1] == d
      && var p := t.policies[newID];
      && r.value == p && p.id == newID && p.name == TrimSpace(name) && p.version == 1 && p.status == Draft
      && p.definition == d && p.createdAt == now && p.publishedAt == None
      && p.createdBy == (match creator case User(author) => author case _ => NIL)
  {
    hide ValidDefinition, TrimSpace, NameFree, NameClashes, OthersKept, Mark, Inv;
    NameFreeMeans(s, TrimSpace(name), newID);
    if r.Ok? {
      hide CreateNext, TrimSpace;
      CreationKeepsOthers(s, name, d, creator, newID, now, t, r);
    }
  }

  lemma NameFreeMeans(s: State, name: string, self: Uuid)
    ensures NameFree(s, name, self) <==> !NameClashes(s.policies, name, Some(self))
    ensures self !in s.policies ==> (NameFree(s, name, self) <==> !NameClashes(s.policies, name, None))
  {
    hide EqualFold;
  }

  lemma CreationKeepsOthers(s: State, name: string, d: Definition, creator: Creator, newID: Uuid, now: Time,
                            t: State, r: Result<Policy, PolicyError>)
    requires Inv(s) && newID !in s.policies && (t, r) == CreateNext(s, name, d, creator, newID, now) && r.Ok?
    ensures OthersKept(s, t, newID) && Mark(t, newID) == None
  {
    hide ValidDefinition, TrimSpace, NameClashes, NamesDistinct, InStep;
  }

  /** Whether an update goes through. */
  ghost predicate UpdateAccepted(s: State, id: Uuid, newName: string, d: Option<Definition>) {
    && (newName != "" ==> TrimSpace(newName) != "" && NameFree(s, TrimSpace(newName), id))
    && (d.Some? ==> ValidDefinition(d.value))
  }

  /** An accepted update gives the policy the trimmed new name, if there is one, and stores a new
      definition, if there is one, as the draft next version, current and recorded; the mark, the
      earlier versions and everything else stay. Otherwise nothing changes. */
  lemma UpdateOutcome(s: State, id: Uuid, newName: string, d: Option<Definition>,
                       t: State, r: Result<Policy, PolicyError>)
    requires Inv(s) && id in s.policies && (t, r) == UpdateNext(s, Some(id), newName, d)
    ensures r.Ok? <==> UpdateAccepted(s, id, newName, d)
    ensures r.Err? ==> t == s
    ensures r.Ok? ==>
      && id in t.policies && id in t.versions && OthersKept(s, t, id) && Mark(t, id) == Mark(s, id)
      && var p, q := s.policies[id], t.policies[id];
      && r.value == q && q.id == p.id && q.createdBy == p.createdBy && q.createdAt == p.createdAt
      && q.name == (if newName == "" then p.name else TrimSpace(newName))
      && (d.None? ==>
        && q.version == p.version && q.definition == p.definition && q.status == p.status
        && q.publishedAt == p.publishedAt && t.versions[id] == s.versions[id])
      && (d.Some? ==>
        && q.version == p.version + 1 && q.definition == d.value && q.status == Draft && q.publishedAt == None
        && t.versions[id].Keys == s.versions[id].Keys + {q.version} && t.versions[id][q.version] == d.value
        && forall v :: v in s.versions[id] ==> t.versions[id][v] == s.versions[id][v])
  {
    hide ValidDefinition, TrimSpace, NameFree, NameClashes, OthersKept, Mark, Inv;
    NameFreeMeans(s, TrimSpace(newName), id);
    if r.Ok? {
      CurrentIsRecorded(s, id);
      UpdateKeepsOthers(s, id, newName, d, t, r);
      if d.Some? {
        RedefinitionOutcome(s, id, newName, d.value, t, r);
      }
    }
  }

  lemma UpdateKeepsOthers(s: State, id: Uuid, newName: string, d: Option<Definition>,
                       t: State, r: Result<Policy, PolicyError>)
    requires Inv(s) && id in s.policies && (t, r) == UpdateNext(s, Some(id), newName, d) && r.Ok?
    ensures id in t.policies && id in t.versions && OthersKept(s, t, id) && Mark(t, id) == Mark(s, id)
    ensures r.value == t.policies[id]
  {
    hide ValidDefinition, TrimSpace, NameClashes, NamesDistinct, InStep;
  }

  lemma RedefinitionOutcome(s: State, id: Uuid, newName: string, d: Definition,
                            t: State, r: Result<Policy, PolicyError>)
    requires Inv(s) && id in s.policies && (t, r) == UpdateNext(s, Some(id), newName, Some(d)) && r.Ok?
    ensures id in t.policies && id in t.versions
    ensures var p, q := s.policies[id], t.policies[id];
      && q.version == p.version + 1 && q.definition == d && q.status == Draft && q.publishedAt == None
      && t.versions[id].Keys == s.versions[id].Keys + {q.version} && t.versions[id][q.version] == d
      && forall v :: v in s.versions[id] ==> t.versions[id][v] == s.versions[id][v]
  {
    hide ValidDefinition, TrimSpace, NameClashes;
    CurrentIsRecorded(s, id);
    hide Inv;
  }

  /** Publishing marks the current version and changes nothing else. */
  lemma PublishOutcome(s: State, id: Uuid, now: Time, t: State, r: Result<Policy, PolicyError>)
    requires id in s.policies && (t, r) == PublishNext(s, Some(id), now)
    ensures r.Ok? && id in t.policies && OthersKept(s, t, id) && t.versions == s.versions
    ensures var p, q := s.policies[id], t.policies[id];
      && r.value == q && q.status == Published && q.publishedAt == Some(now) && Mark(t, id) == Some(p.version)
      && q.id == p.id && q.name == p.name && q.version == p.version && q.definition == p.definition
      && q.createdBy == p.createdBy && q.createdAt == p.createdAt
  {
  }

  /** A request for a malformed or unknown policy fails and changes nothing. */
  lemma UnknownPolicies(s: State, id: Option<Uuid>, newName: string, d: Option<Definition>, requested: int, now: Time,
                        req: Context.Request, clock: Context.Instant)
    requires id.None? || id.value !in s.policies
    ensures var e := if id.None? then MalformedID else PolicyNotFound;
      && UpdateNext(s, id, newName, d) == (s, Err(e)) && PublishNext(s, id, now) == (s, Err(e))
      && RollbackNext(s, id, requested, now) == (s, Err(e)) && EvaluateIn(s, id, req, clock) == Err(e)
  {
  }

  /** The response of a policy that holds this definition. */
  ghost function Responding(id: Uuid, d: Definition, req: Context.Request, clock: Context.Instant)
    : Result<Response, PolicyError>
  {
    match Answer(d, req, clock)
    case Err(_) => Err(FieldsRequired)
    case Ok(v) => Ok(Response(id, v))
  }

  /** Over every run: right after an accepted update with a definition the policy answers by that
      definition, draft though it is, and right after one without, or after publication, as before. */
  lemma UpdatesDecide(states: seq<State>, ops: seq<Op>, i: nat, id: Uuid, req: Context.Request, clock: Context.Instant)
    requires Run(states, ops) && states[0] == EMPTY && i < |ops| && id in states[i].policies
    ensures ops[i].Update? && ops[i].id == Some(id) && UpdateAccepted(states[i], id, ops[i].newName, ops[i].change) ==>
      EvaluateIn(states[i + 1], Some(id), req, clock) ==
        var d := if ops[i].change.Some? then ops[i].change.value else states[i].policies[id].definition;
        Responding(id, d, req, clock)
    ensures ops[i].Publish? ==>
      EvaluateIn(states[i + 1], Some(id), req, clock) == EvaluateIn(states[i], Some(id), req, clock)
  {
    hide Answer, ValidDefinition, TrimSpace, NameFree, NamesDistinct, InStep, PublishNext, UpdateNext, Legal;
    ReachableInStep(states, ops, i);
    CurrentIsRecorded(states[i], id);
    assert states[i + 1] == Next(states[i], ops[i]);
    if ops[i].Update? && ops[i].id == Some(id) {
      var (t, r) := UpdateNext(states[i], Some(id), ops[i].newName, ops[i].change);
      UpdateOutcome(states[i], id, ops[i].newName, ops[i].change, t, r);
    }
    if ops[i].Publish? {
      PublishKeepsResponses(states[i], ops[i].id, ops[i].now, id, req, clock);
    }
  }

  lemma PublishKeepsResponses(s: State, published: Option<Uuid>, now: Time, id: Uuid,
                              req: Context.Request, clock: Context.Instant)
    ensures EvaluateIn(PublishNext(s, published, now).0, Some(id), req, clock) == EvaluateIn(s, Some(id), req, clock)
  {
    hide Answer;
  }

  /** Likewise right after a creation. */
  lemma CreationsDecide(states: seq<State>, ops: seq<Op>, i: nat, req: Context.Request, clock: Context.Instant)
    requires Run(states, ops) && states[0] == EMPTY && i < |ops|
    requires ops[i].Create? && ops[i].newID in states[i + 1].policies
    ensures EvaluateIn(states[i + 1], Some(ops[i].newID), req, clock) == Responding(ops[i].newID, ops[i].d, req, clock)
  {
    hide Answer, ValidDefinition, TrimSpace, NamesDistinct, InStep, CreateNext;
    ReachableInStep(states, ops, i);
    var op := ops[i];
    var (t, r) := CreateNext(states[i], op.name, op.d, op.creator, op.newID, op.now);
    CreationOutcome(states[i], op.name, op.d, op.creator, op.newID, op.now, t, r);
  }

  /** A policy of one rule that asks for a level of device trust decides by that rule exactly for
      the requests that state the level, whatever their case and surrounding white space. */
  lemma DeviceTrustDecides(s: State, id: Uuid, level: string, effect: string, defaultEffect: string,
                           req: Context.Request, clock: Context.Instant)
    requires id in s.policies && s.policies[id].id == id && effect in EFFECTS && defaultEffect in EFFECTS
    requires s.policies[id].definition ==
      OneRule("", effect, "*", "*", "*", Condition("device_trust", "eq", Values.Str(level)), [], defaultEffect)
    requires Complete(QueryOf(req)) && TrimSpace(req.deviceTrust) != ""
    ensures EvaluateIn(s, Some(id), req, clock).Ok?
    ensures EvaluateIn(s, Some(id), req, clock).value.verdict.decision ==
      if LowerTrim(req.deviceTrust) == level then effect else defaultEffect
  {
    hide TrimSpace, LowerTrim, Context.Resolved, Answer, ValidDefinition, MatchesPattern, Complete;
    OneRuleDecides("", effect, "*", "*", "*", "device_trust", Values.Str(level), [], defaultEffect, req, clock);
    Context.ResolvedRequestValues(req, clock);
    StarMatches(TrimSpace(req.subject));
    StarMatches(TrimSpace(req.resource));
    StarMatches(TrimSpace(req.action));
  }

  lemma StarMatches(field: string)
    ensures MatchesPattern(TrimSpace("*"), field)
  {
    assert TrimSpace("*") == "*";
    hide TrimSpace;
  }

  // ---- Rollback ----

  lemma PreviousIsOneBefore(s: State, id: Uuid)
    requires Inv(s) && id in s.policies
    ensures Previous(s.versions[id], s.policies[id].version) == s.policies[id].version - 1
  {
    hide Inv;
    var n := s.policies[id].version;
    CurrentIsRecorded(s, id);
    var best := Previous(s.versions[id], n);
    assert n > 1 ==> n - 1 in s.versions[id];
  }

  /** Exactly which rollbacks succeed: any recorded version can be named, and the default
      is available from version 2 on. A failed rollback changes nothing. */
  lemma RollbackOutcome(s: State, id: Uuid, requested: int, now: Time, t: State, r: Result<Policy, PolicyError>)
    requires Inv(s) && id in s.policies
    requires (t, r) == RollbackNext(s, Some(id), requested, now)
    ensures r.Ok? <==> if requested <= 0 then s.policies[id].version >= 2 else requested <= s.policies[id].version
    ensures r.Err? ==> t == s && r.error == if requested <= 0 then NoPreviousVersion else TargetNotFound
  {
    hide Inv, Previous;
    CurrentIsRecorded(s, id);
    PreviousIsOneBefore(s, id);
    assert s.policies[id].version in s.versions[id];
    assert s.versions[id] != map[];
  }

  /** A rollback publishes the target's definition as a new version of that policy alone. */
  lemma RollbackMakesCurrent(s: State, id: Uuid, requested: int, now: Time, t: State, p: Policy)
    requires Inv(s) && id in s.policies
    requires (t, Ok(p)) == RollbackNext(s, Some(id), requested, now)
    ensures var n := s.policies[id].version;
      var target := if requested <= 0 then n - 1 else requested;
      && target in s.versions[id]
      && p == s.policies[id].(version := n + 1, definition := s.versions[id][target],
                              status := Published, publishedAt := Some(now))
      && t.policies == s.policies[id := p]
      && t.versions == s.versions[id := s.versions[id][n + 1 := p.definition]]
      && t.published == s.published[id := n + 1]
    ensures Inv(t)
  {
    hide ValidDefinition, NamesDistinct, Previous, InStep;
    PreviousIsOneBefore(s, id);
    RollbackKeepsInv(s, Rollback(Some(id), requested, now));
  }

  /** Rolling back to version `target` restores its decisions: for every request at a fixed
      time the response is the one given at any earlier point where `target` was current. */
  lemma RollbackRestoresResponses(states: seq<State>, ops: seq<Op>, i: nat, j: nat, id: Uuid, now: Time,
                                  req: Context.Request, clock: Context.Instant,
                                  t: State, r: Result<Policy, PolicyError>)
    requires Run(states, ops) && states[0] == EMPTY && i <= j <= |ops|
    requires id in states[i].policies
    requires (t, r) == RollbackNext(states[j], Some(id), states[i].policies[id].version, now)
    ensures r.Ok?
    ensures EvaluateIn(t, Some(id), req, clock) == EvaluateIn(states[i], Some(id), req, clock)
  {
    hide ValidDefinition, Answer, RollbackNext, NamesDistinct, Next, Legal;
    ReachableInStep(states, ops, i);
    ReachableInStep(states, ops, j);
    HistoryIsAppendOnly(states, ops, i, j);
    RestoredFrom(states[i], states[j], id, now, req, clock, t, r);
  }

  lemma RestoredFrom(s: State, u: State, id: Uuid, now: Time, req: Context.Request, clock: Context.Instant,
                     t: State, r: Result<Policy, PolicyError>)
    requires Inv(s) && Inv(u) && Extends(s, u) && id in s.policies && id in u.policies
    requires (t, r) == RollbackNext(u, Some(id), s.policies[id].version, now)
    ensures r.Ok?
    ensures EvaluateIn(t, Some(id), req, clock) == EvaluateIn(s, Some(id), req, clock)
  {
    hide Inv, Extends, Answer, RollbackNext;
    CurrentIsRecorded(s, id);
    CurrentIsRecorded(u, id);
    StillRecorded(s, u, id);
    RollbackOutcome(u, id, s.policies[id].version, now, t, r);
    RollbackMakesCurrent(u, id, s.policies[id].version, now, t, r.value);
  }

  lemma StillRecorded(s: State, u: State, id: Uuid)
    requires Inv(s) && Inv(u) && Extends(s, u) && id in s.policies
    ensures id in u.policies && s.policies[id].version <= u.policies[id].version
    ensures s.policies[id].version in u.versions[id]
    ensures u.versions[id][s.policies[id].version] == s.policies[id].definition
  {
    hide InStep, NamesDistinct;
    CurrentIsRecorded(s, id);
    assert GrowsTo(s.policies[id], s.versions[id], u.policies[id], u.versions[id]);
  }

  ghost function RollbackTimes(s: State, id: Uuid, k: nat, now: Time): State {
    if k == 0 then s else RollbackNext(RollbackTimes(s, id, k - 1, now), Some(id), 0, now).0
  }

  /** The two latest definitions of a policy, the current one first. */
  ghost predicate LatestTwo(s: State, id: Uuid, version: int, current: Definition, previous: Definition) {
    && id in s.policies && id in s.versions
    && s.policies[id].version == version
    && version >= 2
    && s.policies[id].definition == current
    && version - 1 in s.versions[id] && s.versions[id][version - 1] == previous
  }

  lemma DefaultRollbackSwaps(s: State, id: Uuid, now: Time, n: int, a: Definition, b: Definition)
    requires Inv(s) && LatestTwo(s, id, n, a, b)
    ensures Inv(RollbackNext(s, Some(id), 0, now).0)
    ensures LatestTwo(RollbackNext(s, Some(id), 0, now).0, id, n + 1, b, a)
  {
    hide Inv, RollbackNext;
    CurrentIsRecorded(s, id);
    var (t, r) := RollbackNext(s, Some(id), 0, now);
    RollbackOutcome(s, id, 0, now, t, r);
    RollbackMakesCurrent(s, id, 0, now, t, r.value);
  }

  /** Repeated default rollbacks alternate between the two latest definitions: an even
      number restores the original one, an odd number the one before. */
  lemma {:induction false} DefaultRollbacksAlternate(s: State, id: Uuid, k: nat, now: Time, n: int,
                                                     original: Definition, previous: Definition)
    requires Inv(s) && LatestTwo(s, id, n, original, previous)
    ensures Inv(RollbackTimes(s, id, k, now))
    ensures if k % 2 == 0 then LatestTwo(RollbackTimes(s, id, k, now), id, n + k, original, previous)
      else LatestTwo(RollbackTimes(s, id, k, now), id, n + k, previous, original)
  {
    hide Inv, LatestTwo, RollbackNext;
    if k > 0 {
      DefaultRollbacksAlternate(s, id, k - 1, now, n, original, previous);
      var t := RollbackTimes(s, id, k - 1, now);
      if k % 2 == 0 {
        DefaultRollbackSwaps(t, id, now, n + k - 1, previous, original);
      } else {
        DefaultRollbackSwaps(t, id, now, n + k - 1, original, previous);
      }
    }
  }

  // ---- Validity reaches the evaluator ----

  /** Every definition that any version of any reachable policy holds is schema-valid, so
      evaluating it answers allow or deny and never meets an unknown operator. */
  lemma StoredDefinitionsAreValid(states: seq<State>, ops: seq<Op>, i: nat, id: Uuid, v: int)
    requires Run(states, ops) && states[0] == EMPTY && i <= |ops|
    requires id in states[i].versions && v in states[i].versions[id]
    ensures ValidDefinition(states[i].versions[id][v])
    ensures forall r, c :: r in states[i].versions[id][v].rules && c in r.conditions ==>
      LowerTrim(c.operator) in OPERATORS
  {
    ReachableInStep(states, ops, i);
    assert InStep(id, states[i].policies[id], states[i].versions[id], Mark(states[i], id));
    var d := states[i].versions[id][v];
    forall r, c | r in d.rules && c in r.conditions
      ensures LowerTrim(c.operator) in OPERATORS
    {
      ValidOperatorsAreKnown(d, r, c);
    }
  }

  /** On a reachable policy an evaluated response is "allow" or "deny", and it is the
      definition's default exactly as far as no rule matches. */
  lemma ReachableResponses(states: seq<State>, ops: seq<Op>, i: nat, id: Uuid,
                           req: Context.Request, clock: Context.Instant)
    requires Run(states, ops) && states[0] == EMPTY && i <= |ops| && id in states[i].policies
    ensures EvaluateIn(states[i], Some(id), req, clock).Ok? <==> Complete(QueryOf(req))
    ensures EvaluateIn(states[i], Some(id), req, clock).Ok? ==>
      var r := EvaluateIn(states[i], Some(id), req, clock).value;
      var d := states[i].policies[id].definition;
      && r.policyID == id
      && r.verdict.decision in {"allow", "deny"}
      && (!SomeRuleMatches(d, QueryOf(req), Context.Resolved(req, clock)) ==> r.verdict.decision == d.defaultEffect)
  {
    hide Legal, Next, ValidDefinition, Decision, SomeRuleMatches, Context.Resolved, NamesDistinct;
    ReachableInStep(states, ops, i);
    assert InStep(id, states[i].policies[id], states[i].versions[id], Mark(states[i], id));
    var d := states[i].policies[id].definition;
    DefaultDecidesExactlyWhenNothingMatches(d, QueryOf(req), Context.Resolved(req, clock));
  }
}
