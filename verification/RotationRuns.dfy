/** Every interleaving of the vault's critical sections. A rotation has three steps: copy the
    policy, issue a lease, and write the copy back with new times. A thread works through a
    list of policies: one for a manual rotation, the due ones for a sweep. */
module RotationRuns {
  import opened Wrappers
  import opened Text
  import opened Vault

  type ThreadID = nat

  /** How far the rotation of the first policy on the list has come. */
  datatype Phase = Waiting | Copied(copy: RotationPolicy) | Issued(copy: RotationPolicy)

  /** `seen` is the latest clock reading of the thread. */
  datatype Thread = Thread(work: seq<ID>, phase: Phase, seen: Time)

  /** `log` lists for each policy the leases its rotations issued, oldest first. */
  datatype Machine = Machine(s: State, threads: map<ThreadID, Thread>, log: map<ID, seq<ID>>)

  const START := Machine(State(map[], map[]), map[], map[])

  datatype Op =
    | CreatePolicy(request: PolicyRequest, policyID: ID, now: Time)
    | IssueLease(ask: IssueRequest, leaseID: ID, now: Time)
    | RevokeLease(leaseID: ID, reason: string, now: Time)
    | RevokeTarget(target: string, reason: string, now: Time)
    | StartTrigger(t: ThreadID, policyID: ID, now: Time)
    | StartSweep(t: ThreadID, due: seq<ID>, readings: map<ID, Time>, now: Time)
    | Copy(t: ThreadID)
    | Issue(t: ThreadID, leaseID: ID, now: Time)
    | WriteBack(t: ThreadID, now: Time)

  function Log(m: Machine, p: ID): seq<ID> {
    if p in m.log then m.log[p] else []
  }

  /** `due` lists, in any order, the policies that were due at their readings. */
  ghost predicate ScanFinds(policies: map<ID, RotationPolicy>, due: seq<ID>, readings: map<ID, Time>, now: Time) {
    && policies.Keys <= readings.Keys
    && (forall id :: id in readings ==> readings[id] <= now)
    && (forall i, j :: 0 <= i < j < |due| ==> due[i] != due[j])
    && (forall id :: id in due <==> id in policies && Due(policies[id], readings[id]))
  }

  /** Identifiers are fresh, and a thread's clock readings never go back. */
  ghost predicate Legal(m: Machine, op: Op) {
    match op
    case CreatePolicy(_, id, _) =>
      id !in m.s.policies && id !in m.log && forall t :: t in m.threads ==> id !in m.threads[t].work
    case IssueLease(_, id, _) => id !in m.s.leases
    case RevokeLease(_, _, _) => true
    case RevokeTarget(_, _, _) => true
    case StartTrigger(t, _, _) => t !in m.threads
    case StartSweep(t, due, readings, now) => t !in m.threads && ScanFinds(m.s.policies, due, readings, now)
    case Copy(t) => t in m.threads && m.threads[t].work != [] && m.threads[t].phase.Waiting?
    case Issue(t, id, now) =>
      && t in m.threads && m.threads[t].work != [] && m.threads[t].phase.Copied?
      && id !in m.s.leases && m.threads[t].seen <= now
    case WriteBack(t, now) =>
      t in m.threads && m.threads[t].work != [] && m.threads[t].phase.Issued? && m.threads[t].seen <= now
  }

  function Step(m: Machine, t: ThreadID, x: Thread): Machine {
    m.(threads := m.threads[t := x])
  }

  /** The thread gives up on, or is done with, its first policy. */
  function Skip(x: Thread): Thread
    requires x.work != []
  {
    Thread(x.work[1..], Waiting, x.seen)
  }

  ghost function Next(m: Machine, op: Op): Machine
    requires Legal(m, op)
  {
    match op
    case CreatePolicy(request, id, now) =>
      var r := CreateOutcome(m.s.policies, request, id, now);
      if r.Ok? then m.(s := m.s.(policies := m.s.policies[id := r.value])) else m
    case IssueLease(ask, id, now) =>
      var r := IssueOutcome(ask, id, now);
      if r.Ok? then m.(s := m.s.(leases := m.s.leases[id := r.value])) else m
    case RevokeLease(id, reason, now) =>
      if id in m.s.leases && !m.s.leases[id].revoked
      then m.(s := m.s.(leases := m.s.leases[id := Ended(m.s.leases[id], TrimSpace(reason), now)])) else m
    case RevokeTarget(target, reason, now) =>
      if TrimSpace(target) == "" then m
      else m.(s := m.s.(leases :=
        EndThese(m.s.leases, LeasesOn(m.s.leases, TrimSpace(target)), TrimSpace(reason), now)))
    case StartTrigger(t, id, now) => Step(m, t, Thread([id], Waiting, now))
    case StartSweep(t, due, _, now) => Step(m, t, Thread(due, Waiting, now))
    case Copy(t) =>
      var x := m.threads[t];
      var id := x.work[0];
      if id in m.s.policies && m.s.policies[id].enabled then Step(m, t, x.(phase := Copied(m.s.policies[id])))
      else Step(m, t, Skip(x))
    case Issue(t, leaseID, now) =>
      var x := m.threads[t];
      var id := x.work[0];
      var r := IssueOutcome(RequestOf(x.phase.copy), leaseID, now);
      if r.Ok? then
        Machine(m.s.(leases := m.s.leases[leaseID := r.value]),
                m.threads[t := Thread(x.work, Issued(x.phase.copy), now)],
                m.log[id := Log(m, id) + [leaseID]])
      else Step(m, t, Skip(x))
    case WriteBack(t, now) =>
      var x := m.threads[t];
      Machine(m.s.(policies := m.s.policies[x.work[0] := Rotated(x.phase.copy, now)]),
              m.threads[t := Skip(x).(seen := now)], m.log)
  }

  ghost predicate Run(ms: seq<Machine>, ops: seq<Op>) {
    && |ms| == |ops| + 1
    && forall i :: 0 <= i < |ops| ==> Legal(ms[i], ops[i]) && ms[i + 1] == Next(ms[i], ops[i])
  }

  // ---- Rotation safety, whatever the interleaving ----

  /** The parts of a policy that no operation changes. */
  predicate SamePlan(p: RotationPolicy, q: RotationPolicy) {
    p.id == q.id && p.targetType == q.targetType && p.targetID == q.targetID && p.role == q.role
    && p.intervalSeconds == q.intervalSeconds && p.ttlSeconds == q.ttlSeconds && p.metadata == q.metadata
    && p.enabled == q.enabled && p.createdAt == q.createdAt
  }

  /** Every copy a thread holds is a sound version of the policy it will write back to. */
  ghost predicate CopyFits(m: Machine, t: ThreadID)
    requires t in m.threads
  {
    var x := m.threads[t];
    !x.phase.Waiting? ==>
      && x.work != [] && x.work[0] in m.s.policies
      && Sound(x.work[0], x.phase.copy)
      && SamePlan(x.phase.copy, m.s.policies[x.work[0]])
  }

  ghost predicate Safe(m: Machine) {
    && Inv(m.s.policies)
    && (forall t :: t in m.threads ==> CopyFits(m, t))
  }

  ghost predicate PlansKept(m: Machine, n: Machine) {
    forall id :: id in m.s.policies ==> id in n.s.policies && SamePlan(m.s.policies[id], n.s.policies[id])
  }

  /** One thread moved on, or a new one started, and no policy changed. */
  lemma MoveKeepsSafe(m: Machine, n: Machine, t: ThreadID)
    requires Safe(m) && n.s.policies == m.s.policies && t in n.threads && n.threads == m.threads[t := n.threads[t]]
    requires CopyFits(n, t)
    ensures Safe(n) && PlansKept(m, n)
  {
  }

  lemma PlansReflexive(m: Machine, n: Machine)
    requires n.s.policies == m.s.policies
    ensures PlansKept(m, n)
  {
  }

  /** One policy created or rewritten on the same plan, and no copy touched. */
  lemma WriteKeepsSafe(m: Machine, n: Machine, id: ID)
    requires Safe(m) && id in n.s.policies && n.s.policies == m.s.policies[id := n.s.policies[id]]
    requires Sound(id, n.s.policies[id])
    requires id in m.s.policies ==> SamePlan(m.s.policies[id], n.s.policies[id])
    requires n.threads.Keys == m.threads.Keys
    requires forall t :: t in n.threads ==> n.threads[t] == m.threads[t] || n.threads[t].phase.Waiting?
    ensures Safe(n) && PlansKept(m, n)
  {
    hide Sound;
    forall t | t in n.threads
      ensures CopyFits(n, t)
    {
      assert CopyFits(m, t);
    }
  }

  lemma StepKeepsSafe(m: Machine, op: Op)
    requires Safe(m) && Legal(m, op)
    ensures Safe(Next(m, op)) && PlansKept(m, Next(m, op))
  {
    hide Safe, PlansKept, IssueOutcome, EndThese, LeasesOn, CreateOutcome, Rotated;
    var n := Next(m, op);
    match op
    case CreatePolicy(request, id, now) =>
      if CreateOutcome(m.s.policies, request, id, now).Ok? {
        CreatedIsSound(m.s.policies, request, id, now);
        WriteKeepsSafe(m, n, id);
      } else {
        PlansReflexive(m, m);
      }
    case IssueLease(_, _, _) => LeaseOpsKeepSafe(m, n);
    case RevokeLease(_, _, _) => LeaseOpsKeepSafe(m, n);
    case RevokeTarget(_, _, _) => LeaseOpsKeepSafe(m, n);
    case StartTrigger(t, _, _) => MoveKeepsSafe(m, n, t);
    case StartSweep(t, _, _, _) => MoveKeepsSafe(m, n, t);
    case Copy(t) => CopyStep(m, op); MoveKeepsSafe(m, n, t);
    case Issue(t, _, _) => IssueStep(m, op); MoveKeepsSafe(m, n, t);
    case WriteBack(t, now) => WriteBackStep(m, op); WriteKeepsSafe(m, n, m.threads[t].work[0]);
  }

  lemma LeaseOpsKeepSafe(m: Machine, n: Machine)
    requires Safe(m) && n.s.policies == m.s.policies && n.threads == m.threads
    ensures Safe(n) && PlansKept(m, n)
  {
  }

  lemma CopyStep(m: Machine, op: Op)
    requires Safe(m) && Legal(m, op) && op.Copy?
    ensures CopyFits(Next(m, op), op.t)
  {
  }

  lemma IssueStep(m: Machine, op: Op)
    requires Safe(m) && Legal(m, op) && op.Issue?
    ensures CopyFits(Next(m, op), op.t)
  {
    hide Sound, IssueOutcome, SamePlan;
    assert CopyFits(m, op.t);
  }

  lemma WriteBackStep(m: Machine, op: Op)
    requires Safe(m) && Legal(m, op) && op.WriteBack?
    ensures var id := m.threads[op.t].work[0];
      && id in m.s.policies && Sound(id, Rotated(m.threads[op.t].phase.copy, op.now))
      && SamePlan(m.s.policies[id], Rotated(m.threads[op.t].phase.copy, op.now))
  {
    hide Sound, Inv;
    assert CopyFits(m, op.t);
    RotatedIsSound(m.threads[op.t].work[0], m.threads[op.t].phase.copy, op.now);
  }

  lemma {:induction false} AlwaysSafe(ms: seq<Machine>, ops: seq<Op>, i: nat)
    requires Run(ms, ops) && ms[0] == START && i <= |ops|
    ensures Safe(ms[i])
  {
    hide Legal, Next;
    if i > 0 {
      AlwaysSafe(ms, ops, i - 1);
      StepKeepsSafe(ms[i - 1], ops[i - 1]);
    }
  }

  /** In every reachable state each policy is enabled and due one interval after its last
      written rotation or its creation, and its plan is the one it was created with. */
  lemma {:induction false} PoliciesKeepTheirPlan(ms: seq<Machine>, ops: seq<Op>, i: nat, j: nat)
    requires Run(ms, ops) && ms[0] == START && i <= j <= |ops|
    ensures PlansKept(ms[i], ms[j])
    ensures forall id :: id in ms[j].s.policies ==> Scheduled(ms[j].s.policies[id]) && ms[j].s.policies[id].enabled
  {
    hide Legal, Next, Issuable, Scheduled;
    AlwaysSafe(ms, ops, j);
    if i < j {
      PoliciesKeepTheirPlan(ms, ops, i, j - 1);
      AlwaysSafe(ms, ops, j - 1);
      StepKeepsSafe(ms[j - 1], ops[j - 1]);
    }
  }

  /** Whenever a thread comes to issue the lease of a rotation, input validation accepts it. */
  lemma RotationNeverFailsValidation(ms: seq<Machine>, ops: seq<Op>, i: nat)
    requires Run(ms, ops) && ms[0] == START && i < |ops| && ops[i].Issue?
    ensures var x := ms[i].threads[ops[i].t];
      var r := IssueOutcome(RequestOf(x.phase.copy), ops[i].leaseID, ops[i].now);
      r.Ok? && x.work[0] in ms[i].s.policies && LeaseFor(r.value, ms[i].s.policies[x.work[0]])
  {
    hide Next, IssueOutcome;
    AlwaysSafe(ms, ops, i);
    assert Legal(ms[i], ops[i]) && CopyFits(ms[i], ops[i].t);
    RotationIsIssuable(ms[i].threads[ops[i].t].phase.copy, ops[i].leaseID, ops[i].now);
  }

  // ---- Leases over runs ----

  /** A lease keeps everything but its revocation, and a revoked one is frozen. */
  predicate LeaseMoves(l: Lease, k: Lease) {
    && (l.revoked ==> k == l)
    && k == l.(revoked := k.revoked, revokedAt := k.revokedAt, revokeReason := k.revokeReason)
  }

  ghost predicate LeasesOnward(m: Machine, n: Machine) {
    forall id :: id in m.s.leases ==> id in n.s.leases && LeaseMoves(m.s.leases[id], n.s.leases[id])
  }

  lemma StepKeepsLeases(m: Machine, op: Op)
    requires Legal(m, op)
    ensures LeasesOnward(m, Next(m, op))
  {
    hide TrimSpace, EqualFold, IssueOutcome, CreateOutcome, Rotated;
  }

  lemma {:induction false} LeasesMoveOn(ms: seq<Machine>, ops: seq<Op>, i: nat, j: nat)
    requires Run(ms, ops) && i <= j <= |ops|
    ensures LeasesOnward(ms[i], ms[j])
  {
    hide Legal, Next;
    if i < j {
      LeasesMoveOn(ms, ops, i, j - 1);
      StepKeepsLeases(ms[j - 1], ops[j - 1]);
    }
  }

  /** A lease that has stopped being active never is again, and a revoked one stays revoked,
      whatever the interleaving and however late it is looked at. */
  lemma LeaseStatusNeverReturns(ms: seq<Machine>, ops: seq<Op>, i: nat, j: nat, id: ID, x: Time, y: Time)
    requires Run(ms, ops) && i <= j <= |ops| && id in ms[i].s.leases && x <= y
    ensures id in ms[j].s.leases
    ensures StatusOf(ms[i].s.leases[id], x) != Active ==> StatusOf(ms[j].s.leases[id], y) != Active
    ensures StatusOf(ms[i].s.leases[id], x) == Revoked ==> ms[j].s.leases[id] == ms[i].s.leases[id]
  {
    hide Legal, Next;
    LeasesMoveOn(ms, ops, i, j);
  }

  // ---- When a lease ends ----

  /** Step `k` revokes the lease, by its id or by its target up to case. */
  ghost predicate Revokes(ms: seq<Machine>, ops: seq<Op>, k: nat, id: ID)
    requires Run(ms, ops) && k < |ops|
  {
    && id in ms[k].s.leases && !ms[k].s.leases[id].revoked
    && ((ops[k].RevokeLease? && ops[k].leaseID == id)
        || (ops[k].RevokeTarget? && TrimSpace(ops[k].target) != ""
            && EqualFold(ms[k].s.leases[id].targetID, TrimSpace(ops[k].target))))
  }

  ghost predicate WasRevoked(ms: seq<Machine>, ops: seq<Op>, i: nat, id: ID)
    requires Run(ms, ops) && i <= |ops|
  {
    exists k: nat :: k < i && Revokes(ms, ops, k, id)
  }

  lemma RevokedNext(ms: seq<Machine>, ops: seq<Op>, i: nat, id: ID)
    requires Run(ms, ops) && i < |ops|
    ensures WasRevoked(ms, ops, i + 1, id) <==> WasRevoked(ms, ops, i, id) || Revokes(ms, ops, i, id)
  {
    hide Run, Revokes;
    if k: nat :| k < i && Revokes(ms, ops, k, id) {
      assert k < i + 1;
    }
  }

  lemma StepRevokes(m: Machine, op: Op, id: ID)
    requires Legal(m, op) && id in m.s.leases
    ensures id in Next(m, op).s.leases
    ensures var l, k := m.s.leases[id], Next(m, op).s.leases[id];
      var ends := !l.revoked
        && ((op.RevokeLease? && op.leaseID == id)
            || (op.RevokeTarget? && TrimSpace(op.target) != "" && EqualFold(l.targetID, TrimSpace(op.target))));
      k == if ends then l.(revoked := true, revokedAt := Some(op.now), revokeReason := TrimSpace(op.reason)) else l
  {
    hide TrimSpace, EqualFold, IssueOutcome, CreateOutcome, Rotated, ScanFinds;
  }

  /** A lease appears only as a fresh one: for what a request asks for, or for what the rotated
      policy plans. */
  lemma StepIssues(m: Machine, op: Op, id: ID)
    requires Safe(m) && Legal(m, op) && id !in m.s.leases && id in Next(m, op).s.leases
    ensures var l := Next(m, op).s.leases[id];
      && !l.revoked && l.id == id
      && ((op.IssueLease? && op.leaseID == id && IssueOutcome(op.ask, id, op.now) == Ok(l))
          || (op.Issue? && op.leaseID == id && l.issuedAt == op.now && m.threads[op.t].work[0] in m.s.policies
              && IssuedFor(l, m.s.policies[m.threads[op.t].work[0]])))
  {
    hide TrimSpace, EqualFold, CreateOutcome, Rotated, ScanFinds, IssuedFor, Safe, SupportedTarget, ToLower;
    if op.Issue? {
      IssuedLeaseFits(m, op);
    }
  }

  /** Over every interleaving a lease is revoked if and only if some step revoked it, by its id or by
      its target up to case. */
  lemma {:induction false} LeasesAreRevokedExactly(ms: seq<Machine>, ops: seq<Op>, i: nat, id: ID)
    requires Run(ms, ops) && ms[0] == START && i <= |ops| && id in ms[i].s.leases
    ensures ms[i].s.leases[id].revoked <==> WasRevoked(ms, ops, i, id)
  {
    hide Legal, Next, WasRevoked, Safe, IssuedFor, IssueOutcome;
    assert Legal(ms[i - 1], ops[i - 1]) && ms[i] == Next(ms[i - 1], ops[i - 1]);
    RevokedNext(ms, ops, i - 1, id);
    if id in ms[i - 1].s.leases {
      LeasesAreRevokedExactly(ms, ops, i - 1, id);
      StepRevokes(ms[i - 1], ops[i - 1], id);
    } else {
      AlwaysSafe(ms, ops, i - 1);
      StepIssues(ms[i - 1], ops[i - 1], id);
      NotYetIssued(ms, ops, i - 1, id);
    }
  }

  lemma NotYetIssued(ms: seq<Machine>, ops: seq<Op>, i: nat, id: ID)
    requires Run(ms, ops) && i < |ops| && id !in ms[i].s.leases
    ensures !WasRevoked(ms, ops, i, id) && !Revokes(ms, ops, i, id)
  {
    hide Legal, Next, EqualFold, TrimSpace;
    forall k: nat | k <= i
      ensures id !in ms[k].s.leases
    {
      LeasesMoveOn(ms, ops, k, i);
    }
  }

  /** The status of a lease at a time: revoked from the step that revoked it, else expired strictly
      after its expiry, else active. */
  lemma StatusMeaning(ms: seq<Machine>, ops: seq<Op>, i: nat, id: ID, x: Time)
    requires Run(ms, ops) && ms[0] == START && i <= |ops| && id in ms[i].s.leases
    ensures StatusOf(ms[i].s.leases[id], x) == Revoked <==> WasRevoked(ms, ops, i, id)
    ensures StatusOf(ms[i].s.leases[id], x) == Active <==>
      !WasRevoked(ms, ops, i, id) && x <= ms[i].s.leases[id].expiresAt
  {
    hide Legal, Next, WasRevoked;
    LeasesAreRevokedExactly(ms, ops, i, id);
  }

  // ---- Targets over runs ----

  /** No two policies are for the same target, type and role up to case. */
  ghost predicate TargetsDistinct(policies: map<ID, RotationPolicy>) {
    forall a, b :: a in policies && b in policies && a != b ==>
      !SameTarget(policies[a], policies[b].targetType, policies[b].targetID, policies[b].role)
  }

  lemma CreationKeepsTargets(policies: map<ID, RotationPolicy>, req: PolicyRequest, id: ID, now: Time)
    requires TargetsDistinct(policies) && CreateOutcome(policies, req, id, now).Ok?
    ensures TargetsDistinct(policies[id := CreateOutcome(policies, req, id, now).value])
  {
    hide TrimSpace, ToLower, SupportedTarget;
    var p := CreateOutcome(policies, req, id, now).value;
    forall b | b in policies && b != id
      ensures !SameTarget(policies[b], p.targetType, p.targetID, p.role)
      ensures !SameTarget(p, policies[b].targetType, policies[b].targetID, policies[b].role)
    {
    }
  }

  lemma PlansKeepTargets(m: Machine, n: Machine)
    requires PlansKept(m, n) && n.s.policies.Keys == m.s.policies.Keys && TargetsDistinct(m.s.policies)
    ensures TargetsDistinct(n.s.policies)
  {
    hide EqualFold;
    forall a, b | a in n.s.policies && b in n.s.policies && a != b
      ensures !SameTarget(n.s.policies[a], n.s.policies[b].targetType, n.s.policies[b].targetID, n.s.policies[b].role)
    {
      assert SamePlan(m.s.policies[a], n.s.policies[a]) && SamePlan(m.s.policies[b], n.s.policies[b]);
    }
  }

  lemma OnlyCreationAdds(m: Machine, op: Op)
    requires Safe(m) && Legal(m, op) && !op.CreatePolicy?
    ensures Next(m, op).s.policies.Keys == m.s.policies.Keys
  {
    hide Inv, IssueOutcome, EndThese, LeasesOn, Rotated, TrimSpace, Sound, SamePlan;
    assert op.WriteBack? ==> CopyFits(m, op.t);
  }

  /** Over every interleaving no two rotation policies are for the same target and role up to case,
      although copies are written back late. */
  lemma {:induction false} TargetsStayDistinct(ms: seq<Machine>, ops: seq<Op>, i: nat)
    requires Run(ms, ops) && ms[0] == START && i <= |ops|
    ensures TargetsDistinct(ms[i].s.policies)
  {
    hide Legal, TargetsDistinct, Safe, PlansKept, CreateOutcome;
    if i == 0 {
      assert TargetsDistinct(map[]) by {
        NoTargets();
      }
    } else {
      TargetsStayDistinct(ms, ops, i - 1);
      AlwaysSafe(ms, ops, i - 1);
      var m, op := ms[i - 1], ops[i - 1];
      if op.CreatePolicy? {
        if CreateOutcome(m.s.policies, op.request, op.policyID, op.now).Ok? {
          CreationKeepsTargets(m.s.policies, op.request, op.policyID, op.now);
        }
      } else {
        hide Next;
        OnlyCreationAdds(m, op);
        StepKeepsSafe(m, op);
        PlansKeepTargets(m, ms[i]);
      }
    }
  }

  lemma NoTargets()
    ensures TargetsDistinct(map[])
  {
  }

  // ---- What one sweep does, whatever else happens ----

  /** A lease issued by a rotation, and the policy it was issued for. */
  datatype Rotation = Rotation(policyID: ID, leaseID: ID)

  /** What a thread issued between two points of a run, oldest first. */
  ghost function IssuedBy(ms: seq<Machine>, ops: seq<Op>, i: nat, j: nat, t: ThreadID): seq<Rotation>
    requires Run(ms, ops) && i <= j <= |ops|
  {
    if i == j then []
    else
      var op := ops[j - 1];
      IssuedBy(ms, ops, i, j - 1, t) +
        if op.Issue? && op.t == t then [Rotation(ms[j - 1].threads[t].work[0], op.leaseID)] else []
  }

  /** The lease is for the target, type and role of the policy, and was issued for its time to
      live. */
  predicate IssuedFor(l: Lease, p: RotationPolicy) {
    l.targetType == p.targetType && l.targetID == p.targetID && l.role == p.role
    && l.expiresAt == l.issuedAt + p.ttlSeconds * SECOND
  }

  /** The thread has done with the first policies of its list, in order: each existing rotation is
      of the policy at its place, with a lease of its own. */
  ghost predicate Progress(m: Machine, t: ThreadID, due: seq<ID>, done: seq<Rotation>) {
    && t in m.threads
    && var x := m.threads[t];
    && |x.work| <= |due| && x.work == due[|due| - |x.work|..]
    && (x.phase.Issued? ==> x.work != [])
    && |done| == |due| - |x.work| + (if x.phase.Issued? then 1 else 0)
    && (forall k :: 0 <= k < |due| ==> due[k] in m.s.policies)
    && (forall k :: 0 <= k < |done| ==> done[k].policyID == due[k] && done[k].leaseID in m.s.leases)
    && (forall k :: 0 <= k < |done| ==> IssuedFor(m.s.leases[done[k].leaseID], m.s.policies[due[k]]))
    && (forall j, k :: 0 <= j < k < |done| ==> done[j].leaseID != done[k].leaseID)
  }

  lemma OthersKeepProgress(m: Machine, n: Machine, t: ThreadID, due: seq<ID>, done: seq<Rotation>)
    requires Progress(m, t, due, done) && LeasesOnward(m, n) && PlansKept(m, n)
    requires t in n.threads && n.threads[t] == m.threads[t]
    ensures Progress(n, t, due, done)
  {
    forall k | 0 <= k < |done|
      ensures IssuedFor(n.s.leases[done[k].leaseID], n.s.policies[due[k]])
    {
      assert SamePlan(m.s.policies[due[k]], n.s.policies[due[k]]);
      assert LeaseMoves(m.s.leases[done[k].leaseID], n.s.leases[done[k].leaseID]);
    }
  }

  /** The thread moves on within its list without issuing. */
  lemma MoveKeepsProgress(m: Machine, n: Machine, t: ThreadID, due: seq<ID>, done: seq<Rotation>)
    requires Progress(m, t, due, done) && LeasesOnward(m, n) && PlansKept(m, n) && t in n.threads
    requires var x, y := m.threads[t], n.threads[t];
      || (y.work == x.work && y.phase.Issued? == x.phase.Issued?)
      || (x.phase.Issued? && y.phase.Waiting? && y.work == x.work[1..])
    ensures Progress(n, t, due, done)
  {
    hide LeasesOnward, PlansKept, IssuedFor;
    LeasesAndPlans(m, n);
    OthersKeepProgress(m, m.(s := n.s), t, due, done);
  }

  lemma LeasesAndPlans(m: Machine, n: Machine)
    requires LeasesOnward(m, n) && PlansKept(m, n)
    ensures LeasesOnward(m, m.(s := n.s)) && PlansKept(m, m.(s := n.s))
  {
  }

  /** The thread issues the lease of the first policy on its list. */
  lemma IssueExtendsProgress(m: Machine, op: Op, due: seq<ID>, done: seq<Rotation>)
    requires Safe(m) && Legal(m, op) && op.Issue? && Progress(m, op.t, due, done)
    ensures Progress(Next(m, op), op.t, due, done + [Rotation(m.threads[op.t].work[0], op.leaseID)])
  {
    hide Inv, IssueOutcome, Sound, IssuedFor, SupportedTarget;
    var x := m.threads[op.t];
    assert CopyFits(m, op.t);
    IssuedLeaseFits(m, op);
    var l := IssueOutcome(RequestOf(x.phase.copy), op.leaseID, op.now).value;
    assert Next(m, op).s == m.s.(leases := m.s.leases[op.leaseID := l]);
    assert due[|due| - |x.work|] == x.work[0];
  }

  lemma IssuedLeaseFits(m: Machine, op: Op)
    requires Safe(m) && Legal(m, op) && op.Issue?
    ensures var x := m.threads[op.t];
      var r := IssueOutcome(RequestOf(x.phase.copy), op.leaseID, op.now);
      r.Ok? && x.work[0] in m.s.policies && IssuedFor(r.value, m.s.policies[x.work[0]])
  {
    hide Inv, IssueOutcome;
    assert CopyFits(m, op.t);
    RotationIsIssuable(m.threads[op.t].phase.copy, op.leaseID, op.now);
  }

  /** A thread at work on its list never gives a policy up. */
  lemma CopyMoves(m: Machine, op: Op, due: seq<ID>, done: seq<Rotation>)
    requires Safe(m) && Legal(m, op) && op.Copy? && Progress(m, op.t, due, done)
    ensures var x, n := m.threads[op.t], Next(m, op);
      op.t in n.threads && n.threads[op.t] == x.(phase := Copied(m.s.policies[x.work[0]]))
  {
    var x := m.threads[op.t];
    assert due[|due| - |x.work|] == x.work[0];
    assert Sound(x.work[0], m.s.policies[x.work[0]]);
  }

  lemma OtherThreadsStay(m: Machine, op: Op, t: ThreadID)
    requires Legal(m, op) && t in m.threads
    requires (op.Copy? || op.Issue? || op.WriteBack?) ==> op.t != t
    ensures t in Next(m, op).threads && Next(m, op).threads[t] == m.threads[t]
  {
    hide CreateOutcome, IssueOutcome, TrimSpace, EndThese, LeasesOn, ScanFinds, Rotated;
  }

  lemma StepKeepsProgress(m: Machine, op: Op, t: ThreadID, due: seq<ID>, done: seq<Rotation>)
    requires Safe(m) && Legal(m, op) && Progress(m, t, due, done)
    ensures var more := if op.Issue? && op.t == t then [Rotation(m.threads[t].work[0], op.leaseID)] else [];
      Progress(Next(m, op), t, due, done + more)
  {
    hide Safe, Progress, LeasesOnward, PlansKept;
    var n := Next(m, op);
    StepKeepsSafe(m, op);
    StepKeepsLeases(m, op);
    assert done + [] == done;
    if op.Issue? && op.t == t {
      IssueExtendsProgress(m, op, due, done);
    } else if op.Copy? && op.t == t {
      CopyMoves(m, op, due, done);
      MoveKeepsProgress(m, n, t, due, done);
    } else if op.WriteBack? && op.t == t {
      MoveKeepsProgress(m, n, t, due, done);
    } else {
      ProgressHasThread(m, t, due, done);
      OtherThreadsStay(m, op, t);
      OthersKeepProgress(m, n, t, due, done);
    }
  }

  lemma ProgressHasThread(m: Machine, t: ThreadID, due: seq<ID>, done: seq<Rotation>)
    requires Progress(m, t, due, done)
    ensures t in m.threads
  {
  }

  lemma SweepStarts(m: Machine, op: Op)
    requires Legal(m, op) && op.StartSweep?
    ensures Progress(Next(m, op), op.t, op.due, [])
  {
    hide Due;
    assert op.due[0..] == op.due;
    assert forall k :: 0 <= k < |op.due| ==> op.due[k] in op.due;
  }

  /** Over every interleaving a sweep works through the policies it found due in order: at any later
      point it has issued exactly one lease for each policy it is done with, one for the policy at
      hand if it has come so far, and none for the rest. */
  lemma {:induction false} SweepsIssueOneLeaseEach(ms: seq<Machine>, ops: seq<Op>, i: nat, j: nat)
    requires Run(ms, ops) && ms[0] == START && i < j <= |ops| && ops[i].StartSweep?
    ensures Progress(ms[j], ops[i].t, ops[i].due, IssuedBy(ms, ops, i + 1, j, ops[i].t))
  {
    hide Legal, Next, Progress, Safe;
    if j == i + 1 {
      assert ms[j] == Next(ms[i], ops[i]);
      SweepStarts(ms[i], ops[i]);
    } else {
      SweepsIssueOneLeaseEach(ms, ops, i, j - 1);
      AlwaysSafe(ms, ops, j - 1);
      assert ms[j] == Next(ms[j - 1], ops[j - 1]);
      StepKeepsProgress(ms[j - 1], ops[j - 1], ops[i].t, ops[i].due, IssuedBy(ms, ops, i + 1, j - 1, ops[i].t));
    }
  }

  /** So a sweep that has come to its end has issued as many leases as it found policies due, one
      for each, whatever happened in between. */
  lemma FinishedSweepsIssuedOneLeaseEach(ms: seq<Machine>, ops: seq<Op>, i: nat, j: nat)
    requires Run(ms, ops) && ms[0] == START && i < j <= |ops| && ops[i].StartSweep?
    requires ops[i].t in ms[j].threads && ms[j].threads[ops[i].t].work == []
    ensures var done, due := IssuedBy(ms, ops, i + 1, j, ops[i].t), ops[i].due;
      && |done| == |due|
      && (forall k :: 0 <= k < |due| ==> done[k].policyID == due[k] && done[k].leaseID in ms[j].s.leases)
      && (forall k, l :: 0 <= k < l < |due| ==> done[k].leaseID != done[l].leaseID)
  {
    hide Legal, Next, IssuedFor, IssuedBy;
    SweepsIssueOneLeaseEach(ms, ops, i, j);
  }

  // ---- Uninterrupted rotations ----

  lemma CopiesAlone(m: Machine, t: ThreadID, id: ID, now: Time, n: Machine)
    requires t !in m.threads && id in m.s.policies && m.s.policies[id].enabled
    requires n == m.(threads := m.threads[t := Thread([id], Copied(m.s.policies[id]), now)])
    ensures var mid := m.(threads := m.threads[t := Thread([id], Waiting, now)]);
      && Legal(m, StartTrigger(t, id, now)) && Next(m, StartTrigger(t, id, now)) == mid
      && Legal(mid, Copy(t)) && Next(mid, Copy(t)) == n
  {
    assert n.threads == m.threads[t := Thread([id], Waiting, now)][t := n.threads[t]];
  }

  lemma IssuesAlone(m: Machine, t: ThreadID, id: ID, p: RotationPolicy, l: Lease, n: Machine)
    requires t in m.threads && m.threads[t] == Thread([id], Copied(p), l.issuedAt) && l.id !in m.s.leases
    requires IssueOutcome(RequestOf(p), l.id, l.issuedAt) == Ok(l)
    requires n == Machine(m.s.(leases := m.s.leases[l.id := l]),
                          m.threads[t := Thread([id], Issued(p), l.issuedAt)], m.log[id := Log(m, id) + [l.id]])
    ensures Legal(m, Issue(t, l.id, l.issuedAt)) && Next(m, Issue(t, l.id, l.issuedAt)) == n
  {
    hide IssueOutcome;
  }

  lemma WritesAlone(m: Machine, t: ThreadID, id: ID, p: RotationPolicy, now: Time, n: Machine)
    requires t in m.threads && m.threads[t].work == [id] && m.threads[t].phase == Issued(p) && m.threads[t].seen <= now
    requires n == Machine(m.s.(policies := m.s.policies[id := Rotated(p, now)]),
                          m.threads[t := Thread([], Waiting, now)], m.log)
    ensures Legal(m, WriteBack(t, now)) && Next(m, WriteBack(t, now)) == n
  {
    hide Rotated;
    assert [id][1..] == [];
  }

  lemma RotatesAlone(m: Machine, t: ThreadID, id: ID, l: Lease, rotatedAt: Time)
    returns (ms: seq<Machine>, ops: seq<Op>)
    requires t !in m.threads && l.id !in m.s.leases && l.issuedAt <= rotatedAt
    requires id in m.s.policies && m.s.policies[id].enabled
    requires IssueOutcome(RequestOf(m.s.policies[id]), l.id, l.issuedAt) == Ok(l)
    ensures Run(ms, ops) && ms[0] == m
    ensures ms[|ops|].threads == m.threads[t := Thread([], Waiting, rotatedAt)]
    ensures ms[|ops|].s == State(m.s.leases[l.id := l], m.s.policies[id := Rotated(m.s.policies[id], rotatedAt)])
  {
    hide IssueOutcome, Rotated, Legal, Next;
    var p := m.s.policies[id];
    ops := [StartTrigger(t, id, l.issuedAt), Copy(t), Issue(t, l.id, l.issuedAt), WriteBack(t, rotatedAt)];
    var m1 := m.(threads := m.threads[t := Thread([id], Waiting, l.issuedAt)]);
    var m2 := m.(threads := m.threads[t := Thread([id], Copied(p), l.issuedAt)]);
    CopiesAlone(m, t, id, l.issuedAt, m2);
    var m3 := Machine(m.s.(leases := m.s.leases[l.id := l]),
                      m2.threads[t := Thread([id], Issued(p), l.issuedAt)], m.log[id := Log(m, id) + [l.id]]);
    IssuesAlone(m2, t, id, p, l, m3);
    var m4 := Machine(m3.s.(policies := m.s.policies[id := Rotated(p, rotatedAt)]),
                      m3.threads[t := Thread([], Waiting, rotatedAt)], m3.log);
    WritesAlone(m3, t, id, p, rotatedAt, m4);
    ms := [m, m1, m2, m3, m4];
    assert m4.threads == m.threads[t := Thread([], Waiting, rotatedAt)];
  }

  lemma RotatesNothing(m: Machine, t: ThreadID, id: ID, now: Time) returns (ms: seq<Machine>, ops: seq<Op>)
    requires t !in m.threads && id !in m.s.policies
    ensures Run(ms, ops) && ms[0] == m && ms[|ops|] == m.(threads := m.threads[t := Thread([], Waiting, now)])
  {
    ops := [StartTrigger(t, id, now), Copy(t)];
    var m1 := m.(threads := m.threads[t := Thread([id], Waiting, now)]);
    var m2 := m.(threads := m.threads[t := Thread([], Waiting, now)]);
    assert m1 == Next(m, ops[0]);
    assert [id][1..] == [] && m2.threads == m1.threads[t := Thread([], Waiting, now)];
    assert m2 == Next(m1, ops[1]);
    ms := [m, m1, m2];
  }

  /** With nothing in between, the steps of a manual rotation have the effect of the rotation as a
      whole: one lease and one policy write, or nothing if there is no such policy. */
  lemma UninterruptedRotation(m: Machine, t: ThreadID, id: ID, leaseID: ID, issuedAt: Time, rotatedAt: Time)
    returns (ms: seq<Machine>, ops: seq<Op>)
    requires Safe(m) && t !in m.threads && leaseID !in m.s.leases && issuedAt <= rotatedAt
    ensures Run(ms, ops) && ms[0] == m && ms[|ops|].threads == m.threads[t := Thread([], Waiting, rotatedAt)]
    ensures id !in m.s.policies ==> ms[|ops|].s == m.s
    ensures id in m.s.policies ==>
      var p := m.s.policies[id];
      var r := IssueOutcome(RequestOf(p), leaseID, issuedAt);
      r.Ok? && ms[|ops|].s ==
        State(m.s.leases[leaseID := r.value], m.s.policies[id := Rotated(p, rotatedAt)])
  {
    hide Legal, Next, IssueOutcome, Rotated, Issuable, Scheduled, CopyFits;
    if id !in m.s.policies {
      ms, ops := RotatesNothing(m, t, id, rotatedAt);
    } else {
      assert Sound(id, m.s.policies[id]);
      RotationIsIssuable(m.s.policies[id], leaseID, issuedAt);
      var l := IssueOutcome(RequestOf(m.s.policies[id]), leaseID, issuedAt).value;
      ms, ops := RotatesAlone(m, t, id, l, rotatedAt);
    }
  }
}
