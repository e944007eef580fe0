/** Credential leases and rotation policies. Times are nanoseconds. */
module Vault {
  import opened Wrappers
  import opened Text
  import opened Environment

  type ID = nat
  type Time = int
  type Metadata = map<string, string>

  const SECOND: int := 1_000_000_000

  /** The signed 64-bit value of a product: the one in range that differs from it by a multiple of
      2 to the 64th. */
  function Wrap64(n: int): (w: int)
    ensures -0x8000_0000_0000_0000 <= w < 0x8000_0000_0000_0000
    ensures (n - w) % 0x1_0000_0000_0000_0000 == 0
    ensures -0x8000_0000_0000_0000 <= n < 0x8000_0000_0000_0000 ==> w == n
  {
    (n + 0x8000_0000_0000_0000) % 0x1_0000_0000_0000_0000 - 0x8000_0000_0000_0000
  }

  /** A number of seconds as a duration: the multiplication wraps around. */
  function Seconds(n: int): int {
    Wrap64(n * SECOND)
  }

  datatype VaultError =
    | FieldsRequired | UnsupportedTarget | BadTTL | BadInterval | PolicyExists
    | LeaseNotFound | AlreadyRevoked | TargetRequired
    | PolicyNotFound | PolicyDisabled | RotationFailed(cause: VaultError)

  datatype Lease = Lease(
    id: ID, targetType: string, targetID: string, role: string, metadata: Metadata,
    issuedAt: Time, expiresAt: Time, revoked: bool, revokedAt: Option<Time>, revokeReason: string,
    leaseSeconds: int)

  datatype RotationPolicy = RotationPolicy(
    id: ID, targetType: string, targetID: string, role: string,
    intervalSeconds: int, ttlSeconds: int, metadata: Metadata, enabled: bool,
    createdAt: Time, updatedAt: Time, lastRotatedAt: Option<Time>, nextRotationAt: Time)

  datatype IssueRequest = IssueRequest(
    targetType: string, targetID: string, role: string, ttlSeconds: int, metadata: Metadata)

  datatype PolicyRequest = PolicyRequest(
    targetType: string, targetID: string, role: string, intervalSeconds: int, ttlSeconds: int, metadata: Metadata)

  datatype RotationResult = RotationResult(policyID: ID, leaseID: ID, rotatedAt: Time, expiresAt: Time)

  datatype State = State(leases: map<ID, Lease>, policies: map<ID, RotationPolicy>)

  predicate SupportedTarget(targetType: string) {
    targetType == "database" || targetType == "ssh" || targetType == "api"
  }

  // ---- Issuing and revoking ----

  /** The lease a request leads to, or why it is refused. */
  function IssueOutcome(req: IssueRequest, id: ID, now: Time): Result<Lease, VaultError> {
    var targetType := ToLower(TrimSpace(req.targetType));
    var targetID := TrimSpace(req.targetID);
    var role := TrimSpace(req.role);
    var ttl := if req.ttlSeconds == 0 then 900 else req.ttlSeconds;
    if targetType == "" || targetID == "" || role == "" then Err(FieldsRequired)
    else if !SupportedTarget(targetType) then Err(UnsupportedTarget)
    else if ttl < 60 || ttl > 86400 then Err(BadTTL)
    else Ok(Lease(id, targetType, targetID, role, req.metadata, now, now + Seconds(ttl), false, None, "", ttl))
  }

  function Ended(l: Lease, reason: string, now: Time): Lease {
    l.(revoked := true, revokedAt := Some(now), revokeReason := reason)
  }

  predicate OnTarget(l: Lease, targetID: string) {
    EqualFold(l.targetID, targetID) && !l.revoked
  }

  /** The leases that a bulk revocation of a target ends. */
  function LeasesOn(leases: map<ID, Lease>, targetID: string): set<ID> {
    set id | id in leases && OnTarget(leases[id], targetID)
  }

  function EndThese(leases: map<ID, Lease>, ids: set<ID>, reason: string, now: Time): map<ID, Lease> {
    map id | id in leases :: if id in ids then Ended(leases[id], reason, now) else leases[id]
  }

  lemma EndNone(leases: map<ID, Lease>, reason: string, now: Time)
    ensures EndThese(leases, {}, reason, now) == leases
  {
  }

  lemma EndOneMore(leases: map<ID, Lease>, ids: set<ID>, id: ID, reason: string, now: Time)
    requires id in leases && id !in ids
    ensures id in EndThese(leases, ids, reason, now) && EndThese(leases, ids, reason, now)[id] == leases[id]
    ensures EndThese(leases, ids + {id}, reason, now)
      == EndThese(leases, ids, reason, now)[id := Ended(leases[id], reason, now)]
  {
  }

  /** Afterwards no unrevoked lease is left on the target, and other leases are untouched. */
  lemma EndingIsComplete(leases: map<ID, Lease>, targetID: string, reason: string, now: Time)
    ensures LeasesOn(EndThese(leases, LeasesOn(leases, targetID), reason, now), targetID) == {}
    ensures forall id :: id in leases && !OnTarget(leases[id], targetID) ==>
      EndThese(leases, LeasesOn(leases, targetID), reason, now)[id] == leases[id]
  {
  }

  datatype LeaseStatus = Active | Revoked | Expired

  function StatusOf(l: Lease, now: Time): LeaseStatus {
    if l.revoked then Revoked else if now > l.expiresAt then Expired else Active
  }

  // ---- Rotation policies ----

  ghost predicate SameTarget(p: RotationPolicy, targetType: string, targetID: string, role: string) {
    EqualFold(p.targetID, targetID) && EqualFold(p.targetType, targetType) && EqualFold(p.role, role)
  }

  ghost predicate TargetTaken(policies: map<ID, RotationPolicy>, targetType: string, targetID: string, role: string) {
    exists id :: id in policies && SameTarget(policies[id], targetType, targetID, role)
  }

  ghost function CreateOutcome(policies: map<ID, RotationPolicy>, req: PolicyRequest, id: ID, now: Time)
    : Result<RotationPolicy, VaultError>
  {
    var targetType := ToLower(TrimSpace(req.targetType));
    var targetID := TrimSpace(req.targetID);
    var role := TrimSpace(req.role);
    var ttl := if req.ttlSeconds == 0 then req.intervalSeconds else req.ttlSeconds;
    if targetType == "" || targetID == "" || role == "" then Err(FieldsRequired)
    else if !SupportedTarget(targetType) then Err(UnsupportedTarget)
    else if req.intervalSeconds < 60 then Err(BadInterval)
    else if ttl < 60 || ttl > 86400 then Err(BadTTL)
    else if TargetTaken(policies, targetType, targetID, role) then Err(PolicyExists)
    else Ok(RotationPolicy(id, targetType, targetID, role, req.intervalSeconds, ttl, req.metadata, true,
                           now, now, None, now + Seconds(req.intervalSeconds)))
  }

  /** The issue request that rotating a policy makes. */
  function RequestOf(p: RotationPolicy): IssueRequest {
    IssueRequest(p.targetType, p.targetID, p.role, p.ttlSeconds, p.metadata)
  }

  function Rotated(p: RotationPolicy, now: Time): RotationPolicy {
    p.(lastRotatedAt := Some(now), nextRotationAt := now + Seconds(p.intervalSeconds), updatedAt := now)
  }

  predicate Due(p: RotationPolicy, now: Time) {
    p.enabled && now > p.nextRotationAt
  }

  // ---- What holds of every stored policy ----

  /** Its fields are normalised and pass the checks of credential issue. */
  predicate Issuable(p: RotationPolicy) {
    && p.targetType != "" && p.targetID != "" && p.role != ""
    && ToLower(TrimSpace(p.targetType)) == p.targetType
    && TrimSpace(p.targetID) == p.targetID && TrimSpace(p.role) == p.role
    && SupportedTarget(p.targetType)
    && 60 <= p.ttlSeconds <= 86400
  }

  /** The next rotation is one interval after the last one, or after creation. */
  predicate Scheduled(p: RotationPolicy) {
    p.nextRotationAt ==
      (if p.lastRotatedAt.Some? then p.lastRotatedAt.value else p.createdAt) + Seconds(p.intervalSeconds)
  }

  predicate Sound(id: ID, p: RotationPolicy) {
    p.id == id && p.enabled && p.intervalSeconds >= 60 && Issuable(p) && Scheduled(p)
  }

  ghost predicate Inv(policies: map<ID, RotationPolicy>) {
    forall id :: id in policies ==> Sound(id, policies[id])
  }

  /** Rotating a stored policy never fails input validation: the lease it leads to is for
      the policy's own target and role, and lives for its time to live. */
  lemma RotationIsIssuable(p: RotationPolicy, id: ID, now: Time)
    requires Issuable(p)
    ensures IssueOutcome(RequestOf(p), id, now) ==
      Ok(Lease(id, p.targetType, p.targetID, p.role, p.metadata, now, now + p.ttlSeconds * SECOND, false, None, "",
               p.ttlSeconds))
  {
  }

  lemma CreatedIsSound(policies: map<ID, RotationPolicy>, req: PolicyRequest, id: ID, now: Time)
    requires CreateOutcome(policies, req, id, now).Ok?
    ensures Sound(id, CreateOutcome(policies, req, id, now).value)
  {
    hide SupportedTarget, TargetTaken;
    NormalizeIdempotent(req.targetType);
  }

  lemma RotatedIsSound(id: ID, p: RotationPolicy, now: Time)
    requires Sound(id, p)
    ensures Sound(id, Rotated(p, now))
  {
  }

  // ---- What is issued and created ----

  /** A credential is issued exactly for a known target type, a target, a role and a time to live in
      range or left out; the lease is for those and ends that many seconds after its issue. */
  lemma IssueExactly(req: IssueRequest, id: ID, now: Time)
    ensures IssueOutcome(req, id, now).Ok? <==>
      && LowerTrim(req.targetType) in {"database", "ssh", "api"}
      && TrimSpace(req.targetID) != "" && TrimSpace(req.role) != ""
      && (req.ttlSeconds == 0 || 60 <= req.ttlSeconds <= 86400)
    ensures IssueOutcome(req, id, now).Ok? ==>
      var l, ttl := IssueOutcome(req, id, now).value, if req.ttlSeconds == 0 then 900 else req.ttlSeconds;
      && l.id == id && l.targetType == LowerTrim(req.targetType) && l.targetID == TrimSpace(req.targetID)
      && l.role == TrimSpace(req.role) && l.metadata == req.metadata && l.leaseSeconds == ttl
      && l.issuedAt == now && l.expiresAt == now + ttl * 1_000_000_000
      && !l.revoked && l.revokedAt == None
  {
    hide TrimSpace, ToLower;
  }

  /** A rotation policy is created exactly for a known target type, a target and a role that no
      policy has up to case, an interval of at least a minute, and a time to live in range, the
      interval if left out; it is enabled and next due one interval after its creation. */
  lemma CreateExactly(policies: map<ID, RotationPolicy>, req: PolicyRequest, id: ID, now: Time)
    ensures CreateOutcome(policies, req, id, now).Ok? <==>
      && LowerTrim(req.targetType) in {"database", "ssh", "api"}
      && TrimSpace(req.targetID) != "" && TrimSpace(req.role) != "" && req.intervalSeconds >= 60
      && 60 <= (if req.ttlSeconds == 0 then req.intervalSeconds else req.ttlSeconds) <= 86400
      && (forall k :: k in policies ==>
        || !EqualFold(policies[k].targetID, TrimSpace(req.targetID))
        || !EqualFold(policies[k].targetType, LowerTrim(req.targetType))
        || !EqualFold(policies[k].role, TrimSpace(req.role)))
    ensures CreateOutcome(policies, req, id, now).Ok? ==>
      var p := CreateOutcome(policies, req, id, now).value;
      && p.id == id && p.targetType == LowerTrim(req.targetType) && p.targetID == TrimSpace(req.targetID)
      && p.role == TrimSpace(req.role) && p.metadata == req.metadata && p.enabled
      && p.intervalSeconds == req.intervalSeconds
      && p.ttlSeconds == (if req.ttlSeconds == 0 then req.intervalSeconds else req.ttlSeconds)
      && p.createdAt == now && p.lastRotatedAt == None
      && (req.intervalSeconds <= 9_223_372_036 ==> p.nextRotationAt == now + req.intervalSeconds * 1_000_000_000)
  {
    hide TrimSpace, ToLower, EqualFold;
  }

  /** A written rotation sets the times and nothing else. */
  lemma RotationTimes(p: RotationPolicy, now: Time)
    ensures var q := Rotated(p, now);
      && q.lastRotatedAt == Some(now) && q.updatedAt == now && q.nextRotationAt == now + Seconds(p.intervalSeconds)
      && q.id == p.id && q.targetType == p.targetType && q.targetID == p.targetID && q.role == p.role
      && q.intervalSeconds == p.intervalSeconds && q.ttlSeconds == p.ttlSeconds && q.metadata == p.metadata
      && q.enabled == p.enabled && q.createdAt == p.createdAt
    ensures p.intervalSeconds >= 0 && p.intervalSeconds <= 9_223_372_036 ==>
      (Due(Rotated(p, now), now + p.intervalSeconds * 1_000_000_000 + 1) <==> p.enabled)
      && !Due(Rotated(p, now), now + p.intervalSeconds * 1_000_000_000)
  {
  }

  class VaultService {
    var leases: map<ID, Lease>
    var rotationPolicies: map<ID, RotationPolicy>

    constructor ()
      ensures leases == map[] && rotationPolicies == map[]
    {
      leases, rotationPolicies := map[], map[];
    }

    method IssueCredential(req: IssueRequest, leaseID: ID, now: Time) returns (r: Result<Lease, VaultError>)
      requires leaseID !in leases
      modifies this`leases
      ensures r == IssueOutcome(req, leaseID, now)
      ensures leases == if r.Ok? then old(leases)[leaseID := r.value] else old(leases)
    {
      var targetType := ToLower(TrimSpace(req.targetType));
      var targetID := TrimSpace(req.targetID);
      var role := TrimSpace(req.role);
      if targetType == "" || targetID == "" || role == "" {
        return Err(FieldsRequired);
      }
      if !SupportedTarget(targetType) {
        return Err(UnsupportedTarget);
      }
      var ttlSeconds := req.ttlSeconds;
      if ttlSeconds == 0 {
        ttlSeconds := 900;
      }
      if ttlSeconds < 60 || ttlSeconds > 86400 {
        return Err(BadTTL);
      }
      var lease := Lease(leaseID, targetType, targetID, role, req.metadata, now, now + Seconds(ttlSeconds),
                         false, None, "", ttlSeconds);
      leases := leases[leaseID := lease];
      return Ok(lease);
    }

    method RevokeLease(leaseID: ID, reason: string, now: Time) returns (r: Result<(), VaultError>)
      modifies this`leases
      ensures r.Ok? <==> leaseID in old(leases) && !old(leases)[leaseID].revoked
      ensures r.Err? ==> r.error == if leaseID in old(leases) then AlreadyRevoked else LeaseNotFound
      ensures leases ==
        if r.Ok? then old(leases)[leaseID := Ended(old(leases)[leaseID], TrimSpace(reason), now)] else old(leases)
    {
      if leaseID !in leases {
        return Err(LeaseNotFound);
      }
      var lease := leases[leaseID];
      if lease.revoked {
        return Err(AlreadyRevoked);
      }
      lease := lease.(revoked := true);
      lease := lease.(revokedAt := Some(now));
      lease := lease.(revokeReason := TrimSpace(reason));
      leases := leases[leaseID := lease];
      return Ok(());
    }

    /** Ends every unrevoked lease on the target, whatever its case, and counts them. */
    method RevokeLeasesByTarget(target: string, reason: string, now: Time) returns (r: Result<nat, VaultError>)
      modifies this`leases
      ensures r == if TrimSpace(target) == "" then Err(TargetRequired)
        else Ok(|LeasesOn(old(leases), TrimSpace(target))|)
      ensures leases == if TrimSpace(target) == "" then old(leases)
        else EndThese(old(leases), LeasesOn(old(leases), TrimSpace(target)), TrimSpace(reason), now)
      ensures r.Ok? ==> LeasesOn(leases, TrimSpace(target)) == {}
    {
      hide EqualFold, TrimSpace, EndThese, LeasesOn;
      var targetID := TrimSpace(target);
      if targetID == "" {
        return Err(TargetRequired);
      }
      var trimmedReason := TrimSpace(reason);
      var count := EndOnTarget(targetID, trimmedReason, now);
      EndingIsComplete(old(leases), targetID, trimmedReason, now);
      return Ok(count);
    }

    method EndOnTarget(targetID: string, reason: string, now: Time) returns (count: nat)
      modifies this`leases
      ensures count == |LeasesOn(old(leases), targetID)|
      ensures leases == EndThese(old(leases), LeasesOn(old(leases), targetID), reason, now)
    {
      hide EqualFold;
      ghost var before := leases;
      count := 0;
      var rest := leases.Keys;
      ghost var done: set<ID> := {};
      EndNone(before, reason, now);
      hide EndThese;
      while rest != {}
        invariant rest <= before.Keys
        invariant forall id :: id in done <==> id in before && id !in rest && OnTarget(before[id], targetID)
        invariant count == |done|
        invariant leases == EndThese(before, done, reason, now)
        decreases rest
      {
        var id :| id in rest;
        rest := rest - {id};
        EndOneMore(before, done, id, reason, now);
        var lease := leases[id];
        if EqualFold(lease.targetID, targetID) && !lease.revoked {
          leases := leases[id := lease.(revoked := true, revokedAt := Some(now), revokeReason := reason)];
          count := count + 1;
          done := done + {id};
        }
      }
      assert done == LeasesOn(before, targetID);
    }

    method CreateRotationPolicy(req: PolicyRequest, policyID: ID, now: Time)
      returns (r: Result<RotationPolicy, VaultError>)
      modifies this`rotationPolicies
      ensures r == CreateOutcome(old(rotationPolicies), req, policyID, now)
      ensures rotationPolicies == if r.Ok? then old(rotationPolicies)[policyID := r.value] else old(rotationPolicies)
    {
      hide EqualFold, TrimSpace;
      var targetType := ToLower(TrimSpace(req.targetType));
      var targetID := TrimSpace(req.targetID);
      var role := TrimSpace(req.role);
      if targetType == "" || targetID == "" || role == "" {
        return Err(FieldsRequired);
      }
      if !SupportedTarget(targetType) {
        return Err(UnsupportedTarget);
      }
      if req.intervalSeconds < 60 {
        return Err(BadInterval);
      }
      var ttl := req.ttlSeconds;
      if ttl == 0 {
        ttl := req.intervalSeconds;
      }
      if ttl < 60 || ttl > 86400 {
        return Err(BadTTL);
      }
      var policy := RotationPolicy(policyID, targetType, targetID, role, req.intervalSeconds, ttl, req.metadata,
                                   true, now, now, None, now + Seconds(req.intervalSeconds));
      var rest := rotationPolicies.Keys;
      while rest != {}
        invariant rest <= rotationPolicies.Keys
        invariant forall id :: id in rotationPolicies && id !in rest ==>
          !SameTarget(rotationPolicies[id], targetType, targetID, role)
        decreases rest
      {
        var id :| id in rest;
        var existing := rotationPolicies[id];
        if EqualFold(existing.targetID, targetID) && EqualFold(existing.targetType, targetType)
          && EqualFold(existing.role, role) {
          assert SameTarget(rotationPolicies[id], targetType, targetID, role);
          return Err(PolicyExists);
        }
        rest := rest - {id};
      }
      rotationPolicies := rotationPolicies[policyID := policy];
      return Ok(policy);
    }

    /** A rotation that nothing interrupts: read the policy, issue a lease, write back. */
    method TriggerRotation(policyID: ID, leaseID: ID, clock: Clock) returns (r: Result<RotationResult, VaultError>)
      requires leaseID !in leases
      modifies this, clock
      ensures old(clock.now) <= clock.now
      ensures policyID !in old(rotationPolicies) ==> r == Err(PolicyNotFound)
      ensures policyID in old(rotationPolicies) && !old(rotationPolicies)[policyID].enabled ==> r == Err(PolicyDisabled)
      ensures r.Err? ==> leases == old(leases) && rotationPolicies == old(rotationPolicies)
      ensures r.Ok? ==>
        && policyID in old(rotationPolicies) && leaseID in leases
        && var p := old(rotationPolicies)[policyID];
        && old(clock.now) <= leases[leaseID].issuedAt <= r.value.rotatedAt <= clock.now
        && IssueOutcome(RequestOf(p), leaseID, leases[leaseID].issuedAt) == Ok(leases[leaseID])
        && leases == old(leases)[leaseID := leases[leaseID]]
        && rotationPolicies == old(rotationPolicies)[policyID := Rotated(p, r.value.rotatedAt)]
        && r.value == RotationResult(policyID, leaseID, r.value.rotatedAt, leases[leaseID].expiresAt)
      ensures policyID in old(rotationPolicies) && Sound(policyID, old(rotationPolicies)[policyID]) ==> r.Ok?
    {
      hide TrimSpace, ToLower, SupportedTarget;
      if policyID !in rotationPolicies {
        return Err(PolicyNotFound);
      }
      var policy := rotationPolicies[policyID];
      if !policy.enabled {
        return Err(PolicyDisabled);
      }
      var issuedAt := clock.Read();
      if Issuable(policy) {
        RotationIsIssuable(policy, leaseID, issuedAt);
      }
      var issued := IssueCredential(
        IssueRequest(policy.targetType, policy.targetID, policy.role, policy.ttlSeconds, policy.metadata),
        leaseID, issuedAt);
      if issued.Err? {
        return Err(RotationFailed(issued.error));
      }
      var now := clock.Read();
      policy := policy.(lastRotatedAt := Some(now));
      policy := policy.(nextRotationAt := now + Seconds(policy.intervalSeconds));
      policy := policy.(updatedAt := now);
      rotationPolicies := rotationPolicies[policyID := policy];
      return Ok(RotationResult(policyID, leaseID, now, issued.value.expiresAt));
    }

    /** The policies due, each tested against its own clock reading. */
    method DuePolicies(clock: Clock) returns (dueIDs: seq<ID>)
      modifies clock
      ensures old(clock.now) <= clock.now
      ensures forall i, j :: 0 <= i < j < |dueIDs| ==> dueIDs[i] != dueIDs[j]
      ensures forall id :: id in dueIDs ==> id in rotationPolicies && Due(rotationPolicies[id], clock.now)
      ensures forall id :: id in rotationPolicies && Due(rotationPolicies[id], old(clock.now)) ==> id in dueIDs
    {
      dueIDs := [];
      var rest := rotationPolicies.Keys;
      while rest != {}
        invariant rest <= rotationPolicies.Keys
        invariant old(clock.now) <= clock.now
        invariant forall i, j :: 0 <= i < j < |dueIDs| ==> dueIDs[i] != dueIDs[j]
        invariant forall id :: id in dueIDs ==>
          id in rotationPolicies && id !in rest && Due(rotationPolicies[id], clock.now)
        invariant forall id :: id in rotationPolicies && id !in rest && Due(rotationPolicies[id], old(clock.now)) ==>
          id in dueIDs
        decreases rest
      {
        var id :| id in rest;
        rest := rest - {id};
        var policy := rotationPolicies[id];
        var now := clock.Read();
        if policy.enabled && now > policy.nextRotationAt {
          dueIDs := dueIDs + [id];
        }
      }
    }

    /** A sweep that nothing interrupts rotates exactly the policies it finds due, one new
        lease each: all that were due on entry, and none that is not due by the end. */
    method RunDueRotations(clock: Clock, ids: Identifiers) returns (results: seq<RotationResult>, ghost due: seq<ID>)
      requires Inv(rotationPolicies)
      requires forall id :: id in leases ==> id < ids.next
      modifies this, clock, ids
      ensures Inv(rotationPolicies) && forall id :: id in leases ==> id < ids.next
      ensures forall id :: id in old(rotationPolicies) && Due(old(rotationPolicies)[id], old(clock.now)) ==> id in due
      ensures forall id :: id in due ==> id in old(rotationPolicies) && Due(old(rotationPolicies)[id], clock.now)
      ensures Swept(State(old(leases), old(rotationPolicies)), due, State(leases, rotationPolicies), results)
    {
      hide Sound, Swept, Rotated, IssueOutcome;
      ghost var s0 := State(leases, rotationPolicies);
      var dueIDs := DuePolicies(clock);
      due := dueIDs;
      ghost var scanned := clock.now;
      results := [];
      NothingSwept(s0);
      assert dueIDs[..0] == [];
      for i := 0 to |dueIDs|
        invariant Inv(rotationPolicies)
        invariant forall id :: id in leases ==> id < ids.next
        invariant scanned <= clock.now
        invariant Swept(s0, dueIDs[..i], State(leases, rotationPolicies), results)
      {
        var leaseID := ids.Draw();
        ghost var s := State(leases, rotationPolicies);
        var id := dueIDs[i];
        StillToDo(s0, dueIDs, i, s, results);
        var result := TriggerRotation(id, leaseID, clock);
        assert result.Ok?;
        RotatedIsSound(id, s.policies[id], result.value.rotatedAt);
        IssuedFits(s.policies[id], id, leaseID, leases[leaseID]);
        SweptOneMore(s0, dueIDs, i, s, results, State(leases, rotationPolicies), result.value);
        if result.Ok? {
          results := results + [result.value];
        }
      }
      assert dueIDs[..|dueIDs|] == dueIDs;
    }
  }

  /** A rotation's lease is for the policy's own target and lives for its time to live. */
  ghost predicate LeaseFor(l: Lease, p: RotationPolicy) {
    l.targetType == p.targetType && l.targetID == p.targetID && l.role == p.role && l.metadata == p.metadata
    && l.expiresAt == l.issuedAt + p.ttlSeconds * SECOND && !l.revoked
  }

  lemma IssuedFits(p: RotationPolicy, id: ID, leaseID: ID, l: Lease)
    requires Sound(id, p) && IssueOutcome(RequestOf(p), leaseID, l.issuedAt) == Ok(l)
    ensures LeaseFor(l, p)
  {
  }

  /** The result `r` reports one rotation of `p` between two states. */
  ghost predicate RotatedOnce(p: RotationPolicy, r: RotationResult, s0: State, s: State) {
    && r.leaseID in s.leases && r.leaseID !in s0.leases
    && LeaseFor(s.leases[r.leaseID], p)
    && s.leases[r.leaseID].issuedAt <= r.rotatedAt
    && r.expiresAt == s.leases[r.leaseID].expiresAt
    && r.policyID in s.policies && s.policies[r.policyID] == Rotated(p, r.rotatedAt)
  }

  ghost predicate Reported(s0: State, due: seq<ID>, s: State, results: seq<RotationResult>) {
    && |results| == |due|
    && (forall i :: 0 <= i < |due| ==>
      && results[i].policyID == due[i] && due[i] in s0.policies
      && RotatedOnce(s0.policies[due[i]], results[i], s0, s))
    && (forall i, j :: 0 <= i < j < |due| ==> due[i] != due[j] && results[i].leaseID != results[j].leaseID)
  }

  ghost predicate OthersUntouched(s0: State, due: seq<ID>, s: State) {
    && s.policies.Keys == s0.policies.Keys
    && (forall id :: id in s0.policies && id !in due ==> s.policies[id] == s0.policies[id])
    && s0.leases.Keys <= s.leases.Keys
    && (forall id :: id in s0.leases ==> s.leases[id] == s0.leases[id])
  }

  ghost predicate NoOtherLeases(s0: State, s: State, results: seq<RotationResult>) {
    forall id :: id in s.leases && id !in s0.leases ==> exists i :: 0 <= i < |results| && results[i].leaseID == id
  }

  /** Between the two states exactly the listed policies were rotated, in order, each once
      and each with one new lease of its own. */
  ghost predicate Swept(s0: State, due: seq<ID>, s: State, results: seq<RotationResult>) {
    Reported(s0, due, s, results) && OthersUntouched(s0, due, s) && NoOtherLeases(s0, s, results)
  }

  /** So a sweep adds as many leases as it found policies due. */
  lemma SweepAddsOneLeaseEach(s0: State, due: seq<ID>, s: State, results: seq<RotationResult>)
    requires Swept(s0, due, s, results)
    ensures |s.leases| == |s0.leases| + |due|
  {
    LeasesKept(s0, due, s);
    hide LeaseFor, Rotated, OthersUntouched;
    forall i | 0 <= i < |results|
      ensures results[i].leaseID in s.leases.Keys - s0.leases.Keys
    {
      assert RotatedOnce(s0.policies[due[i]], results[i], s0, s);
    }
    hide RotatedOnce;
    CountNew(s0.leases.Keys, s.leases.Keys, results);
  }

  lemma CountNew(before: set<ID>, after: set<ID>, results: seq<RotationResult>)
    requires before <= after
    requires forall i :: 0 <= i < |results| ==> results[i].leaseID in after - before
    requires forall id :: id in after && id !in before ==> exists i :: 0 <= i < |results| && results[i].leaseID == id
    requires forall i, j :: 0 <= i < j < |results| ==> results[i].leaseID != results[j].leaseID
    ensures |after| == |before| + |results|
  {
    CountIDs(results);
    assert after - before == set i | 0 <= i < |results| :: results[i].leaseID;
    assert after == before + (after - before);
  }

  lemma LeasesKept(s0: State, due: seq<ID>, s: State)
    requires OthersUntouched(s0, due, s)
    ensures s0.leases.Keys <= s.leases.Keys
  {
  }

  lemma {:induction false} CountIDs(results: seq<RotationResult>)
    requires forall i, j :: 0 <= i < j < |results| ==> results[i].leaseID != results[j].leaseID
    ensures |set i | 0 <= i < |results| :: results[i].leaseID| == |results|
  {
    if results != [] {
      var t, last := results[..|results| - 1], results[|results| - 1];
      CountIDs(t);
      var ids := set i | 0 <= i < |t| :: t[i].leaseID;
      assert (set i | 0 <= i < |results| :: results[i].leaseID) == ids + {last.leaseID};
    }
  }

  lemma NothingSwept(s: State)
    ensures Swept(s, [], s, [])
  {
  }

  lemma StillToDo(s0: State, due: seq<ID>, i: nat, s: State, results: seq<RotationResult>)
    requires i < |due| && due[i] in s0.policies
    requires forall j, k :: 0 <= j < k < |due| ==> due[j] != due[k]
    requires Swept(s0, due[..i], s, results)
    ensures due[i] in s.policies && s.policies[due[i]] == s0.policies[due[i]]
  {
  }

  lemma SweptOneMore(s0: State, due: seq<ID>, i: nat, s: State, results: seq<RotationResult>, t: State,
                     r: RotationResult)
    requires i < |due| && due[i] in s0.policies
    requires forall j, k :: 0 <= j < k < |due| ==> due[j] != due[k]
    requires Swept(s0, due[..i], s, results)
    requires r.policyID == due[i] && r.leaseID !in s.leases && r.leaseID in t.leases
    requires t.leases == s.leases[r.leaseID := t.leases[r.leaseID]]
    requires t.policies == s.policies[due[i] := Rotated(s0.policies[due[i]], r.rotatedAt)]
    requires LeaseFor(t.leases[r.leaseID], s0.policies[due[i]])
    requires t.leases[r.leaseID].issuedAt <= r.rotatedAt && r.expiresAt == t.leases[r.leaseID].expiresAt
    ensures Swept(s0, due[..i + 1], t, results + [r])
  {
    hide LeaseFor, Rotated, Reported, OthersUntouched, NoOtherLeases;
    OthersOneMore(s0, due, i, s, t, r);
    OneMoreNewLease(s0, s, results, t, r);
    ReportedOneMore(s0, due, i, s, results, t, r);
  }

  lemma OthersOneMore(s0: State, due: seq<ID>, i: nat, s: State, t: State, r: RotationResult)
    requires i < |due| && due[i] in s0.policies
    requires OthersUntouched(s0, due[..i], s)
    requires r.leaseID !in s.leases && r.leaseID in t.leases
    requires t.leases == s.leases[r.leaseID := t.leases[r.leaseID]]
    requires t.policies == s.policies[due[i] := Rotated(s0.policies[due[i]], r.rotatedAt)]
    ensures OthersUntouched(s0, due[..i + 1], t)
  {
  }

  lemma OneMoreNewLease(s0: State, s: State, results: seq<RotationResult>, t: State, r: RotationResult)
    requires NoOtherLeases(s0, s, results)
    requires r.leaseID in t.leases && t.leases == s.leases[r.leaseID := t.leases[r.leaseID]]
    ensures NoOtherLeases(s0, t, results + [r])
  {
    var all := results + [r];
    forall id | id in t.leases && id !in s0.leases
      ensures exists j :: 0 <= j < |all| && all[j].leaseID == id
    {
      if id == r.leaseID {
        assert all[|results|].leaseID == id;
      } else {
        var j :| 0 <= j < |results| && results[j].leaseID == id;
        assert all[j].leaseID == id;
      }
    }
  }

  lemma ReportedOneMore(s0: State, due: seq<ID>, i: nat, s: State, results: seq<RotationResult>, t: State,
                        r: RotationResult)
    requires i < |due| && due[i] in s0.policies
    requires forall j, k :: 0 <= j < k < |due| ==> due[j] != due[k]
    requires Reported(s0, due[..i], s, results) && OthersUntouched(s0, due[..i], s)
    requires r.policyID == due[i] && r.leaseID !in s.leases && r.leaseID in t.leases
    requires t.leases == s.leases[r.leaseID := t.leases[r.leaseID]]
    requires t.policies == s.policies[due[i] := Rotated(s0.policies[due[i]], r.rotatedAt)]
    requires LeaseFor(t.leases[r.leaseID], s0.policies[due[i]])
    requires t.leases[r.leaseID].issuedAt <= r.rotatedAt && r.expiresAt == t.leases[r.leaseID].expiresAt
    ensures Reported(s0, due[..i + 1], t, results + [r])
  {
    hide LeaseFor, Rotated;
    var all := results + [r];
    forall j | 0 <= j < i + 1
      ensures all[j].policyID == due[j] && due[j] in s0.policies
      ensures RotatedOnce(s0.policies[due[j]], all[j], s0, t)
    {
      if j < i {
        assert due[..i][j] == due[j];
        assert RotatedOnce(s0.policies[due[j]], results[j], s0, s);
      }
    }
    forall j, k | 0 <= j < k < i + 1
      ensures all[j].leaseID != all[k].leaseID
    {
      assert RotatedOnce(s0.policies[due[..i][j]], results[j], s0, s);
    }
  }
}
