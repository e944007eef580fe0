/** Every interleaving of the gateway's critical sections. A session under a grant is started
    in two: the check of the grant, and later the insertion of the session. */
module GatewayRuns {
  import opened Wrappers
  import opened Text
  import opened Gateway

  type ThreadID = nat

  /** A start that has passed its check: for what, under which grant, and when it read the clock. */
  datatype Passed = Passed(target: Target, grant: ID, checkedAt: Time)

  /** `under` remembers for each session started under a grant which check let it in. */
  datatype Machine = Machine(s: State, starting: map<ThreadID, Passed>, under: map<ID, Passed>)

  const START := Machine(State(map[], map[]), map[], map[])

  datatype Op =
    | RequestGrant(user: string, asset: string, protocol: string, reason: string, ttl: int, newID: ID, now: Time)
    | Approve(grant: ID, approver: string, now: Time, later: Time)
    | Deny(grant: ID, approver: string, reason: string)
    | Check(t: ThreadID, user: string, asset: string, protocol: string, grant: ID, now: Time)
    | Insert(t: ThreadID, newID: ID, now: Time)
    | StartFree(user: string, asset: string, protocol: string, newID: ID, now: Time)
    | Terminate(session: ID, reason: string, now: Time)

  /** Identifiers are fresh, and a thread's clock readings never go back. */
  predicate Legal(m: Machine, op: Op) {
    match op
    case RequestGrant(_, _, _, _, _, id, _) => id !in m.s.grants
    case Check(t, _, _, _, _, _) => t !in m.starting
    case Insert(t, id, now) =>
      t in m.starting && id !in m.s.sessions && id !in m.under && m.starting[t].checkedAt <= now
    case StartFree(_, _, _, id, _) => id !in m.s.sessions && id !in m.under
    case _ => true
  }

  function Next(m: Machine, op: Op): Machine
    requires Legal(m, op)
  {
    match op
    case RequestGrant(user, asset, protocol, reason, ttl, id, now) =>
      var r := RequestOutcome(user, asset, protocol, reason, ttl, id, now);
      if r.Ok? then m.(s := m.s.(grants := m.s.grants[id := r.value])) else m
    case Approve(id, approver, now, later) => m.(s := ApproveNext(m.s, id, approver, now, later).0)
    case Deny(id, approver, reason) => m.(s := DenyNext(m.s, id, approver, reason).0)
    case Check(t, user, asset, protocol, grant, now) =>
      var target := TargetOf(user, asset, protocol);
      if target.Ok? && GrantCheck(m.s, grant, target.value, now).Ok?
      then m.(starting := m.starting[t := Passed(target.value, grant, now)]) else m
    case Insert(t, id, now) =>
      var p := m.starting[t];
      Machine(m.s.(sessions := m.s.sessions[id := Started(p.target, id, now)]), m.starting - {t}, m.under[id := p])
    case StartFree(user, asset, protocol, id, now) =>
      var target := TargetOf(user, asset, protocol);
      if target.Ok? then m.(s := m.s.(sessions := m.s.sessions[id := Started(target.value, id, now)])) else m
    case Terminate(id, reason, now) => m.(s := TerminateNext(m.s, id, reason, now).0)
  }

  ghost predicate Run(ms: seq<Machine>, ops: seq<Op>) {
    && |ms| == |ops| + 1
    && forall i :: 0 <= i < |ops| ==> Legal(ms[i], ops[i]) && ms[i + 1] == Next(ms[i], ops[i])
  }

  // ---- Grants only move forward ----

  /** Decisions are final: an approved or denied grant is frozen, and a pending one changes
      only by being decided. */
  ghost predicate GrantMoves(g: Grant, h: Grant) {
    && (g.status != Pending ==> h == g)
    && h.id == g.id && h.userID == g.userID && h.assetID == g.assetID && h.protocol == g.protocol
    && h.reason == g.reason && h.ttlSeconds == g.ttlSeconds && h.createdAt == g.createdAt && h.expiresAt == g.expiresAt
  }

  /** Sessions keep whom and what they are for, and a terminated one is frozen. */
  ghost predicate SessionMoves(x: Session, y: Session) {
    && (x.status == Terminated ==> y == x)
    && y.id == x.id && y.userID == x.userID && y.assetID == x.assetID && y.protocol == x.protocol
    && y.createdAt == x.createdAt
  }

  ghost predicate Onward(m: Machine, n: Machine) {
    && (forall id :: id in m.s.grants ==> id in n.s.grants && GrantMoves(m.s.grants[id], n.s.grants[id]))
    && (forall id :: id in m.s.sessions ==> id in n.s.sessions && SessionMoves(m.s.sessions[id], n.s.sessions[id]))
  }

  /** One grant was added or changed, and no session. */
  lemma GrantReplaced(m: Machine, n: Machine, id: ID)
    requires n.s.sessions == m.s.sessions && id in n.s.grants && n.s.grants == m.s.grants[id := n.s.grants[id]]
    requires id in m.s.grants ==> GrantMoves(m.s.grants[id], n.s.grants[id])
    ensures Onward(m, n)
  {
  }

  lemma GrantStepIsOnward(m: Machine, op: Op)
    requires Legal(m, op) && (op.RequestGrant? || op.Approve? || op.Deny?)
    ensures Onward(m, Next(m, op))
  {
    hide TrimSpace, RequestOutcome;
    var n := Next(m, op);
    var id := if op.RequestGrant? then op.newID else op.grant;
    if id in n.s.grants {
      GrantReplaced(m, n, id);
    }
  }

  lemma SessionStepIsOnward(m: Machine, op: Op)
    requires Legal(m, op) && (op.Check? || op.Insert? || op.StartFree? || op.Terminate?)
    ensures Onward(m, Next(m, op))
  {
    hide TrimSpace, TargetOf, GrantCheck;
  }

  lemma StepIsOnward(m: Machine, op: Op)
    requires Legal(m, op)
    ensures Onward(m, Next(m, op))
  {
    hide Legal, Next, Onward;
    if op.RequestGrant? || op.Approve? || op.Deny? {
      GrantStepIsOnward(m, op);
    } else {
      SessionStepIsOnward(m, op);
    }
  }

  lemma {:induction false} RunsAreOnward(ms: seq<Machine>, ops: seq<Op>, i: nat, j: nat)
    requires Run(ms, ops) && i <= j <= |ops|
    ensures Onward(ms[i], ms[j])
  {
    hide Legal, Next;
    if i < j {
      RunsAreOnward(ms, ops, i, j - 1);
      StepIsOnward(ms[j - 1], ops[j - 1]);
    }
  }

  // ---- From the request of a grant to its decision ----

  /** Step `k` approves the grant: by somebody, while it was pending and had not expired. */
  ghost predicate Approves(ms: seq<Machine>, ops: seq<Op>, k: nat, id: ID)
    requires Run(ms, ops) && k < |ops|
  {
    && ops[k].Approve? && ops[k].grant == id && TrimSpace(ops[k].approver) != ""
    && id in ms[k].s.grants && ms[k].s.grants[id].status == Pending && ops[k].now <= ms[k].s.grants[id].expiresAt
  }

  /** Step `k` denies the grant: by somebody, while it was pending. */
  ghost predicate Denies(ms: seq<Machine>, ops: seq<Op>, k: nat, id: ID)
    requires Run(ms, ops) && k < |ops|
  {
    && ops[k].Deny? && ops[k].grant == id && TrimSpace(ops[k].approver) != ""
    && id in ms[k].s.grants && ms[k].s.grants[id].status == Pending
  }

  ghost predicate WasApproved(ms: seq<Machine>, ops: seq<Op>, i: nat, id: ID)
    requires Run(ms, ops) && i <= |ops|
  {
    exists k: nat :: k < i && Approves(ms, ops, k, id)
  }

  ghost predicate WasDenied(ms: seq<Machine>, ops: seq<Op>, i: nat, id: ID)
    requires Run(ms, ops) && i <= |ops|
  {
    exists k: nat :: k < i && Denies(ms, ops, k, id)
  }

  lemma DecidedNext(ms: seq<Machine>, ops: seq<Op>, i: nat, id: ID)
    requires Run(ms, ops) && i < |ops|
    ensures WasApproved(ms, ops, i + 1, id) <==> WasApproved(ms, ops, i, id) || Approves(ms, ops, i, id)
    ensures WasDenied(ms, ops, i + 1, id) <==> WasDenied(ms, ops, i, id) || Denies(ms, ops, i, id)
  {
    hide Run, Approves, Denies;
    if k: nat :| k < i && Approves(ms, ops, k, id) {
      assert k < i + 1;
    }
    if k: nat :| k < i && Denies(ms, ops, k, id) {
      assert k < i + 1;
    }
  }

  /** Step `k` makes the grant. */
  ghost predicate Makes(ms: seq<Machine>, ops: seq<Op>, k: nat, id: ID)
    requires Run(ms, ops) && k < |ops|
  {
    ops[k].RequestGrant? && ops[k].newID == id && id in ms[k + 1].s.grants
  }

  /** What one step does to the status of a grant that exists. */
  lemma StepDecides(m: Machine, op: Op, id: ID)
    requires Legal(m, op) && id in m.s.grants
    ensures id in Next(m, op).s.grants
    ensures var g, h := m.s.grants[id], Next(m, op).s.grants[id];
      var approved := op.Approve? && op.grant == id && TrimSpace(op.approver) != "" && g.status == Pending
        && op.now <= g.expiresAt;
      var denied := op.Deny? && op.grant == id && TrimSpace(op.approver) != "" && g.status == Pending;
      && h.status == (if approved then Approved else if denied then Denied else g.status)
      && (approved ==> h.approverID == TrimSpace(op.approver) && h.approvedAt == Some(op.later))
      && (denied ==> h.approverID == TrimSpace(op.approver) && h.denyReason == TrimSpace(op.reason))
  {
    hide TrimSpace, RequestOutcome, TargetOf, GrantCheck;
  }

  /** A grant is made only by a request, as a pending one on the trimmed terms of the request. */
  lemma StepMakes(m: Machine, op: Op, id: ID)
    requires Legal(m, op) && id !in m.s.grants && id in Next(m, op).s.grants
    ensures op.RequestGrant? && op.newID == id
    ensures var g := Next(m, op).s.grants[id];
      && g.status == Pending && g.userID == TrimSpace(op.user) && g.assetID == TrimSpace(op.asset)
      && g.protocol == LowerTrim(op.protocol) && g.reason == TrimSpace(op.reason) && g.createdAt == op.now
      && g.expiresAt == op.now + (if op.ttl == 0 then 3600 else op.ttl) * SECOND
      && g.userID != "" && g.assetID != "" && g.reason != "" && g.protocol in {"ssh", "rdp", "http"}
      && 60 <= g.ttlSeconds <= 86400 && g.expiresAt == g.createdAt + g.ttlSeconds * SECOND
  {
    hide TrimSpace, ToLower, GrantCheck;
  }

  /** A request makes a grant exactly if all its fields are filled in, the protocol is known and the
      time to live is left out or between a minute and a day; otherwise nothing changes. */
  lemma RequestsMakeGrants(m: Machine, op: Op)
    requires Legal(m, op) && op.RequestGrant?
    ensures op.newID in Next(m, op).s.grants <==>
      && TrimSpace(op.user) != "" && TrimSpace(op.asset) != "" && TrimSpace(op.reason) != ""
      && LowerTrim(op.protocol) in {"ssh", "rdp", "http"} && (op.ttl == 0 || 60 <= op.ttl <= 86400)
    ensures op.newID !in Next(m, op).s.grants ==> Next(m, op) == m
  {
    hide TrimSpace;
    assert |ToLower(TrimSpace(op.protocol))| == |TrimSpace(op.protocol)|;
    hide ToLower;
  }

  /** Over every interleaving a grant is approved if and only if it was approved by somebody while it
      was pending and had not expired, denied if and only if it was denied while it was pending, and
      pending if and only if it was neither. */
  lemma {:induction false} GrantsAreDecidedExactly(ms: seq<Machine>, ops: seq<Op>, i: nat, id: ID)
    requires Run(ms, ops) && ms[0] == START && i <= |ops| && id in ms[i].s.grants
    ensures ms[i].s.grants[id].status == Approved <==> WasApproved(ms, ops, i, id)
    ensures ms[i].s.grants[id].status == Denied <==> WasDenied(ms, ops, i, id)
  {
    hide Legal, Next, TrimSpace, WasApproved, WasDenied;
    if i > 0 {
      assert Legal(ms[i - 1], ops[i - 1]) && ms[i] == Next(ms[i - 1], ops[i - 1]);
      DecidedNext(ms, ops, i - 1, id);
      if id in ms[i - 1].s.grants {
        GrantsAreDecidedExactly(ms, ops, i - 1, id);
        StepDecides(ms[i - 1], ops[i - 1], id);
      } else {
        StepMakes(ms[i - 1], ops[i - 1], id);
        NotYetThere(ms, ops, i - 1, id);
      }
    }
  }

  lemma NotYetThere(ms: seq<Machine>, ops: seq<Op>, i: nat, id: ID)
    requires Run(ms, ops) && ms[0] == START && i <= |ops| && id !in ms[i].s.grants
    ensures !WasApproved(ms, ops, i, id) && !WasDenied(ms, ops, i, id)
  {
    hide Legal, Next, TrimSpace;
    forall k: nat | k <= i
      ensures id !in ms[k].s.grants
    {
      RunsAreOnward(ms, ops, k, i);
    }
  }

  /** Every grant was made by a request and keeps its terms. */
  lemma {:induction false} GrantsComeFromRequests(ms: seq<Machine>, ops: seq<Op>, i: nat, id: ID)
    requires Run(ms, ops) && ms[0] == START && i <= |ops| && id in ms[i].s.grants
    ensures exists k: nat ::
      k < i && Makes(ms, ops, k, id) && GrantMoves(ms[k + 1].s.grants[id], ms[i].s.grants[id])
  {
    hide Legal, Next, GrantMoves;
    assert ms[i] == Next(ms[i - 1], ops[i - 1]);
    if id in ms[i - 1].s.grants {
      GrantsComeFromRequests(ms, ops, i - 1, id);
      var k: nat :| k < i - 1 && Makes(ms, ops, k, id);
      RunsAreOnward(ms, ops, k + 1, i);
      assert k < i && Makes(ms, ops, k, id);
    } else {
      StepMakes(ms[i - 1], ops[i - 1], id);
      assert Makes(ms, ops, i - 1, id);
      RunsAreOnward(ms, ops, i, i);
    }
  }

  /** A check lets its thread go on if and only if the fields are filled in, the protocol is known,
      and the grant exists, is approved, has not passed its expiry, and is for the same user, asset
      and protocol up to case. Otherwise nothing changes. */
  lemma CheckOutcome(m: Machine, op: Op)
    requires Legal(m, op) && op.Check?
    ensures var n := Next(m, op);
      var user, asset, protocol := TrimSpace(op.user), TrimSpace(op.asset), LowerTrim(op.protocol);
      var passes :=
        && user != "" && asset != "" && protocol in {"ssh", "rdp", "http"} && op.grant in m.s.grants
        && m.s.grants[op.grant].status == Approved && op.now <= m.s.grants[op.grant].expiresAt
        && EqualFold(m.s.grants[op.grant].userID, user) && EqualFold(m.s.grants[op.grant].assetID, asset)
        && EqualFold(m.s.grants[op.grant].protocol, protocol);
      if passes then
        n == m.(starting := m.starting[op.t := Passed(Target(user, asset, protocol), op.grant, op.now)])
      else n == m
  {
    hide TrimSpace, ToLower, EqualFold;
  }

  /** Over every interleaving: once a grant has been denied, no check of it passes any more. */
  lemma DeniedGrantsLetNobodyIn(ms: seq<Machine>, ops: seq<Op>, k: nat, i: nat, id: ID)
    requires Run(ms, ops) && ms[0] == START && k < i < |ops| && Denies(ms, ops, k, id)
    requires ops[i].Check? && ops[i].grant == id
    ensures ms[i + 1] == ms[i]
  {
    hide Legal, Next, TrimSpace, EqualFold;
    RunsAreOnward(ms, ops, k, i);
    GrantsAreDecidedExactly(ms, ops, i, id);
    assert Legal(ms[i], ops[i]) && ms[i + 1] == Next(ms[i], ops[i]);
    CheckOutcome(ms[i], ops[i]);
  }

  /** Step `c` is the check that let a start go on. */
  ghost predicate CheckedAt(ms: seq<Machine>, ops: seq<Op>, c: nat, p: Passed)
    requires Run(ms, ops) && c < |ops|
  {
    && ops[c].Check? && ops[c].grant == p.grant && ops[c].now == p.checkedAt
    && p.target == Target(TrimSpace(ops[c].user), TrimSpace(ops[c].asset), LowerTrim(ops[c].protocol))
    && p.grant in ms[c].s.grants && ms[c].s.grants[p.grant].status == Approved
  }

  ghost predicate WasChecked(ms: seq<Machine>, ops: seq<Op>, i: nat, p: Passed)
    requires Run(ms, ops) && i <= |ops|
  {
    exists c: nat :: c < i && CheckedAt(ms, ops, c, p)
  }

  /** What a step adds to the starts under way and to the sessions under grants. */
  lemma StepAdds(m: Machine, op: Op)
    requires Legal(m, op)
    ensures var n := Next(m, op);
      && (forall t :: t in n.starting ==>
        (t in m.starting && n.starting[t] == m.starting[t]) || (op.Check? && op.t == t))
      && (forall id :: id in n.under ==>
        (id in m.under && n.under[id] == m.under[id]) || (op.Insert? && n.under[id] == m.starting[op.t]))
  {
    hide TrimSpace, TargetOf, GrantCheck, RequestOutcome;
  }

  lemma {:induction false} StartsWereChecked(ms: seq<Machine>, ops: seq<Op>, i: nat)
    requires Run(ms, ops) && ms[0] == START && i <= |ops|
    ensures forall t :: t in ms[i].starting ==> WasChecked(ms, ops, i, ms[i].starting[t])
    ensures forall id :: id in ms[i].under ==> WasChecked(ms, ops, i, ms[i].under[id])
  {
    hide Next, TrimSpace, EqualFold, WasChecked;
    if i > 0 {
      StartsWereChecked(ms, ops, i - 1);
      assert Legal(ms[i - 1], ops[i - 1]) && ms[i] == Next(ms[i - 1], ops[i - 1]);
      StepAdds(ms[i - 1], ops[i - 1]);
      forall p | WasChecked(ms, ops, i - 1, p)
        ensures WasChecked(ms, ops, i, p)
      {
        StillChecked(ms, ops, i - 1, p);
      }
      if ops[i - 1].Check? {
        CheckOutcome(ms[i - 1], ops[i - 1]);
        if ms[i] != ms[i - 1] {
          JustChecked(ms, ops, i, ms[i].starting[ops[i - 1].t]);
        }
      }
    }
  }

  lemma StillChecked(ms: seq<Machine>, ops: seq<Op>, i: nat, p: Passed)
    requires Run(ms, ops) && i < |ops| && WasChecked(ms, ops, i, p)
    ensures WasChecked(ms, ops, i + 1, p)
  {
    hide Run, CheckedAt;
  }

  lemma JustChecked(ms: seq<Machine>, ops: seq<Op>, i: nat, p: Passed)
    requires Run(ms, ops) && 0 < i <= |ops| && CheckedAt(ms, ops, i - 1, p)
    ensures WasChecked(ms, ops, i, p)
  {
    hide Run, CheckedAt;
  }

  /** Over every interleaving: every session under a grant was let in by an earlier check for its
      user, asset and protocol, and before that check somebody had approved the grant while it was
      pending and had not expired. */
  lemma SessionsWereApproved(ms: seq<Machine>, ops: seq<Op>, i: nat, id: ID)
    requires Run(ms, ops) && ms[0] == START && i <= |ops| && id in ms[i].under
    ensures exists k: nat, c: nat ::
      k < c < i && Approves(ms, ops, k, ms[i].under[id].grant) && CheckedAt(ms, ops, c, ms[i].under[id])
  {
    hide Legal, Next, TrimSpace;
    StartsWereChecked(ms, ops, i);
    var p := ms[i].under[id];
    var c: nat :| c < i && CheckedAt(ms, ops, c, p);
    GrantsAreDecidedExactly(ms, ops, c, p.grant);
    var k: nat :| k < c && Approves(ms, ops, k, p.grant);
  }

  // ---- Termination of sessions ----

  /** Step `k` terminates the session. */
  ghost predicate Terminates(ms: seq<Machine>, ops: seq<Op>, k: nat, id: ID)
    requires Run(ms, ops) && k < |ops|
  {
    ops[k].Terminate? && ops[k].session == id && id in ms[k].s.sessions && ms[k].s.sessions[id].status == Active
  }

  ghost predicate WasTerminated(ms: seq<Machine>, ops: seq<Op>, i: nat, id: ID)
    requires Run(ms, ops) && i <= |ops|
  {
    exists k: nat :: k < i && Terminates(ms, ops, k, id)
  }

  lemma TerminatedNext(ms: seq<Machine>, ops: seq<Op>, i: nat, id: ID)
    requires Run(ms, ops) && i < |ops|
    ensures WasTerminated(ms, ops, i + 1, id) <==> WasTerminated(ms, ops, i, id) || Terminates(ms, ops, i, id)
  {
    hide Run, Terminates;
    if k: nat :| k < i && Terminates(ms, ops, k, id) {
      assert k < i + 1;
    }
  }

  lemma StepTerminates(m: Machine, op: Op, id: ID)
    requires Legal(m, op) && id in m.s.sessions
    ensures id in Next(m, op).s.sessions
    ensures var x, y := m.s.sessions[id], Next(m, op).s.sessions[id];
      if op.Terminate? && op.session == id && x.status == Active
      then y == x.(status := Terminated, terminatedAt := Some(op.now), terminateReason := TrimSpace(op.reason))
      else y == x
  {
    hide TrimSpace, TargetOf, GrantCheck, RequestOutcome;
  }

  lemma StepStarts(m: Machine, op: Op, id: ID)
    requires Legal(m, op) && id !in m.s.sessions && id in Next(m, op).s.sessions
    ensures Next(m, op).s.sessions[id].status == Active && (op.Insert? || op.StartFree?) && op.newID == id
    ensures Next(m, op).s.sessions[id].createdAt == op.now
  {
    hide TrimSpace, TargetOf, GrantCheck, RequestOutcome;
  }

  /** A start without a grant stores an active session on its trimmed fields exactly if they are
      filled in and the protocol is known; one under a grant stores what was checked. */
  lemma StartOutcome(m: Machine, op: Op)
    requires Legal(m, op)
    ensures op.StartFree? ==>
      var n, user, asset := Next(m, op), TrimSpace(op.user), TrimSpace(op.asset);
      var protocol := LowerTrim(op.protocol);
      if user != "" && asset != "" && protocol in {"ssh", "rdp", "http"} then
        n == m.(s := m.s.(sessions := m.s.sessions[op.newID :=
          Session(op.newID, user, asset, protocol, Active, op.now, None, "")]))
      else n == m
    ensures op.Insert? ==>
      var n, p := Next(m, op), m.starting[op.t];
      && n.s.grants == m.s.grants && n.starting == m.starting - {op.t} && n.under == m.under[op.newID := p]
      && n.s.sessions == m.s.sessions[op.newID :=
        Session(op.newID, p.target.userID, p.target.assetID, p.target.protocol, Active, op.now, None, "")]
  {
    hide TrimSpace, ToLower;
  }

  /** Over every interleaving a session is terminated if and only if some step terminated it. */
  lemma {:induction false} SessionsEndExactly(ms: seq<Machine>, ops: seq<Op>, i: nat, id: ID)
    requires Run(ms, ops) && ms[0] == START && i <= |ops| && id in ms[i].s.sessions
    ensures ms[i].s.sessions[id].status == Terminated <==> WasTerminated(ms, ops, i, id)
  {
    hide Legal, Next, WasTerminated;
    TerminatedNext(ms, ops, i - 1, id);
    assert Legal(ms[i - 1], ops[i - 1]) && ms[i] == Next(ms[i - 1], ops[i - 1]);
    if id in ms[i - 1].s.sessions {
      SessionsEndExactly(ms, ops, i - 1, id);
      StepTerminates(ms[i - 1], ops[i - 1], id);
    } else {
      StepStarts(ms[i - 1], ops[i - 1], id);
      NotYetStarted(ms, ops, i - 1, id);
    }
  }

  lemma NotYetStarted(ms: seq<Machine>, ops: seq<Op>, i: nat, id: ID)
    requires Run(ms, ops) && ms[0] == START && i <= |ops| && id !in ms[i].s.sessions
    ensures !WasTerminated(ms, ops, i, id)
  {
    hide Legal, Next;
    forall k: nat | k <= i
      ensures id !in ms[k].s.sessions
    {
      RunsAreOnward(ms, ops, k, i);
    }
  }

  // ---- What a check is worth by the time of the insertion ----

  /** The grant still stands approved, for this user, asset and protocol up to case, and had
      not expired when it was checked. */
  ghost predicate Backed(s: State, p: Passed) {
    GrantCheck(s, p.grant, p.target, p.checkedAt).Ok?
  }

  /** The session is for what was checked, and was created no earlier than the check. */
  ghost predicate Fits(x: Session, p: Passed) {
    x.userID == p.target.userID && x.assetID == p.target.assetID && x.protocol == p.target.protocol
    && p.checkedAt <= x.createdAt
  }

  ghost predicate Inv(m: Machine) {
    && (forall t :: t in m.starting ==> Backed(m.s, m.starting[t]))
    && (forall id :: id in m.under ==>
      id in m.s.sessions && Backed(m.s, m.under[id]) && Fits(m.s.sessions[id], m.under[id]))
  }

  lemma BackedStays(m: Machine, n: Machine, p: Passed)
    requires Onward(m, n) && Backed(m.s, p)
    ensures Backed(n.s, p)
  {
  }

  lemma BackedAllStay(m: Machine, op: Op)
    requires Legal(m, op)
    ensures forall p :: Backed(m.s, p) ==> Backed(Next(m, op).s, p)
  {
    hide Legal, Next, Backed;
    StepIsOnward(m, op);
    forall p | Backed(m.s, p)
      ensures Backed(Next(m, op).s, p)
    {
      BackedStays(m, Next(m, op), p);
    }
  }

  /** A start enters `starting` only when its grant backs it. */
  lemma NewStartsAreBacked(m: Machine, op: Op, t: ThreadID)
    requires Legal(m, op) && t in Next(m, op).starting
    ensures t !in m.starting || Next(m, op).starting[t] != m.starting[t] ==> Backed(m.s, Next(m, op).starting[t])
  {
  }

  lemma NewSessionsFit(m: Machine, op: Op, id: ID)
    requires Legal(m, op) && id in Next(m, op).under
    ensures var n := Next(m, op);
      id !in m.under || n.under[id] != m.under[id] ==>
        id in n.s.sessions && Fits(n.s.sessions[id], n.under[id])
        && exists t :: t in m.starting && n.under[id] == m.starting[t]
  {
  }

  lemma StepKeepsInv(m: Machine, op: Op)
    requires Inv(m) && Legal(m, op)
    ensures Inv(Next(m, op))
  {
    hide Legal, Next, Backed;
    var n := Next(m, op);
    StepIsOnward(m, op);
    BackedAllStay(m, op);
    forall t | t in n.starting
      ensures Backed(n.s, n.starting[t])
    {
      NewStartsAreBacked(m, op, t);
    }
    forall id | id in n.under
      ensures id in n.s.sessions && Backed(n.s, n.under[id]) && Fits(n.s.sessions[id], n.under[id])
    {
      NewSessionsFit(m, op, id);
    }
  }

  lemma {:induction false} AlwaysInv(ms: seq<Machine>, ops: seq<Op>, i: nat)
    requires Run(ms, ops) && ms[0] == START && i <= |ops|
    ensures Inv(ms[i])
  {
    hide Legal, Next;
    if i > 0 {
      AlwaysInv(ms, ops, i - 1);
      StepKeepsInv(ms[i - 1], ops[i - 1]);
    }
  }

  /** Whatever happens between the check and the insertion: every session started under a
      grant is for the grant's user, asset and protocol up to case, the grant is still
      approved, and it had not expired at the check, which preceded the session. */
  lemma GrantsBackTheirSessions(ms: seq<Machine>, ops: seq<Op>, i: nat, id: ID)
    requires Run(ms, ops) && ms[0] == START && i <= |ops| && id in ms[i].under
    ensures var p := ms[i].under[id];
      && id in ms[i].s.sessions && p.grant in ms[i].s.grants
      && var g, x := ms[i].s.grants[p.grant], ms[i].s.sessions[id];
      && g.status == Approved
      && EqualFold(g.userID, x.userID) && EqualFold(g.assetID, x.assetID) && EqualFold(g.protocol, x.protocol)
      && p.checkedAt <= g.expiresAt && p.checkedAt <= x.createdAt
  {
    hide Legal, Next, EqualFold;
    AlwaysInv(ms, ops, i);
    assert Backed(ms[i].s, ms[i].under[id]) && Fits(ms[i].s.sessions[id], ms[i].under[id]);
  }

  // ---- Sessions that start after their grant expired ----

  /** Every start is inserted at most `d` after its check. */
  ghost predicate Prompt(ms: seq<Machine>, ops: seq<Op>, d: int)
    requires Run(ms, ops)
  {
    forall k :: 0 <= k < |ops| && ops[k].Insert? ==> ops[k].now <= ms[k].starting[ops[k].t].checkedAt + d
  }

  ghost predicate StartedWithin(m: Machine, d: int) {
    forall id :: id in m.under ==> id in m.s.sessions && m.s.sessions[id].createdAt <= m.under[id].checkedAt + d
  }

  lemma StepStartsWithin(m: Machine, op: Op, d: int)
    requires Legal(m, op) && StartedWithin(m, d)
    requires op.Insert? ==> op.now <= m.starting[op.t].checkedAt + d
    ensures StartedWithin(Next(m, op), d)
  {
    hide TrimSpace, TargetOf, GrantCheck, RequestOutcome;
  }

  lemma {:induction false} PromptRunsStartWithin(ms: seq<Machine>, ops: seq<Op>, d: int, i: nat)
    requires Run(ms, ops) && ms[0] == START && Prompt(ms, ops, d) && i <= |ops|
    ensures StartedWithin(ms[i], d)
  {
    hide Legal, Next;
    if i > 0 {
      PromptRunsStartWithin(ms, ops, d, i - 1);
      StepStartsWithin(ms[i - 1], ops[i - 1], d);
    }
  }

  /** The session was let in by a check at `checkedAt` under a grant that expires at `expiry`. */
  ghost predicate CheckedUnder(m: Machine, id: ID, checkedAt: Time, expiry: Time) {
    && id in m.under && id in m.s.sessions && m.under[id].checkedAt == checkedAt
    && m.under[id].grant in m.s.grants && m.s.grants[m.under[id].grant].expiresAt == expiry
  }

  /** No run whose starts take at most `d` creates such a session after the expiry. */
  ghost predicate NeverLate(checkedAt: Time, expiry: Time, d: nat) {
    forall ms: seq<Machine>, ops: seq<Op>, id: ID ::
      Run(ms, ops) && ms[0] == START && Prompt(ms, ops, d) && CheckedUnder(ms[|ops|], id, checkedAt, expiry) ==>
        ms[|ops|].s.sessions[id].createdAt <= expiry
  }

  /** Some run creates a session late: for any user, asset and protocol, any expiry, any check
      before it and any delay. The grant is asked for a day before it expires. */
  lemma SessionsCanStartAfterExpiry(user: string, asset: string, protocol: string, checkedAt: Time, expiry: Time,
                                    d: nat)
    returns (ms: seq<Machine>, ops: seq<Op>)
    requires Clean(user) && Clean(asset) && Clean(protocol) && LowerTrim(protocol) == protocol && protocol in PROTOCOLS
    requires checkedAt <= expiry
    ensures Run(ms, ops) && ms[0] == START && Prompt(ms, ops, d)
    ensures CheckedUnder(ms[|ops|], 0, checkedAt, expiry)
    ensures ms[|ops|].s.sessions[0].createdAt == checkedAt + d
  {
    hide TrimSpace, Trimmed, ToLower;
    var asked := expiry - 86400 * SECOND;
    ops := [RequestGrant(user, asset, protocol, user, 86400, 0, asked), Approve(0, user, asked, asked),
            Check(0, user, asset, protocol, 0, checkedAt), Insert(0, 0, checkedAt + d)];
    assert TargetOf(user, asset, protocol) == Ok(Target(user, asset, protocol));
    hide TargetOf;
    var g := Grant(0, user, asset, protocol, user, Pending, 86400, asked, expiry, None, "", "");
    var m1 := Next(START, ops[0]);
    assert m1 == Machine(State(map[0 := g], map[]), map[], map[]);
    var h := g.(status := Approved, approvedAt := Some(asked), approverID := user);
    var m2 := Next(m1, ops[1]);
    assert m2 == Machine(State(map[0 := h], map[]), map[], map[]);
    var p := Passed(Target(user, asset, protocol), 0, checkedAt);
    var m3 := Next(m2, ops[2]);
    assert m3 == Machine(State(map[0 := h], map[]), map[0 := p], map[]);
    var m4 := Next(m3, ops[3]);
    assert m4.under == map[0 := p];
    ms := [START, m1, m2, m3, m4];
  }

  /** If starts take at most `d`, then a session checked at one time, under a grant that expires
      at another, is never created after the expiry if and only if the check came at least `d`
      before it, or too late to pass at all. The clocks of different threads are not ordered. */
  lemma NeverLateExactly(checkedAt: Time, expiry: Time, d: nat)
    ensures NeverLate(checkedAt, expiry, d) <==> checkedAt + d <= expiry || checkedAt > expiry
  {
    hide Legal, Next, Prompt, EqualFold;
    if checkedAt + d <= expiry || checkedAt > expiry {
      forall ms: seq<Machine>, ops: seq<Op>, id: ID | Run(ms, ops) && ms[0] == START && Prompt(ms, ops, d)
        && CheckedUnder(ms[|ops|], id, checkedAt, expiry)
        ensures ms[|ops|].s.sessions[id].createdAt <= expiry
      {
        PromptRunsStartWithin(ms, ops, d, |ops|);
        GrantsBackTheirSessions(ms, ops, |ops|, id);
      }
    } else {
      assert LowerTrim("ssh") == "ssh";
      var ms, ops := SessionsCanStartAfterExpiry("u", "a", "ssh", checkedAt, expiry, d);
      assert CheckedUnder(ms[|ops|], 0, checkedAt, expiry);
    }
  }
}
