/** How many leases of one rotation policy can be unexpired at the same time, when the
    policy is rotated only by sweeps that do not overlap on it. */
module LiveLeases {
  import opened Wrappers
  import opened Text
  import opened Lists
  import opened Vault
  import opened RotationRuns

  ghost predicate Busy(m: Machine, t: ThreadID, p: ID) {
    t in m.threads && p in m.threads[t].work
  }

  /** No manual rotation of `p`, and no sweep takes `p` up while another still has it. */
  ghost predicate SweptAlone(ms: seq<Machine>, ops: seq<Op>, p: ID)
    requires Run(ms, ops)
  {
    forall i :: 0 <= i < |ops| ==> AloneStep(ms[i], ops[i], p)
  }

  ghost predicate AloneStep(m: Machine, op: Op, p: ID) {
    && (op.StartTrigger? ==> op.policyID != p)
    && (op.StartSweep? && p in op.due ==> forall t :: !Busy(m, t, p))
  }

  /** The leases that rotations of `p` issued and that are unexpired at `x`. */
  function LiveAt(m: Machine, p: ID, x: Time): set<ID> {
    set id | id in m.s.leases && id in Log(m, p) && m.s.leases[id].issuedAt <= x <= m.s.leases[id].expiresAt
  }

  // ---- The invariant of a policy swept alone ----

  /** The thread has issued a lease for `p` and not yet written the policy back. */
  ghost predicate Finishing(m: Machine, t: ThreadID, p: ID) {
    t in m.threads && m.threads[t].work != [] && m.threads[t].work[0] == p && m.threads[t].phase.Issued?
  }

  ghost predicate Logged(m: Machine, p: ID) {
    forall j :: 0 <= j < |Log(m, p)| ==> Log(m, p)[j] in m.s.leases
  }

  function IssuedAt(m: Machine, p: ID, j: nat): Time
    requires j < |Log(m, p)| && Log(m, p)[j] in m.s.leases
  {
    m.s.leases[Log(m, p)[j]].issuedAt
  }

  /** Consecutive leases are issued more than one interval apart, and each lives for its
      time to live. */
  ghost predicate Spaced(m: Machine, p: ID)
    requires p in m.s.policies && Logged(m, p)
  {
    var q := m.s.policies[p];
    && (forall j :: 0 <= j < |Log(m, p)| - 1 ==> IssuedAt(m, p, j) + Seconds(q.intervalSeconds) < IssuedAt(m, p, j + 1))
    && (forall j :: 0 <= j < |Log(m, p)| ==>
      m.s.leases[Log(m, p)[j]].expiresAt == IssuedAt(m, p, j) + q.ttlSeconds * SECOND)
  }

  ghost predicate OneWorker(m: Machine, p: ID) {
    && (forall t, u :: Busy(m, t, p) && Busy(m, u, p) ==> t == u)
    && (forall t :: Busy(m, t, p) ==> forall i, j :: 0 <= i < j < |m.threads[t].work| && m.threads[t].work[i] == p ==>
      m.threads[t].work[j] != p)
  }

  /** Unless a rotation is being finished, the policy is not due before one interval has
      passed since the last lease; a thread that has yet to issue read a later clock. */
  ghost predicate Paced(m: Machine, p: ID)
    requires p in m.s.policies && Logged(m, p)
  {
    var q, n := m.s.policies[p], |Log(m, p)|;
    && ((forall t :: !Finishing(m, t, p)) && n > 0 ==>
      q.nextRotationAt >= IssuedAt(m, p, n - 1) + Seconds(q.intervalSeconds))
    && (forall t :: Busy(m, t, p) && !Finishing(m, t, p) ==> m.threads[t].seen > q.nextRotationAt)
    && (forall t :: Finishing(m, t, p) ==> n > 0 && m.threads[t].seen >= IssuedAt(m, p, n - 1))
  }

  ghost predicate Tracked(m: Machine, p: ID) {
    if p in m.s.policies then Logged(m, p) && Spaced(m, p) && OneWorker(m, p) && Paced(m, p)
    else Log(m, p) == [] && forall t :: !Busy(m, t, p)
  }

  // ---- Steps that do not concern `p` ----

  ghost predicate TimesKept(m: Machine, n: Machine) {
    forall id :: id in m.s.leases ==>
      && id in n.s.leases
      && n.s.leases[id].issuedAt == m.s.leases[id].issuedAt
      && n.s.leases[id].expiresAt == m.s.leases[id].expiresAt
  }

  ghost predicate SameThreadsFor(m: Machine, n: Machine, p: ID) {
    forall t :: (Busy(m, t, p) <==> Busy(n, t, p)) && (Busy(n, t, p) ==> n.threads[t] == m.threads[t])
  }

  lemma UnconcernedKeepsTracked(m: Machine, n: Machine, p: ID)
    requires Tracked(m, p)
    requires (p in m.s.policies <==> p in n.s.policies) && (p in m.s.policies ==> n.s.policies[p] == m.s.policies[p])
    requires Log(n, p) == Log(m, p) && TimesKept(m, n) && SameThreadsFor(m, n, p)
    ensures Tracked(n, p)
  {
    assert forall t :: Finishing(m, t, p) ==> Busy(m, t, p);
    assert forall t :: Finishing(n, t, p) ==> Busy(n, t, p);
    assert forall t :: Finishing(m, t, p) <==> Finishing(n, t, p);
  }

  /** One thread moved on without changing its part in `p`. */
  lemma OtherThreadMoves(m: Machine, n: Machine, t: ThreadID, p: ID)
    requires Tracked(m, p)
    requires t in n.threads && n.threads == m.threads[t := n.threads[t]]
    requires !Busy(m, t, p) && !Busy(n, t, p)
    requires (p in m.s.policies <==> p in n.s.policies) && (p in m.s.policies ==> n.s.policies[p] == m.s.policies[p])
    requires Log(n, p) == Log(m, p) && TimesKept(m, n)
    ensures Tracked(n, p)
  {
    hide Tracked, TimesKept;
    UnconcernedKeepsTracked(m, n, p);
  }

  /** The thread that has `p` on its list moves on, but neither from nor into a rotation
      of `p` that has issued its lease. */
  lemma WorkerMoves(m: Machine, n: Machine, t: ThreadID, p: ID)
    requires Tracked(m, p) && p in m.s.policies
    requires Busy(m, t, p) && Busy(n, t, p) && !Finishing(m, t, p) && !Finishing(n, t, p)
    requires n.threads == m.threads[t := n.threads[t]]
    requires n.threads[t].seen >= m.threads[t].seen
    requires n.threads[t].work == m.threads[t].work || n.threads[t].work == m.threads[t].work[1..]
    requires p in n.s.policies && n.s.policies[p] == m.s.policies[p]
    requires Log(n, p) == Log(m, p) && TimesKept(m, n)
    ensures Tracked(n, p)
  {
    assert forall u :: Busy(n, u, p) <==> Busy(m, u, p);
    assert forall u :: Finishing(n, u, p) <==> Finishing(m, u, p);
    assert OneWorker(n, p);
  }

  /** A thread takes up `p`, which no other has: it has read a clock past the due time. */
  lemma WorkerStarts(m: Machine, n: Machine, t: ThreadID, p: ID)
    requires Tracked(m, p) && p in m.s.policies && n.s == m.s && n.log == m.log
    requires forall u :: !Busy(m, u, p)
    requires t !in m.threads && t in n.threads && n.threads == m.threads[t := n.threads[t]]
    requires n.threads[t].phase.Waiting? && n.threads[t].seen > m.s.policies[p].nextRotationAt
    requires forall i, j :: 0 <= i < j < |n.threads[t].work| ==> n.threads[t].work[i] != n.threads[t].work[j]
    ensures Tracked(n, p)
  {
    forall u | Busy(n, u, p)
      ensures u == t
    {
      assert !Busy(m, u, p);
    }
    assert forall u :: Finishing(n, u, p) ==> Busy(n, u, p);
    assert forall u :: Finishing(m, u, p) ==> Busy(m, u, p);
  }

  /** The worker gives `p` up before issuing. */
  lemma WorkerSkips(m: Machine, n: Machine, t: ThreadID, p: ID)
    requires Tracked(m, p) && p in m.s.policies && n.s == m.s && n.log == m.log
    requires Busy(m, t, p) && !Finishing(m, t, p) && m.threads[t].work[0] == p
    requires n.threads == m.threads[t := Skip(m.threads[t])]
    ensures Tracked(n, p)
  {
    assert p !in m.threads[t].work[1..];
    assert forall u :: Busy(n, u, p) <==> Busy(m, u, p) && u != t;
    assert forall u :: Finishing(n, u, p) <==> Finishing(m, u, p);
  }

  /** One more lease at the end of the log keeps it spaced. */
  lemma OneMoreSpaced(m: Machine, n: Machine, l: Lease, p: ID)
    requires p in m.s.policies && Logged(m, p) && Spaced(m, p) && l.id !in m.s.leases
    requires n.s == m.s.(leases := m.s.leases[l.id := l]) && Log(n, p) == Log(m, p) + [l.id]
    requires l.expiresAt == l.issuedAt + m.s.policies[p].ttlSeconds * SECOND
    requires var k := |Log(m, p)|;
      k > 0 ==> IssuedAt(m, p, k - 1) + Seconds(m.s.policies[p].intervalSeconds) < l.issuedAt
    ensures Logged(n, p) && Spaced(n, p) && IssuedAt(n, p, |Log(m, p)|) == l.issuedAt
  {
    hide Seconds;
    var k := |Log(m, p)|;
    assert forall j :: 0 <= j < k ==> Log(n, p)[j] == Log(m, p)[j] && IssuedAt(n, p, j) == IssuedAt(m, p, j);
  }

  /** The worker issues the lease: more than one interval after the previous one. */
  lemma WorkerIssues(m: Machine, n: Machine, t: ThreadID, l: Lease, p: ID)
    requires Tracked(m, p) && p in m.s.policies && l.id !in m.s.leases
    requires Busy(m, t, p) && m.threads[t].work[0] == p && !m.threads[t].phase.Issued?
    requires l.issuedAt >= m.threads[t].seen && l.expiresAt == l.issuedAt + m.s.policies[p].ttlSeconds * SECOND
    requires n.s == m.s.(leases := m.s.leases[l.id := l]) && Log(n, p) == Log(m, p) + [l.id]
    requires t in n.threads && n.threads == m.threads[t := n.threads[t]]
    requires n.threads[t].work == m.threads[t].work && n.threads[t].phase.Issued? && n.threads[t].seen == l.issuedAt
    ensures Tracked(n, p)
  {
    hide Seconds, Spaced;
    assert forall u :: Finishing(m, u, p) ==> Busy(m, u, p);
    OneMoreSpaced(m, n, l, p);
    assert forall u :: Busy(n, u, p) <==> Busy(m, u, p);
    assert Finishing(n, t, p);
  }

  /** What the worker issues: the copy it holds is of the policy as it stands. */
  lemma IssuedLease(m: Machine, op: Op) returns (l: Lease)
    requires Safe(m) && Legal(m, op) && op.Issue?
    ensures var x, n := m.threads[op.t], Next(m, op);
      && x.work[0] in m.s.policies
      && l.id == op.leaseID && l.issuedAt == op.now
      && l.expiresAt == op.now + m.s.policies[x.work[0]].ttlSeconds * SECOND
      && n == Machine(m.s.(leases := m.s.leases[op.leaseID := l]),
                      m.threads[op.t := Thread(x.work, Issued(x.phase.copy), op.now)],
                      m.log[x.work[0] := Log(m, x.work[0]) + [op.leaseID]])
  {
    hide Inv, Sound, SupportedTarget, IssueOutcome;
    var x := m.threads[op.t];
    assert CopyFits(m, op.t);
    SoundIsIssuable(x.work[0], x.phase.copy);
    RotationIsIssuable(x.phase.copy, op.leaseID, op.now);
    l := IssueOutcome(RequestOf(x.phase.copy), op.leaseID, op.now).value;
  }

  lemma SoundIsIssuable(id: ID, p: RotationPolicy)
    requires Sound(id, p)
    ensures Issuable(p)
  {
  }

  /** The worker writes the policy back: it is now due one interval after a later reading. */
  lemma WorkerWritesBack(m: Machine, n: Machine, t: ThreadID, q: RotationPolicy, p: ID)
    requires Tracked(m, p) && p in m.s.policies && Finishing(m, t, p) && Busy(m, t, p)
    requires n.s.leases == m.s.leases && n.log == m.log && n.s.policies == m.s.policies[p := q]
    requires t in n.threads && n.threads == m.threads[t := n.threads[t]] && n.threads[t].work == m.threads[t].work[1..]
    requires q.intervalSeconds == m.s.policies[p].intervalSeconds && q.ttlSeconds == m.s.policies[p].ttlSeconds
    requires q.nextRotationAt >= m.threads[t].seen + Seconds(q.intervalSeconds)
    ensures Tracked(n, p)
  {
    hide Seconds;
    NobodyLeft(m, n, t, p);
    hide Busy, OneWorker;
    assert forall j :: 0 <= j < |Log(m, p)| ==> IssuedAt(n, p, j) == IssuedAt(m, p, j);
  }

  /** The only worker has struck `p` off its list. */
  lemma NobodyLeft(m: Machine, n: Machine, t: ThreadID, p: ID)
    requires OneWorker(m, p) && Finishing(m, t, p) && Busy(m, t, p)
    requires t in n.threads && n.threads == m.threads[t := n.threads[t]] && n.threads[t].work == m.threads[t].work[1..]
    ensures forall u :: !Busy(n, u, p) && !Finishing(n, u, p)
    ensures OneWorker(n, p)
  {
    assert p !in m.threads[t].work[1..];
    forall u
      ensures !Busy(n, u, p) && !Finishing(n, u, p)
    {
      assert Busy(m, u, p) ==> u == t;
    }
  }

  lemma PolicyAppears(m: Machine, n: Machine, p: ID)
    requires p !in m.s.policies && Log(m, p) == [] && (forall t :: !Busy(m, t, p))
    requires p in n.s.policies && n.threads == m.threads && n.log == m.log
    ensures Tracked(n, p)
  {
    forall t
      ensures !Busy(n, t, p)
    {
      assert !Busy(m, t, p);
    }
    assert forall t :: Finishing(n, t, p) ==> Busy(n, t, p);
  }

  lemma StartKeepsTracked(m: Machine, op: Op, p: ID)
    requires Tracked(m, p) && Legal(m, op) && AloneStep(m, op, p)
    requires op.StartTrigger? || op.StartSweep?
    ensures Tracked(Next(m, op), p)
  {
    hide Tracked;
    var n := Next(m, op);
    if op.StartSweep? && p in op.due {
      WorkerStarts(m, n, op.t, p);
    } else {
      OtherThreadMoves(m, n, op.t, p);
    }
  }

  lemma CopyKeepsTracked(m: Machine, op: Op, p: ID)
    requires Tracked(m, p) && Legal(m, op) && op.Copy?
    ensures Tracked(Next(m, op), p)
  {
    var n := Next(m, op);
    var t := op.t;
    var x := m.threads[t];
    assert p in x.work <==> x.work[0] == p || p in x.work[1..];
    assert Busy(m, t, p) ==> p in m.s.policies;
    hide Tracked;
    if !Busy(m, t, p) {
      OtherThreadMoves(m, n, t, p);
    } else if x.work[0] == p && n.threads[t] == Skip(x) {
      WorkerSkips(m, n, t, p);
    } else {
      WorkerMoves(m, n, t, p);
    }
  }

  lemma NewLeaseKeepsTimes(m: Machine, n: Machine, l: Lease)
    requires l.id !in m.s.leases && n.s.leases == m.s.leases[l.id := l]
    ensures TimesKept(m, n)
  {
  }

  lemma IssueKeepsTracked(m: Machine, op: Op, p: ID)
    requires Safe(m) && Tracked(m, p) && Legal(m, op) && op.Issue?
    ensures Tracked(Next(m, op), p)
  {
    hide Tracked, Safe, Next;
    var l := IssuedLease(m, op);
    LogAfterIssue(m, Next(m, op), op.t, l, p);
  }

  /** The lease concerns `p` only if `p` is what the thread is rotating. */
  lemma LogAfterIssue(m: Machine, n: Machine, t: ThreadID, l: Lease, p: ID)
    requires Tracked(m, p) && l.id !in m.s.leases
    requires t in m.threads && m.threads[t].work != [] && m.threads[t].phase.Copied? && l.issuedAt >= m.threads[t].seen
    requires m.threads[t].work[0] in m.s.policies
    requires l.expiresAt == l.issuedAt + m.s.policies[m.threads[t].work[0]].ttlSeconds * SECOND
    requires n == Machine(m.s.(leases := m.s.leases[l.id := l]),
                          m.threads[t := Thread(m.threads[t].work, Issued(m.threads[t].phase.copy), l.issuedAt)],
                          m.log[m.threads[t].work[0] := Log(m, m.threads[t].work[0]) + [l.id]])
    ensures Tracked(n, p)
  {
    var x := m.threads[t];
    assert p in x.work <==> x.work[0] == p || p in x.work[1..];
    assert Busy(m, t, p) ==> p in m.s.policies;
    NewLeaseKeepsTimes(m, n, l);
    hide Tracked, TimesKept;
    if !Busy(m, t, p) {
      OtherThreadMoves(m, n, t, p);
    } else if x.work[0] == p {
      WorkerIssues(m, n, t, l, p);
    } else {
      WorkerMoves(m, n, t, p);
    }
  }

  lemma WriteBackKeepsTracked(m: Machine, op: Op, p: ID)
    requires Safe(m) && Tracked(m, p) && Legal(m, op) && op.WriteBack?
    ensures Tracked(Next(m, op), p)
  {
    hide Inv, Sound;
    var n := Next(m, op);
    var t := op.t;
    var x := m.threads[t];
    assert CopyFits(m, t);
    assert p in x.work <==> x.work[0] == p || p in x.work[1..];
    assert Busy(m, t, p) ==> p in m.s.policies;
    hide Tracked, CopyFits;
    if !Busy(m, t, p) {
      OtherThreadMoves(m, n, t, p);
    } else if x.work[0] == p {
      WorkerWritesBack(m, n, t, Rotated(x.phase.copy, op.now), p);
    } else {
      WorkerMoves(m, n, t, p);
    }
  }

  lemma LeaseOpsKeepTracked(m: Machine, op: Op, p: ID)
    requires Tracked(m, p) && Legal(m, op)
    requires op.IssueLease? || op.RevokeLease? || op.RevokeTarget?
    ensures Tracked(Next(m, op), p)
  {
    hide Tracked, IssueOutcome;
    UnconcernedKeepsTracked(m, Next(m, op), p);
  }

  lemma CreateKeepsTracked(m: Machine, op: Op, p: ID)
    requires Tracked(m, p) && Legal(m, op) && op.CreatePolicy?
    ensures Tracked(Next(m, op), p)
  {
    hide Tracked, CreateOutcome;
    if op.policyID == p && Next(m, op) != m {
      NotYetTracked(m, p);
      PolicyAppears(m, Next(m, op), p);
    } else {
      UnconcernedKeepsTracked(m, Next(m, op), p);
    }
  }

  lemma StepKeepsTracked(m: Machine, op: Op, p: ID)
    requires Safe(m) && Tracked(m, p) && Legal(m, op) && AloneStep(m, op, p)
    ensures Tracked(Next(m, op), p)
  {
    hide Safe, Tracked, AloneStep, Legal, Next;
    match op
    case CreatePolicy(_, _, _) => CreateKeepsTracked(m, op, p);
    case IssueLease(_, _, _) => LeaseOpsKeepTracked(m, op, p);
    case RevokeLease(_, _, _) => LeaseOpsKeepTracked(m, op, p);
    case RevokeTarget(_, _, _) => LeaseOpsKeepTracked(m, op, p);
    case StartTrigger(_, _, _) => StartKeepsTracked(m, op, p);
    case StartSweep(_, _, _, _) => StartKeepsTracked(m, op, p);
    case Copy(_) => CopyKeepsTracked(m, op, p);
    case Issue(_, _, _) => IssueKeepsTracked(m, op, p);
    case WriteBack(_, _) => WriteBackKeepsTracked(m, op, p);
  }

  lemma NotYetTracked(m: Machine, p: ID)
    requires Tracked(m, p) && p !in m.s.policies
    ensures Log(m, p) == [] && forall t :: !Busy(m, t, p)
  {
  }

  lemma {:induction false} AlwaysTracked(ms: seq<Machine>, ops: seq<Op>, i: nat, p: ID)
    requires Run(ms, ops) && ms[0] == START && i <= |ops| && SweptAlone(ms, ops, p)
    ensures Tracked(ms[i], p)
  {
    hide Legal, Next, Tracked;
    if i == 0 {
      StartTracked(p);
    } else {
      AlwaysTracked(ms, ops, i - 1, p);
      AlwaysSafe(ms, ops, i - 1);
      StepKeepsTracked(ms[i - 1], ops[i - 1], p);
    }
  }

  lemma StartTracked(p: ID)
    ensures Tracked(START, p)
  {
  }

  // ---- Counting ----

  function CeilDiv(a: int, b: int): int
    requires b > 0
  {
    (a + b - 1) / b
  }

  lemma {:induction false} AtMostLength<T>(s: seq<T>)
    ensures |Members(s)| <= |s|
  {
    if s != [] {
      AtMostLength(s[1..]);
      assert Members(s) == Members(s[1..]) + {s[0]};
    }
  }

  /** Leases that are several places apart in the log are more than as many intervals apart. */
  lemma {:induction false} Spread(m: Machine, p: ID, a: nat, b: nat)
    requires p in m.s.policies && Logged(m, p) && Spaced(m, p) && a <= b < |Log(m, p)|
    ensures IssuedAt(m, p, b) - IssuedAt(m, p, a) >= (b - a) * (Seconds(m.s.policies[p].intervalSeconds) + 1)
  {
    if a < b {
      Spread(m, p, a, b - 1);
      var gap := Seconds(m.s.policies[p].intervalSeconds) + 1;
      assert (b - a) * gap == (b - 1 - a) * gap + gap;
    }
  }

  lemma QuotientBound(k: int, step: int, total: int)
    requires step > 0 && k * step < total
    ensures k + 1 <= CeilDiv(total, step)
  {
  }

  /** The unexpired leases of a spaced log lie between two places at most a time to live apart,
      and consecutive ones are more than the interval apart, so by at least one more tick. */
  lemma LiveAreFew(m: Machine, p: ID, x: Time)
    requires p in m.s.policies && Logged(m, p) && Spaced(m, p)
    requires Seconds(m.s.policies[p].intervalSeconds) >= 0 && m.s.policies[p].ttlSeconds > 0
    ensures var q := m.s.policies[p];
      (|LiveAt(m, p, x)| - 1) * (Seconds(q.intervalSeconds) + 1) <= q.ttlSeconds * SECOND
  {
    hide Seconds, Spaced;
    var gap, total := Seconds(m.s.policies[p].intervalSeconds) + 1, m.s.policies[p].ttlSeconds * SECOND;
    if LiveAt(m, p, x) == {} {
      Scale(-1, 0, gap);
    } else {
      var a, b := Ends(m, p, x);
      LiveWithin(m, p, x, a, b);
      LiveSpan(m, p, x, a, b);
      hide LiveAt, LiveIndex;
      Scale(|LiveAt(m, p, x)| - 1, b - a, gap);
    }
  }

  lemma LiveSpan(m: Machine, p: ID, x: Time, a: nat, b: nat)
    requires p in m.s.policies && Logged(m, p) && Spaced(m, p)
    requires LiveIndex(m, p, x, a) && LiveIndex(m, p, x, b) && a <= b
    ensures (b - a) * (Seconds(m.s.policies[p].intervalSeconds) + 1) <= m.s.policies[p].ttlSeconds * SECOND
  {
    hide Seconds;
    Spread(m, p, a, b);
  }

  lemma Scale(j: int, k: int, gap: int)
    requires j <= k && gap > 0
    ensures j * gap <= k * gap
  {
  }

  lemma FewInQuotient(count: nat, step: int, total: int)
    requires step > 0 && total > 0 && (count - 1) * (step + 1) <= total
    ensures count <= CeilDiv(total, step)
  {
    if count > 1 {
      assert (count - 1) * step < (count - 1) * (step + 1);
    } else {
      assert (count - 1) * step <= 0;
    }
    QuotientBound(count - 1, step, total);
  }

  lemma LiveWithin(m: Machine, p: ID, x: Time, a: nat, b: nat)
    requires Logged(m, p) && a <= b < |Log(m, p)|
    requires forall j: nat :: LiveIndex(m, p, x, j) ==> a <= j <= b
    ensures |LiveAt(m, p, x)| <= b - a + 1
  {
    var log := Log(m, p);
    var span := log[a..b + 1];
    forall id | id in LiveAt(m, p, x)
      ensures id in Members(span)
    {
      var j: nat :| j < |log| && log[j] == id;
      assert LiveIndex(m, p, x, j);
      assert span[j - a] == id;
    }
    SubsetSize(LiveAt(m, p, x), Members(span));
    AtMostLength(span);
  }

  lemma SubsetSize<T>(a: set<T>, b: set<T>)
    requires a <= b
    ensures |a| <= |b|
  {
    assert b == a + (b - a);
  }

  ghost predicate LiveIndex(m: Machine, p: ID, x: Time, j: nat)
    requires Logged(m, p)
  {
    j < |Log(m, p)| && Log(m, p)[j] in LiveAt(m, p, x)
  }

  /** The first and the last place in the log that hold an unexpired lease. */
  lemma Ends(m: Machine, p: ID, x: Time) returns (a: nat, b: nat)
    requires Logged(m, p) && LiveAt(m, p, x) != {}
    ensures LiveIndex(m, p, x, a) && LiveIndex(m, p, x, b) && a <= b
    ensures forall j: nat :: LiveIndex(m, p, x, j) ==> a <= j <= b
  {
    var id := Inhabited(LiveAt(m, p, x));
    var j: nat :| j < |Log(m, p)| && Log(m, p)[j] == id;
    a, b := j, j;
    for k := 0 to |Log(m, p)|
      invariant LiveIndex(m, p, x, a) && LiveIndex(m, p, x, b) && a <= b
      invariant forall i: nat :: i < k && LiveIndex(m, p, x, i) ==> a <= i <= b
    {
      if LiveIndex(m, p, x, k) {
        a, b := if k < a then k else a, if k > b then k else b;
      }
    }
  }

  lemma SpacedWhenAlone(ms: seq<Machine>, ops: seq<Op>, i: nat, p: ID)
    requires Run(ms, ops) && ms[0] == START && i <= |ops| && SweptAlone(ms, ops, p) && p in ms[i].s.policies
    ensures Logged(ms[i], p) && Spaced(ms[i], p) && ms[i].s.policies[p].ttlSeconds > 0
  {
    hide Legal, Next, AloneStep, Spaced, Logged, Paced, OneWorker, CopyFits;
    AlwaysTracked(ms, ops, i, p);
    AlwaysSafe(ms, ops, i);
    SoundIsIssuable(p, ms[i].s.policies[p]);
  }

  /** In a run where `p` is rotated only by sweeps that do not overlap on it, the leases that
      it issued and that are unexpired at any one instant number at most its time to live
      divided by its interval, rounded up. The interval is the duration the code computes; if
      that is zero, they are still at least one tick apart. */
  lemma LiveLeaseBound(ms: seq<Machine>, ops: seq<Op>, i: nat, p: ID, x: Time)
    requires Run(ms, ops) && ms[0] == START && i <= |ops| && SweptAlone(ms, ops, p) && p in ms[i].s.policies
    ensures var q := ms[i].s.policies[p];
      var step, total := Seconds(q.intervalSeconds), q.ttlSeconds * SECOND;
      && (step >= 0 ==> (|LiveAt(ms[i], p, x)| - 1) * (step + 1) <= total)
      && (step > 0 ==> |LiveAt(ms[i], p, x)| <= CeilDiv(total, step))
  {
    hide Legal, Next, AloneStep, LiveAt, Spaced, Logged, Seconds, CeilDiv;
    SpacedWhenAlone(ms, ops, i, p);
    var q := ms[i].s.policies[p];
    if Seconds(q.intervalSeconds) >= 0 {
      LiveAreFew(ms[i], p, x);
      if Seconds(q.intervalSeconds) > 0 {
        FewInQuotient(|LiveAt(ms[i], p, x)|, Seconds(q.intervalSeconds), q.ttlSeconds * SECOND);
      }
    }
  }

  // ---- The bound in seconds, and exactly when it holds ----

  /** The longest interval whose length in nanoseconds fits 64 signed bits. */
  const MAX_INTERVAL := 9_223_372_036

  lemma CeilDivScales(a: int, b: int, k: int)
    requires a > 0 && b > 0 && k > 0
    ensures b * k > 0 && CeilDiv(a * k, b * k) == CeilDiv(a, b)
  {
    var q := CeilDiv(a, b);
    assert (q - 1) * b < a <= q * b;
    assert b * k > 0;
    assert (q - 1) * (b * k) == ((q - 1) * b) * k < a * k;
    assert a * k <= (q * b) * k == q * (b * k);
    CeilDivUnique(a * k, b * k, q);
  }

  lemma CeilDivUnique(a: int, b: int, q: int)
    requires b > 0 && (q - 1) * b < a <= q * b
    ensures CeilDiv(a, b) == q
  {
    var r := a - (q - 1) * b - 1;
    assert a + b - 1 == q * b + r;
    QuotientUnique(q, b, r);
  }

  lemma QuotientUnique(q: int, b: int, r: int)
    requires 0 <= r < b
    ensures (q * b + r) / b == q
  {
    var d := (q * b + r) / b - q;
    assert -b < d * b < b;
    assert d >= 1 ==> d * b >= b;
    assert d <= -1 ==> d * b <= -b;
  }

  /** At point `i` of a run from the start, `p` has this interval and time to live, and the
      run sweeps it alone. */
  ghost predicate Observed(ms: seq<Machine>, ops: seq<Op>, i: nat, p: ID, intervalSeconds: int, ttlSeconds: int) {
    && Run(ms, ops) && ms[0] == START && i <= |ops| && SweptAlone(ms, ops, p)
    && p in ms[i].s.policies
    && ms[i].s.policies[p].intervalSeconds == intervalSeconds
    && ms[i].s.policies[p].ttlSeconds == ttlSeconds
  }

  /** In every such run, at every instant, the unexpired leases number at most the time to
      live divided by the interval, both in seconds, rounded up. */
  ghost predicate BoundedInSeconds(intervalSeconds: int, ttlSeconds: int)
    requires intervalSeconds > 0
  {
    forall ms: seq<Machine>, ops: seq<Op>, i: nat, p: ID, x: Time ::
      Observed(ms, ops, i, p, intervalSeconds, ttlSeconds) ==>
        |LiveAt(ms[i], p, x)| <= CeilDiv(ttlSeconds, intervalSeconds)
  }

  lemma BoundHolds(intervalSeconds: int, ttlSeconds: int)
    requires intervalSeconds >= 60 && 60 <= ttlSeconds <= 86400
    requires intervalSeconds <= MAX_INTERVAL || Seconds(intervalSeconds) >= ttlSeconds * SECOND
    ensures BoundedInSeconds(intervalSeconds, ttlSeconds)
  {
    var step, total := Seconds(intervalSeconds), ttlSeconds * SECOND;
    assert step > 0 && CeilDiv(total, step) == CeilDiv(ttlSeconds, intervalSeconds) by {
      if intervalSeconds <= MAX_INTERVAL {
        assert step == intervalSeconds * SECOND;
        CeilDivScales(ttlSeconds, intervalSeconds, SECOND);
      } else {
        CeilDivUnique(total, step, 1);
        CeilDivUnique(ttlSeconds, intervalSeconds, 1);
      }
    }
    hide Legal, Next, AloneStep, LiveAt, Seconds, CeilDiv;
    forall ms: seq<Machine>, ops: seq<Op>, i: nat, p: ID, x: Time |
      Observed(ms, ops, i, p, intervalSeconds, ttlSeconds)
      ensures |LiveAt(ms[i], p, x)| <= CeilDiv(ttlSeconds, intervalSeconds)
    {
      LiveLeaseBound(ms, ops, i, p, x);
    }
  }

  // ---- Runs with as many unexpired leases as the bound allows ----

  /** Every rotation is made by a sweep. */
  ghost predicate SweepsOnly(ops: seq<Op>) {
    forall k :: 0 <= k < |ops| ==> !ops[k].StartTrigger?
  }

  lemma RunsCompose(ms: seq<Machine>, ops: seq<Op>, ms': seq<Machine>, ops': seq<Op>, p: ID)
    requires Run(ms, ops) && Run(ms', ops') && ms[|ops|] == ms'[0]
    ensures Run(ms + ms'[1..], ops + ops')
    ensures SweptAlone(ms, ops, p) && SweptAlone(ms', ops', p) ==> SweptAlone(ms + ms'[1..], ops + ops', p)
    ensures SweepsOnly(ops) && SweepsOnly(ops') ==> SweepsOnly(ops + ops')
  {
    hide Legal, Next, AloneStep;
    var all, done := ms + ms'[1..], ops + ops';
    forall i | 0 <= i < |done|
      ensures Legal(all[i], done[i]) && all[i + 1] == Next(all[i], done[i])
      ensures all[i] == (if i < |ops| then ms[i] else ms'[i - |ops|])
    {
      if i >= |ops| {
        assert all[i] == ms'[i - |ops|] && all[i + 1] == ms'[i + 1 - |ops|] && done[i] == ops'[i - |ops|];
      }
    }
    if SweptAlone(ms, ops, p) && SweptAlone(ms', ops', p) {
      forall i | 0 <= i < |done|
        ensures AloneStep(all[i], done[i], p)
      {
        if i >= |ops| {
          assert AloneStep(ms'[i - |ops|], ops'[i - |ops|], p);
        }
      }
    }
  }

  /** A sweep that finds one policy due, up to the copy of the policy. */
  lemma SweepCopies(m: Machine, t: ThreadID, p: ID, r: Time)
    returns (ms: seq<Machine>, ops: seq<Op>)
    requires m.s.policies.Keys == {p} && Due(m.s.policies[p], r)
    requires t !in m.threads && (forall u :: !Busy(m, u, p))
    ensures Run(ms, ops) && |ops| == 2 && ms[0] == m && SweptAlone(ms, ops, p)
    ensures ms[2] == m.(threads := m.threads[t := Thread([p], Copied(m.s.policies[p]), r)])
  {
    ops := [StartSweep(t, [p], map[p := r], r), Copy(t)];
    var m1 := Next(m, ops[0]);
    assert m1.threads[t] == Thread([p], Waiting, r);
    var m2 := Next(m1, ops[1]);
    ms := [m, m1, m2];
    assert m2.threads == m.threads[t := Thread([p], Copied(m.s.policies[p]), r)];
  }

  /** The rest of the sweep: the lease is issued and the policy written back. */
  lemma SweepRotates(m: Machine, t: ThreadID, p: ID, leaseID: ID, r: Time)
    returns (ms: seq<Machine>, ops: seq<Op>, l: Lease)
    requires p in m.s.policies && Issuable(m.s.policies[p])
    requires t in m.threads && m.threads[t] == Thread([p], Copied(m.s.policies[p]), r) && leaseID !in m.s.leases
    ensures Run(ms, ops) && |ops| == 2 && ms[0] == m && SweptAlone(ms, ops, p) && SweepsOnly(ops)
    ensures l.issuedAt == r && l.expiresAt == r + m.s.policies[p].ttlSeconds * SECOND
    ensures ms[2] == Machine(
      State(m.s.leases[leaseID := l], m.s.policies[p := Rotated(m.s.policies[p], r)]),
      m.threads[t := Thread([], Waiting, r)], m.log[p := Log(m, p) + [leaseID]])
  {
    hide IssueOutcome, Rotated, Issuable;
    var q := m.s.policies[p];
    RotationIsIssuable(q, leaseID, r);
    l := IssueOutcome(RequestOf(q), leaseID, r).value;
    ops := [Issue(t, leaseID, r), WriteBack(t, r)];
    var m1 := Next(m, ops[0]);
    assert m1.threads[t] == Thread([p], Issued(q), r);
    var m2 := Next(m1, ops[1]);
    assert [p][1..] == [];
    assert m2.threads == m.threads[t := Thread([], Waiting, r)];
    ms := [m, m1, m2];
  }

  /** One undisturbed sweep of the only policy, at one clock reading past its due time. */
  lemma OneSweep(m: Machine, t: ThreadID, p: ID, leaseID: ID, r: Time)
    returns (ms: seq<Machine>, ops: seq<Op>, l: Lease)
    requires m.s.policies.Keys == {p} && Issuable(m.s.policies[p]) && Due(m.s.policies[p], r)
    requires t !in m.threads && leaseID !in m.s.leases && (forall u :: !Busy(m, u, p))
    ensures Run(ms, ops) && |ops| == 4 && ms[0] == m && SweptAlone(ms, ops, p)
    ensures l.issuedAt == r && l.expiresAt == r + m.s.policies[p].ttlSeconds * SECOND
    ensures ms[4] == Machine(
      State(m.s.leases[leaseID := l], m.s.policies[p := Rotated(m.s.policies[p], r)]),
      m.threads[t := Thread([], Waiting, r)], m.log[p := Log(m, p) + [leaseID]])
    ensures forall u :: !Busy(ms[4], u, p)
  {
    hide Legal, Next, AloneStep, Issuable, Rotated;
    var ms1, ops1 := SweepCopies(m, t, p, r);
    var ms2, ops2;
    ms2, ops2, l := SweepRotates(ms1[2], t, p, leaseID, r);
    RunsCompose(ms1, ops1, ms2, ops2, p);
    ms, ops := ms1 + ms2[1..], ops1 + ops2;
    assert ms[4].threads == m.threads[t := Thread([], Waiting, r)];
    forall u
      ensures !Busy(ms[4], u, p)
    {
      assert !Busy(m, u, p);
    }
  }

  /** The shortest time between two clock readings that each find the policy due. */
  function Delay(intervalSeconds: int): nat {
    if Seconds(intervalSeconds) < 0 then 0 else Seconds(intervalSeconds) + 1
  }

  /** The only policy was swept `n` times, each as early as the clock allows. */
  ghost predicate SweptTimes(m: Machine, n: nat, intervalSeconds: int, ttlSeconds: int) {
    var delay := Delay(intervalSeconds);
    && m.s.policies.Keys == {0}
    && var q := m.s.policies[0];
    && q.intervalSeconds == intervalSeconds && q.ttlSeconds == ttlSeconds && q.enabled && Issuable(q)
    && q.nextRotationAt == n * delay + Seconds(intervalSeconds)
    && (forall t :: t in m.threads ==> t < n) && (forall t :: !Busy(m, t, 0))
    && Log(m, 0) == seq(n, k => k)
    && (forall id :: id in m.s.leases <==> 0 <= id < n)
    && (forall id :: 0 <= id < n ==> m.s.leases[id].issuedAt == (id + 1) * delay)
    && (forall id :: 0 <= id < n ==> m.s.leases[id].expiresAt == (id + 1) * delay + ttlSeconds * SECOND)
  }

  lemma {:induction false} ManySweeps(intervalSeconds: int, ttlSeconds: int, n: nat)
    returns (ms: seq<Machine>, ops: seq<Op>)
    requires intervalSeconds >= 60 && 60 <= ttlSeconds <= 86400
    ensures Run(ms, ops) && ms[0] == START && SweptAlone(ms, ops, 0)
    ensures SweptTimes(ms[|ops|], n, intervalSeconds, ttlSeconds)
  {
    hide Legal, Next, AloneStep, Issuable, Seconds;
    if n == 0 {
      var q;
      ms, ops, q := OnePolicy(intervalSeconds, ttlSeconds);
      assert Log(ms[1], 0) == seq(0, k => k);
    } else {
      var ms1, ops1 := ManySweeps(intervalSeconds, ttlSeconds, n - 1);
      var m, r := ms1[|ops1|], n * Delay(intervalSeconds);
      assert r == (n - 1) * Delay(intervalSeconds) + Delay(intervalSeconds);
      var ms2, ops2, l := OneSweep(m, n - 1, 0, n - 1, r);
      RotatedIsIssuable(m.s.policies[0], r);
      RunsCompose(ms1, ops1, ms2, ops2, 0);
      ms, ops := ms1 + ms2[1..], ops1 + ops2;
      assert ms[|ops|] == ms2[4];
      assert Log(ms2[4], 0) == seq(n, k => k);
    }
  }

  function Below(n: nat): (ids: set<ID>)
    ensures |ids| == n && forall id :: id in ids <==> 0 <= id < n
  {
    if n == 0 then {} else Below(n - 1) + {n - 1}
  }

  lemma InTime(id: nat, n: nat, delay: nat, total: int)
    requires id < n && (n - 1) * delay <= total
    ensures (id + 1) * delay <= n * delay <= (id + 1) * delay + total
  {
    assert (n - id - 1) * delay <= (n - 1) * delay;
    assert n * delay == (id + 1) * delay + (n - id - 1) * delay;
  }

  /** As many leases as fit into a time to live, one delay apart, can be unexpired at once. */
  lemma ManyLiveLeases(intervalSeconds: int, ttlSeconds: int, n: nat)
    returns (ms: seq<Machine>, ops: seq<Op>, x: Time)
    requires intervalSeconds >= 60 && 60 <= ttlSeconds <= 86400
    requires (n - 1) * Delay(intervalSeconds) <= ttlSeconds * SECOND
    ensures Observed(ms, ops, |ops|, 0, intervalSeconds, ttlSeconds)
    ensures |LiveAt(ms[|ops|], 0, x)| == n
  {
    hide Legal, Next, AloneStep, Issuable, Seconds;
    ms, ops := ManySweeps(intervalSeconds, ttlSeconds, n);
    var m, delay := ms[|ops|], Delay(intervalSeconds);
    x := n * delay;
    hide Delay;
    forall id: nat | id < n
      ensures id in LiveAt(m, 0, x)
    {
      assert Log(m, 0)[id] == id;
      InTime(id, n, delay, ttlSeconds * SECOND);
    }
    assert LiveAt(m, 0, x) == Below(n);
  }

  /** Two sweeps, each as early as the clock allows, leave two unexpired leases when the
      computed interval is shorter than the time to live. */
  lemma TwoLiveLeases(intervalSeconds: int, ttlSeconds: int)
    returns (ms: seq<Machine>, ops: seq<Op>, x: Time)
    requires intervalSeconds >= 60 && 60 <= ttlSeconds <= 86400
    requires Seconds(intervalSeconds) < ttlSeconds * SECOND
    ensures Observed(ms, ops, |ops|, 0, intervalSeconds, ttlSeconds)
    ensures |LiveAt(ms[|ops|], 0, x)| == 2
  {
    hide Seconds, Observed, LiveAt;
    ms, ops, x := ManyLiveLeases(intervalSeconds, ttlSeconds, 2);
  }

  /** In every run that sweeps a policy alone, at every instant, at most `n` of its leases are
      unexpired. */
  ghost predicate AtMostLive(intervalSeconds: int, ttlSeconds: int, n: nat) {
    forall ms: seq<Machine>, ops: seq<Op>, i: nat, p: ID, x: Time ::
      Observed(ms, ops, i, p, intervalSeconds, ttlSeconds) ==> |LiveAt(ms[i], p, x)| <= n
  }

  lemma FewerThan(count: nat, n: nat, gap: int, total: int)
    requires gap > 0 && (count - 1) * gap <= total < n * gap
    ensures count <= n
  {
    assert count > n ==> (count - 1) * gap >= n * gap;
  }

  /** The largest number of unexpired leases, exactly: `n` is enough if and only if the computed
      interval does not wrap around to below zero and `n` intervals, each a tick longer, exceed
      the time to live. With an interval below zero no number is enough. */
  lemma MostLiveLeasesExactly(intervalSeconds: int, ttlSeconds: int, n: nat)
    requires intervalSeconds >= 60 && 60 <= ttlSeconds <= 86400
    ensures AtMostLive(intervalSeconds, ttlSeconds, n) <==>
      Seconds(intervalSeconds) >= 0 && ttlSeconds * SECOND < n * (Seconds(intervalSeconds) + 1)
  {
    hide Legal, Next, AloneStep, LiveAt, Seconds, CeilDiv;
    var step, total := Seconds(intervalSeconds), ttlSeconds * SECOND;
    if step >= 0 && total < n * (step + 1) {
      forall ms: seq<Machine>, ops: seq<Op>, i: nat, p: ID, x: Time |
        Observed(ms, ops, i, p, intervalSeconds, ttlSeconds)
        ensures |LiveAt(ms[i], p, x)| <= n
      {
        LiveLeaseBound(ms, ops, i, p, x);
        FewerThan(|LiveAt(ms[i], p, x)|, n, step + 1, total);
      }
    } else {
      var ms, ops, x := ManyLiveLeases(intervalSeconds, ttlSeconds, n + 1);
      hide Observed;
    }
  }

  lemma RotatedIsIssuable(p: RotationPolicy, now: Time)
    requires Issuable(p)
    ensures Issuable(Rotated(p, now))
  {
  }

  lemma OnePolicy(intervalSeconds: int, ttlSeconds: int)
    returns (ms: seq<Machine>, ops: seq<Op>, q: RotationPolicy)
    requires intervalSeconds >= 60 && 60 <= ttlSeconds <= 86400
    ensures Run(ms, ops) && |ops| == 1 && ms[0] == START && SweptAlone(ms, ops, 0) && SweepsOnly(ops)
    ensures ms[1] == Machine(State(map[], map[0 := q]), map[], map[])
    ensures q.intervalSeconds == intervalSeconds && q.ttlSeconds == ttlSeconds && q.enabled
    ensures q.nextRotationAt == Seconds(intervalSeconds) && Issuable(q)
  {
    var request := PolicyRequest("ssh", "host", "root", intervalSeconds, ttlSeconds, map[]);
    assert ToLower("ssh") == "ssh" && Trimmed("ssh") && Trimmed("host") && Trimmed("root");
    ops := [CreatePolicy(request, 0, 0)];
    q := CreateOutcome(map[], request, 0, 0).value;
    ms := [START, Next(START, ops[0])];
    CreatedIsSound(map[], request, 0, 0);
  }

  /** The bound in seconds holds if and only if the interval's duration does not wrap around,
      or wraps to no less than the time to live. */
  lemma BoundInSecondsExactly(intervalSeconds: int, ttlSeconds: int)
    requires intervalSeconds >= 60 && 60 <= ttlSeconds <= 86400
    ensures BoundedInSeconds(intervalSeconds, ttlSeconds) <==>
      intervalSeconds <= MAX_INTERVAL || Seconds(intervalSeconds) >= ttlSeconds * SECOND
  {
    hide Observed, LiveAt;
    if intervalSeconds <= MAX_INTERVAL || Seconds(intervalSeconds) >= ttlSeconds * SECOND {
      BoundHolds(intervalSeconds, ttlSeconds);
    } else {
      var ms, ops, x := TwoLiveLeases(intervalSeconds, ttlSeconds);
      CeilDivUnique(ttlSeconds, intervalSeconds, 1);
    }
  }

  /** With the time to live left to default to the interval, at most one lease is live. */
  lemma DefaultLifetimeLeavesOne(ms: seq<Machine>, ops: seq<Op>, i: nat, p: ID, x: Time)
    requires Run(ms, ops) && ms[0] == START && i <= |ops| && SweptAlone(ms, ops, p) && p in ms[i].s.policies
    requires ms[i].s.policies[p].ttlSeconds == ms[i].s.policies[p].intervalSeconds
    ensures |LiveAt(ms[i], p, x)| <= 1
  {
    hide Legal, Next, AloneStep, LiveAt;
    AlwaysSafe(ms, ops, i);
    var q := ms[i].s.policies[p];
    assert Sound(p, q);
    BoundHolds(q.intervalSeconds, q.ttlSeconds);
    assert Observed(ms, ops, i, p, q.intervalSeconds, q.ttlSeconds);
    CeilDivUnique(q.ttlSeconds, q.intervalSeconds, 1);
  }

  // ---- Sweeps that overlap ----

  /** `n` sweeps have found the only policy due at one reading, and the first `k` of them are done. */
  ghost predicate Overlapping(m: Machine, n: nat, k: nat, r: Time, intervalSeconds: int, ttlSeconds: int) {
    && k <= n && m.s.policies.Keys == {0}
    && var q := m.s.policies[0];
    && q.intervalSeconds == intervalSeconds && q.ttlSeconds == ttlSeconds && q.enabled && Issuable(q)
    && (k == 0 ==> Due(q, r))
    && (forall t :: t in m.threads ==> t < n)
    && (forall t :: k <= t < n ==> t in m.threads && m.threads[t] == Thread([0], Waiting, r))
    && Log(m, 0) == seq(k, j => j)
    && (forall id :: id in m.s.leases <==> 0 <= id < k)
    && (forall id :: 0 <= id < k ==> m.s.leases[id].issuedAt == r)
    && (forall id :: 0 <= id < k ==> m.s.leases[id].expiresAt == r + ttlSeconds * SECOND)
  }

  lemma OneMoreWaiting(m: Machine, n: nat, r: Time, intervalSeconds: int, ttlSeconds: int)
    requires Overlapping(m, n, 0, r, intervalSeconds, ttlSeconds)
    ensures var op := StartSweep(n, [0], map[0 := r], r);
      Legal(m, op) && Overlapping(Next(m, op), n + 1, 0, r, intervalSeconds, ttlSeconds)
  {
    hide Issuable;
  }

  lemma NoneWaiting(m: Machine, r: Time, intervalSeconds: int, ttlSeconds: int)
    requires m.s.policies.Keys == {0} && m.s == State(map[], m.s.policies) && m.threads == map[] && m.log == map[]
    requires var q := m.s.policies[0];
      q.intervalSeconds == intervalSeconds && q.ttlSeconds == ttlSeconds && q.enabled && Issuable(q) && Due(q, r)
    ensures Overlapping(m, 0, 0, r, intervalSeconds, ttlSeconds)
  {
    hide Issuable;
    assert Log(m, 0) == seq(0, j => j);
  }

  lemma {:induction false} SweepsStart(intervalSeconds: int, ttlSeconds: int, n: nat)
    returns (ms: seq<Machine>, ops: seq<Op>)
    requires intervalSeconds >= 60 && 60 <= ttlSeconds <= 86400
    ensures Run(ms, ops) && ms[0] == START && SweepsOnly(ops)
    ensures Overlapping(ms[|ops|], n, 0, Delay(intervalSeconds), intervalSeconds, ttlSeconds)
  {
    hide Legal, Next, Issuable, Seconds, Overlapping;
    var r := Delay(intervalSeconds);
    if n == 0 {
      var q;
      ms, ops, q := OnePolicy(intervalSeconds, ttlSeconds);
      NoneWaiting(ms[1], r, intervalSeconds, ttlSeconds);
    } else {
      var ms1, ops1 := SweepsStart(intervalSeconds, ttlSeconds, n - 1);
      var m := ms1[|ops1|];
      var op := StartSweep(n - 1, [0], map[0 := r], r);
      OneMoreWaiting(m, n - 1, r, intervalSeconds, ttlSeconds);
      RunsCompose(ms1, ops1, [m, Next(m, op)], [op], 0);
      ms, ops := ms1 + [m, Next(m, op)][1..], ops1 + [op];
    }
  }

  /** One of the waiting sweeps copies the policy, issues and writes back. */
  lemma WaitingSweepRotates(m: Machine, t: ThreadID, leaseID: ID, r: Time)
    returns (ms: seq<Machine>, ops: seq<Op>, l: Lease)
    requires 0 in m.s.policies && m.s.policies[0].enabled && Issuable(m.s.policies[0])
    requires t in m.threads && m.threads[t] == Thread([0], Waiting, r) && leaseID !in m.s.leases
    ensures Run(ms, ops) && ms[0] == m && SweepsOnly(ops)
    ensures l.issuedAt == r && l.expiresAt == r + m.s.policies[0].ttlSeconds * SECOND
    ensures ms[|ops|] == Machine(
      State(m.s.leases[leaseID := l], m.s.policies[0 := Rotated(m.s.policies[0], r)]),
      m.threads[t := Thread([], Waiting, r)], m.log[0 := Log(m, 0) + [leaseID]])
  {
    hide Issuable, Rotated;
    var n := Next(m, Copy(t));
    assert n == m.(threads := m.threads[t := Thread([0], Copied(m.s.policies[0]), r)]);
    hide Legal, Next;
    var ms2, ops2;
    ms2, ops2, l := SweepRotates(n, t, 0, leaseID, r);
    RunsCompose([m, n], [Copy(t)], ms2, ops2, 0);
    ms, ops := [m, n] + ms2[1..], [Copy(t)] + ops2;
    assert n.threads[t := Thread([], Waiting, r)] == m.threads[t := Thread([], Waiting, r)];
  }

  lemma {:induction false} SweepsFinish(intervalSeconds: int, ttlSeconds: int, n: nat, k: nat)
    returns (ms: seq<Machine>, ops: seq<Op>)
    requires intervalSeconds >= 60 && 60 <= ttlSeconds <= 86400 && k <= n
    ensures Run(ms, ops) && ms[0] == START && SweepsOnly(ops)
    ensures Overlapping(ms[|ops|], n, k, Delay(intervalSeconds), intervalSeconds, ttlSeconds)
  {
    hide Legal, Next, Issuable, Seconds, SweepsOnly;
    if k == 0 {
      ms, ops := SweepsStart(intervalSeconds, ttlSeconds, n);
    } else {
      var ms1, ops1 := SweepsFinish(intervalSeconds, ttlSeconds, n, k - 1);
      var m, r := ms1[|ops1|], Delay(intervalSeconds);
      var ms2, ops2, l := WaitingSweepRotates(m, k - 1, k - 1, r);
      RotatedIsIssuable(m.s.policies[0], r);
      RunsCompose(ms1, ops1, ms2, ops2, 0);
      ms, ops := ms1 + ms2[1..], ops1 + ops2;
      assert ms[|ops|] == ms2[|ops2|];
      assert Log(ms2[|ops2|], 0) == seq(k, j => j);
    }
  }

  /** Sweeps that overlap rotate the same policy once each: whatever the interval and the time to
      live, nothing bounds its unexpired leases but the number of sweeps. */
  lemma OverlappingSweepsAreUnbounded(intervalSeconds: int, ttlSeconds: int, n: nat)
    returns (ms: seq<Machine>, ops: seq<Op>, x: Time)
    requires intervalSeconds >= 60 && 60 <= ttlSeconds <= 86400
    ensures Run(ms, ops) && ms[0] == START && SweepsOnly(ops)
    ensures var m := ms[|ops|];
      && 0 in m.s.policies
      && m.s.policies[0].intervalSeconds == intervalSeconds && m.s.policies[0].ttlSeconds == ttlSeconds
      && |LiveAt(m, 0, x)| == n
  {
    hide Legal, Next, Issuable, Seconds;
    ms, ops := SweepsFinish(intervalSeconds, ttlSeconds, n, n);
    var m := ms[|ops|];
    x := Delay(intervalSeconds);
    forall id: nat | id < n
      ensures id in LiveAt(m, 0, x)
    {
      assert Log(m, 0)[id] == id;
    }
    assert LiveAt(m, 0, x) == Below(n);
  }
}
