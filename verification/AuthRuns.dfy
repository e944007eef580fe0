/** Every interleaving of the critical sections of the authentication service. A refresh is
    two sections: consuming the old token, and later recording a new session; between them
    it is pending. A ledger remembers what became of every token ever issued. */
module AuthRuns {
  import opened Wrappers
  import opened Auth

  type ThreadID = nat

  /** A refresh between its two critical sections: whose it is, and the token it redeemed. */
  datatype Pending = Pending(user: UserID, parent: string)

  /** What became of the tokens issued so far; `heir` maps a redeemed token to its successor
      and `owner` an issued token to its user. */
  datatype Ledger = Ledger(
    owner: map<string, UserID>,
    redeemed: set<string>, expired: set<string>, revoked: set<string>,
    heir: map<string, string>)

  datatype Machine = Machine(s: State, pending: map<ThreadID, Pending>, book: Ledger)

  const START := Machine(State(map[], map[]), map[], Ledger(map[], {}, {}, {}, map[]))

  datatype Op =
    | Issue(user: UserID, sessionID: string, hash: string, now: Time, ttl: int)
    | Begin(thread: ThreadID, presented: string, now: Time, later: Time)
    | Finish(thread: ThreadID, sessionID: string, hash: string, now: Time, ttl: int)
    | RevokeSessions(user: UserID, target: string, now: Time)

  /** Session ids and token hashes are generated fresh, and a call has one thread. */
  predicate Legal(m: Machine, op: Op) {
    match op
    case Issue(_, sid, hash, _, _) => sid !in m.s.sessions && sid != "" && hash !in m.book.owner && hash != ""
    case Begin(t, _, _, _) => t !in m.pending
    case Finish(t, sid, hash, _, _) =>
      t in m.pending && sid !in m.s.sessions && sid != "" && hash !in m.book.owner && hash != ""
    case RevokeSessions(_, _, _) => true
  }

  function Next(m: Machine, op: Op): Machine
    requires Legal(m, op)
  {
    match op
    case Issue(user, sid, hash, now, ttl) =>
      m.(s := Record(m.s, user, sid, hash, now, ttl), book := m.book.(owner := m.book.owner[hash := user]))
    case Begin(t, h, now, later) =>
      var (s', r) := Consume(m.s, h, now, later);
      if r.Ok? then
        Machine(s', m.pending[t := Pending(r.value, h)], m.book.(redeemed := m.book.redeemed + {h}))
      else
        m.(s := s', book := if r.error == ExpiredToken then m.book.(expired := m.book.expired + {h}) else m.book)
    case Finish(t, sid, hash, now, ttl) =>
      var p := m.pending[t];
      Machine(Record(m.s, p.user, sid, hash, now, ttl), m.pending - {t},
              m.book.(owner := m.book.owner[hash := p.user], heir := m.book.heir[p.parent := hash]))
    case RevokeSessions(user, target, now) =>
      var s' := Revoke(m.s, user, target, now);
      m.(s := s', book := m.book.(revoked := m.book.revoked + (m.s.tokens.Keys - s'.tokens.Keys)))
  }

  ghost predicate Run(ms: seq<Machine>, ops: seq<Op>) {
    && |ms| == |ops| + 1
    && forall i :: 0 <= i < |ops| ==> Legal(ms[i], ops[i]) && ms[i + 1] == Next(ms[i], ops[i])
  }

  // ---- The token/session graph ----

  /** A live token belongs to an unrevoked session of the same user that holds its hash. */
  ghost predicate TokenAnchored(s: State, h: string)
    requires h in s.tokens
  {
    var t := s.tokens[h];
    && t.sessionID in s.sessions
    && var x := s.sessions[t.sessionID];
       x.revokedAt.None? && x.userID == t.userID && x.hash == h
  }

  /** An unrevoked session that holds a hash holds that of a live token of its own. */
  ghost predicate SessionAnchored(s: State, sid: string)
    requires sid in s.sessions
  {
    var x := s.sessions[sid];
    x.revokedAt.None? && x.hash != "" ==> x.hash in s.tokens && s.tokens[x.hash].sessionID == sid
  }

  ghost predicate Graph(s: State) {
    && "" !in s.tokens
    && (forall h :: h in s.tokens ==> TokenAnchored(s, h))
    && (forall sid :: sid in s.sessions ==> SessionAnchored(s, sid))
  }

  lemma RecordKeepsGraph(s: State, user: UserID, sid: string, hash: string, now: Time, ttl: int)
    requires Graph(s) && sid !in s.sessions && hash !in s.tokens && hash != ""
    ensures Graph(Record(s, user, sid, hash, now, ttl))
  {
  }

  lemma ConsumeKeepsGraph(s: State, hash: string, now: Time, later: Time)
    requires Graph(s)
    ensures Graph(Consume(s, hash, now, later).0)
  {
  }

  lemma RevokeKeepsGraph(s: State, user: UserID, target: string, now: Time)
    requires Graph(s)
    ensures Graph(Revoke(s, user, target, now))
  {
  }

  /** A bulk revocation removes exactly the user's live tokens and unrevoked sessions. */
  lemma BulkRevocationIsComplete(s: State, user: UserID, now: Time)
    requires Graph(s) && user != ""
    ensures var t := Revoke(s, user, "", now);
      && (forall h :: h in t.tokens <==> h in s.tokens && s.tokens[h].userID != user)
      && (forall h :: h in t.tokens ==> t.tokens[h] == s.tokens[h])
      && t.sessions.Keys == s.sessions.Keys
      && Unrevoked(t, user) == {}
      && (forall sid :: sid in s.sessions && sid !in Unrevoked(s, user) ==> t.sessions[sid] == s.sessions[sid])
      && (forall sid :: sid in Unrevoked(s, user) ==> t.sessions[sid] == Revoked(s.sessions[sid], now))
  {
  }

  // ---- Conservation of tokens ----

  /** Every issued token is in exactly one of four states. */
  ghost predicate Partitioned(m: Machine) {
    var b := m.book;
    && "" !in b.owner
    && b.owner.Keys == m.s.tokens.Keys + b.redeemed + b.expired + b.revoked
    && m.s.tokens.Keys !! b.redeemed !! b.expired !! b.revoked
    && (forall h :: h in m.s.tokens ==> b.owner[h] == m.s.tokens[h].userID)
  }

  /** A hash is held by at most one session, and only if it was issued. */
  ghost predicate HeldOnce(m: Machine) {
    && (forall sid :: sid in m.s.sessions && m.s.sessions[sid].hash != "" ==> m.s.sessions[sid].hash in m.book.owner)
    && (forall a, b :: a in m.s.sessions && b in m.s.sessions && a != b && m.s.sessions[a].hash != "" ==>
      m.s.sessions[a].hash != m.s.sessions[b].hash)
  }

  /** This thread is about to issue the heir of this token. */
  ghost predicate Expects(m: Machine, t: ThreadID, h: string) {
    t in m.pending && m.pending[t].parent == h
  }

  /** Every redeemed token either has one heir, of the same user, which no other token has,
      or exactly one refresh of that user still pending. */
  ghost predicate Succession(m: Machine) {
    var b := m.book;
    && b.redeemed <= b.owner.Keys
    && b.heir.Keys <= b.redeemed
    && (forall h :: h in b.heir ==> b.heir[h] in b.owner && b.owner[b.heir[h]] == b.owner[h])
    && (forall h, k :: h in b.heir && k in b.heir && h != k ==> b.heir[h] != b.heir[k])
    && (forall t :: t in m.pending ==>
      && m.pending[t].parent in b.redeemed - b.heir.Keys
      && m.pending[t].user == b.owner[m.pending[t].parent])
    && (forall t, u :: t in m.pending && u in m.pending && t != u ==> m.pending[t].parent != m.pending[u].parent)
    && (forall h :: h in b.redeemed && h !in b.heir ==> exists t :: Expects(m, t, h))
  }

  ghost predicate Inv(m: Machine) {
    Graph(m.s) && Partitioned(m) && HeldOnce(m) && Succession(m)
  }

  lemma IssueKeepsInv(m: Machine, op: Op)
    requires Inv(m) && op.Issue? && Legal(m, op)
    ensures Inv(Next(m, op))
  {
    hide Graph;
    RecordKeepsGraph(m.s, op.user, op.sessionID, op.hash, op.now, op.ttl);
    assert Succession(Next(m, op)) by {
      hide HeldOnce, Record;
      assert forall t, h :: Expects(m, t, h) ==> Expects(Next(m, op), t, h);
    }
  }

  lemma BeginKeepsPartition(m: Machine, op: Op)
    requires Graph(m.s) && Partitioned(m) && op.Begin? && Legal(m, op)
    ensures Partitioned(Next(m, op))
  {
    hide TokenAnchored, SessionAnchored;
  }

  lemma BeginKeepsHeldOnce(m: Machine, op: Op)
    requires HeldOnce(m) && op.Begin? && Legal(m, op)
    ensures HeldOnce(Next(m, op))
  {
    assert Next(m, op).book.owner == m.book.owner;
    forall sid | sid in Next(m, op).s.sessions
      ensures sid in m.s.sessions && Next(m, op).s.sessions[sid].hash in {"", m.s.sessions[sid].hash}
    {
    }
  }

  lemma BeginKeepsSuccession(m: Machine, op: Op)
    requires Graph(m.s) && Partitioned(m) && Succession(m) && op.Begin? && Legal(m, op)
    ensures Succession(Next(m, op))
  {
    hide Graph;
    var m' := Next(m, op);
    if Consume(m.s, op.presented, op.now, op.later).1.Ok? {
      assert Expects(m', op.thread, op.presented);
    }
    assert forall t, h :: Expects(m, t, h) ==> Expects(m', t, h);
  }

  lemma FinishKeepsBook(m: Machine, op: Op)
    requires Inv(m) && op.Finish? && Legal(m, op)
    ensures Graph(Next(m, op).s) && Partitioned(Next(m, op)) && HeldOnce(Next(m, op))
  {
    hide Graph, Succession;
    RecordKeepsGraph(m.s, m.pending[op.thread].user, op.sessionID, op.hash, op.now, op.ttl);
  }

  lemma FinishKeepsSuccession(m: Machine, op: Op)
    requires Partitioned(m) && Succession(m) && op.Finish? && Legal(m, op)
    ensures Succession(Next(m, op))
  {
    hide Record;
    assert forall t, h :: Expects(m, t, h) && t != op.thread ==> Expects(Next(m, op), t, h);
    assert forall h :: Expects(m, op.thread, h) ==> h in Next(m, op).book.heir;
  }

  lemma RevokeKeepsInv(m: Machine, op: Op)
    requires Inv(m) && op.RevokeSessions? && Legal(m, op)
    ensures Inv(Next(m, op))
  {
    hide Graph, Partitioned, HeldOnce;
    RevokeKeepsGraph(m.s, op.user, op.target, op.now);
    RevokeKeepsBook(m, op);
    hide Revoke;
    assert forall t, h :: Expects(m, t, h) ==> Expects(Next(m, op), t, h);
  }

  lemma RevokeKeepsBook(m: Machine, op: Op)
    requires Partitioned(m) && HeldOnce(m) && op.RevokeSessions? && Legal(m, op)
    ensures Partitioned(Next(m, op)) && HeldOnce(Next(m, op))
  {
    assert Next(m, op).s.tokens.Keys <= m.s.tokens.Keys;
  }

  lemma StepKeepsInv(m: Machine, op: Op)
    requires Inv(m) && Legal(m, op)
    ensures Inv(Next(m, op))
  {
    hide Graph, Partitioned, HeldOnce, Succession, Next, Legal;
    match op
    case Issue(_, _, _, _, _) => IssueKeepsInv(m, op);
    case Begin(_, h, now, later) =>
      BeginKeepsPartition(m, op);
      BeginKeepsHeldOnce(m, op);
      BeginKeepsSuccession(m, op);
      BeginKeepsGraph(m, op);
    case Finish(_, _, _, _, _) =>
      FinishKeepsBook(m, op);
      FinishKeepsSuccession(m, op);
    case RevokeSessions(_, _, _) => RevokeKeepsInv(m, op);
  }

  lemma BeginKeepsGraph(m: Machine, op: Op)
    requires Graph(m.s) && op.Begin? && Legal(m, op)
    ensures Graph(Next(m, op).s)
  {
    hide Graph;
    ConsumeKeepsGraph(m.s, op.presented, op.now, op.later);
  }

  lemma {:induction false} InvAlways(ms: seq<Machine>, ops: seq<Op>, i: nat)
    requires Run(ms, ops) && ms[0] == START && i <= |ops|
    ensures Inv(ms[i])
  {
    hide Legal, Next;
    if i > 0 {
      InvAlways(ms, ops, i - 1);
      StepKeepsInv(ms[i - 1], ops[i - 1]);
    }
  }

  /** In every state that any interleaving reaches, live tokens and unrevoked sessions point
      at each other, and the stale hash of a revoked session names no live token. */
  lemma TokenSessionGraph(ms: seq<Machine>, ops: seq<Op>, i: nat)
    requires Run(ms, ops) && ms[0] == START && i <= |ops|
    ensures Graph(ms[i].s)
    ensures forall sid :: sid in ms[i].s.sessions && ms[i].s.sessions[sid].revokedAt.Some? ==>
      ms[i].s.sessions[sid].hash !in ms[i].s.tokens
  {
    hide Legal, Next;
    InvAlways(ms, ops, i);
    var s := ms[i].s;
    forall sid | sid in s.sessions && s.sessions[sid].revokedAt.Some?
      ensures s.sessions[sid].hash !in s.tokens
    {
      assert s.sessions[sid].hash in s.tokens ==> TokenAnchored(s, s.sessions[sid].hash);
    }
  }

  /** Conservation: in every reachable state each issued token is exactly one of live,
      redeemed, expired and revoked, and each redeemed token has passed its user's access on
      to at most one heir. */
  lemma TokensAreConserved(ms: seq<Machine>, ops: seq<Op>, i: nat)
    requires Run(ms, ops) && ms[0] == START && i <= |ops|
    ensures Partitioned(ms[i]) && Succession(ms[i])
  {
    hide Legal, Next, Partitioned, Succession;
    InvAlways(ms, ops, i);
  }

  // ---- What never changes back ----

  /** Spent tokens stay spent, users and heirs stay fixed, and a revoked session is frozen:
      its revocation time is written once. */
  ghost predicate Onward(m: Machine, n: Machine) {
    && m.book.redeemed <= n.book.redeemed
    && m.book.expired <= n.book.expired
    && m.book.revoked <= n.book.revoked
    && (forall h :: h in m.book.owner ==> h in n.book.owner && n.book.owner[h] == m.book.owner[h])
    && (forall h :: h in m.book.heir ==> h in n.book.heir && n.book.heir[h] == m.book.heir[h])
    && (forall sid :: sid in m.s.sessions ==>
      && sid in n.s.sessions
      && (m.s.sessions[sid].revokedAt.Some? ==> n.s.sessions[sid] == m.s.sessions[sid]))
  }

  lemma StepIsOnward(m: Machine, op: Op)
    requires Inv(m) && Legal(m, op)
    ensures Onward(m, Next(m, op))
  {
    hide Partitioned, HeldOnce;
    match op
    case Issue(_, _, _, _, _) =>
    case Begin(_, h, _, _) =>
      assert h in m.s.tokens ==> TokenAnchored(m.s, h);
    case Finish(t, _, _, _, _) =>
    case RevokeSessions(_, _, _) =>
  }

  lemma {:induction false} RunsAreOnward(ms: seq<Machine>, ops: seq<Op>, i: nat, j: nat)
    requires Run(ms, ops) && ms[0] == START && i <= j <= |ops|
    ensures Onward(ms[i], ms[j])
  {
    hide Legal, Next, Inv;
    if i < j {
      RunsAreOnward(ms, ops, i, j - 1);
      InvAlways(ms, ops, j - 1);
      StepIsOnward(ms[j - 1], ops[j - 1]);
    }
  }

  /** The expiry path writes the revocation time without testing it, yet only on a session that
      has none, and nothing ever writes it again. */
  lemma ExpiryRevokesOnce(ms: seq<Machine>, ops: seq<Op>, i: nat, j: nat)
    requires Run(ms, ops) && ms[0] == START && i < j <= |ops| && ops[i].Begin?
    requires Consume(ms[i].s, ops[i].presented, ops[i].now, ops[i].later).1 == Err(ExpiredToken)
    ensures var sid := ms[i].s.tokens[ops[i].presented].sessionID;
      && sid in ms[i].s.sessions && ms[i].s.sessions[sid].revokedAt == None
      && sid in ms[j].s.sessions && ms[j].s.sessions[sid].revokedAt == Some(ops[i].later)
  {
    hide Partitioned, HeldOnce, Succession;
    InvAlways(ms, ops, i);
    assert TokenAnchored(ms[i].s, ops[i].presented);
    assert ms[i + 1].s == Consume(ms[i].s, ops[i].presented, ops[i].now, ops[i].later).0;
    RunsAreOnward(ms, ops, i + 1, j);
  }

  /** A token that was issued and is no longer live never becomes live again. */
  lemma SpentTokensStaySpent(ms: seq<Machine>, ops: seq<Op>, i: nat, j: nat, h: string)
    requires Run(ms, ops) && ms[0] == START && i <= j <= |ops|
    requires h in ms[i].book.owner && h !in ms[i].s.tokens
    ensures h !in ms[j].s.tokens
  {
    hide Legal, Next, HeldOnce, Succession;
    InvAlways(ms, ops, i);
    InvAlways(ms, ops, j);
    RunsAreOnward(ms, ops, i, j);
  }

  /** Step `i` redeems the token `h`: its first critical section succeeds. */
  ghost predicate Redeems(ms: seq<Machine>, ops: seq<Op>, i: nat, h: string)
    requires Run(ms, ops) && i < |ops|
  {
    && ops[i].Begin? && ops[i].presented == h
    && Consume(ms[i].s, h, ops[i].now, ops[i].later).1.Ok?
  }

  /** Over every interleaving a token is redeemed at most once. */
  lemma RedeemedAtMostOnce(ms: seq<Machine>, ops: seq<Op>, i: nat, j: nat, h: string)
    requires Run(ms, ops) && ms[0] == START && i < j < |ops|
    requires Redeems(ms, ops, i, h)
    ensures !Redeems(ms, ops, j, h)
  {
    hide HeldOnce, Succession;
    InvAlways(ms, ops, i);
    assert h in ms[i].s.tokens && h in ms[i + 1].book.owner && h !in ms[i + 1].s.tokens;
    SpentTokensStaySpent(ms, ops, i + 1, j, h);
  }

  // ---- From the issue of a token to its end ----

  /** Step `k` issues the token `h`, at a login or at the end of a refresh. */
  ghost predicate Issues(ops: seq<Op>, k: nat, h: string) {
    k < |ops| && (ops[k].Issue? || ops[k].Finish?) && ops[k].hash == h
  }

  /** The user for whom step `k` issues. */
  ghost function IssuedTo(ms: seq<Machine>, ops: seq<Op>, k: nat): UserID
    requires Run(ms, ops) && k < |ops| && (ops[k].Issue? || ops[k].Finish?)
  {
    if ops[k].Issue? then ops[k].user else ms[k].pending[ops[k].thread].user
  }

  /** A step leaves the record of a live token as it is, or takes the token away. */
  lemma StepKeepsTerms(m: Machine, op: Op, h: string)
    requires Partitioned(m) && Legal(m, op) && h in m.book.owner
    ensures h in Next(m, op).s.tokens ==> h in m.s.tokens && Next(m, op).s.tokens[h] == m.s.tokens[h]
  {
    hide HashesOf, Targets;
  }

  lemma FreshTerms(m: Machine, op: Op)
    requires Legal(m, op) && (op.Issue? || op.Finish?)
    ensures var n, user := Next(m, op), if op.Issue? then op.user else m.pending[op.thread].user;
      && op.hash in n.book.owner && op.hash in n.s.tokens
      && n.s.tokens[op.hash] == Token(user, op.sessionID, op.now + op.ttl)
      && op.sessionID in n.s.sessions && n.s.sessions[op.sessionID] == Session(user, op.hash, op.now, None)
  {
  }

  /** Every token, live or spent, was issued by some step. */
  lemma {:induction false} EveryTokenWasIssued(ms: seq<Machine>, ops: seq<Op>, i: nat, h: string)
    requires Run(ms, ops) && ms[0] == START && i <= |ops| && h in ms[i].book.owner
    ensures exists k: nat :: k < i && Issues(ops, k, h)
  {
    hide Legal;
    if i > 0 {
      assert ms[i] == Next(ms[i - 1], ops[i - 1]);
      if h in ms[i - 1].book.owner {
        hide Next;
        EveryTokenWasIssued(ms, ops, i - 1, h);
      } else {
        assert Issues(ops, i - 1, h);
      }
    }
  }

  /** A live token carries the user, the session and the expiry it was issued with. */
  lemma {:induction false} LiveTokensKeepTheirTerms(ms: seq<Machine>, ops: seq<Op>, k: nat, i: nat, h: string)
    requires Run(ms, ops) && ms[0] == START && k < i <= |ops| && Issues(ops, k, h)
    ensures h in ms[i].book.owner
    ensures h in ms[i].s.tokens ==>
      ms[i].s.tokens[h] == Token(IssuedTo(ms, ops, k), ops[k].sessionID, ops[k].now + ops[k].ttl)
  {
    hide Legal, Next, HeldOnce, Succession, Partitioned, Graph;
    if i == k + 1 {
      assert Legal(ms[k], ops[k]) && ms[k + 1] == Next(ms[k], ops[k]);
      FreshTerms(ms[k], ops[k]);
    } else {
      LiveTokensKeepTheirTerms(ms, ops, k, i - 1, h);
      InvAlways(ms, ops, i - 1);
      RunsAreOnward(ms, ops, i - 1, i);
      StepKeepsTerms(ms[i - 1], ops[i - 1], h);
    }
  }

  /** What presenting a live or dead token does, by its recorded expiry. */
  lemma BeginOutcome(m: Machine, op: Op)
    requires Inv(m) && Legal(m, op) && op.Begin?
    ensures var n, h := Next(m, op), op.presented;
      && (h !in m.s.tokens ==> n == m)
      && (h in m.s.tokens && op.now <= m.s.tokens[h].expiresAt ==>
        && h !in n.s.tokens && h in n.book.redeemed && n.book.expired == m.book.expired
        && n.pending == m.pending[op.thread := Pending(m.s.tokens[h].userID, h)]
        && m.s.tokens[h].sessionID in n.s.sessions && n.s.sessions[m.s.tokens[h].sessionID].revokedAt == None)
      && (h in m.s.tokens && op.now > m.s.tokens[h].expiresAt ==>
        && h !in n.s.tokens && h in n.book.expired && n.book.redeemed == m.book.redeemed && n.pending == m.pending
        && m.s.tokens[h].sessionID in n.s.sessions
        && n.s.sessions[m.s.tokens[h].sessionID].revokedAt == Some(op.later))
  {
    hide HeldOnce, Succession, Partitioned;
    assert op.presented in m.s.tokens ==> TokenAnchored(m.s, op.presented);
  }

  /** Over every interleaving, told from the step that issued a token: presenting the token redeems
      it, and starts a refresh of the user it was issued to, if and only if it is live and the clock
      reads at most the reading at its issue plus its time to live; it expires, and its session is
      revoked, if and only if it is live and the clock reads later. */
  lemma RedeemedOrExpiredExactly(ms: seq<Machine>, ops: seq<Op>, k: nat, i: nat, h: string)
    requires Run(ms, ops) && ms[0] == START && k < i < |ops| && Issues(ops, k, h)
    requires ops[i].Begin? && ops[i].presented == h
    ensures var deadline, t, sid := ops[k].now + ops[k].ttl, ops[i].thread, ops[k].sessionID;
      && (t in ms[i + 1].pending <==> h in ms[i].s.tokens && ops[i].now <= deadline)
      && (t in ms[i + 1].pending ==> ms[i + 1].pending[t] == Pending(IssuedTo(ms, ops, k), h))
      && (h in ms[i + 1].book.redeemed && h !in ms[i].book.redeemed <==> h in ms[i].s.tokens && ops[i].now <= deadline)
      && (h in ms[i + 1].book.expired && h !in ms[i].book.expired <==> h in ms[i].s.tokens && ops[i].now > deadline)
      && (h in ms[i].s.tokens && ops[i].now > deadline ==>
        sid in ms[i + 1].s.sessions && ms[i + 1].s.sessions[sid].revokedAt == Some(ops[i].later))
      && h !in ms[i + 1].s.tokens
  {
    hide HeldOnce, Succession, Graph;
    LiveTokensKeepTheirTerms(ms, ops, k, i, h);
    InvAlways(ms, ops, i);
    assert Legal(ms[i], ops[i]) && ms[i + 1] == Next(ms[i], ops[i]);
    BeginOutcome(ms[i], ops[i]);
    RunsAreOnward(ms, ops, i, i + 1);
    hide Next, Run;
  }

  /** A token dies only by being presented or by a revocation that ends its session. */
  lemma TokensDieExactly(m: Machine, op: Op, h: string)
    requires Inv(m) && Legal(m, op) && h in m.s.tokens
    ensures h !in Next(m, op).s.tokens <==>
      || (op.Begin? && op.presented == h)
      || (op.RevokeSessions? && op.user == m.s.tokens[h].userID && op.user != ""
          && (op.target == "" || op.target == m.s.tokens[h].sessionID))
  {
    hide HeldOnce, Succession, Partitioned;
    match op
    case Issue(_, _, _, _, _) =>
    case Begin(_, _, _, _) =>
    case Finish(_, _, _, _, _) =>
    case RevokeSessions(user, target, now) => RevokedTokens(m.s, user, target, now, h);
  }

  lemma RevokedTokens(s: State, user: UserID, target: string, now: Time, h: string)
    requires Graph(s) && h in s.tokens
    ensures h !in Revoke(s, user, target, now).tokens <==>
      user != "" && user == s.tokens[h].userID && (target == "" || target == s.tokens[h].sessionID)
  {
    assert TokenAnchored(s, h);
    if target == "" {
      if user != "" {
        BulkRevocationIsComplete(s, user, now);
      }
    } else if user != "" {
      SingleRevocation(s, user, target, now);
    }
  }

  /** A revocation of one session: refused exactly if the session is unknown or another user's, and
      then, as for a session already revoked, nothing changes; else that session alone is revoked,
      and of the tokens only its own is gone. */
  lemma SingleRevocation(s: State, user: UserID, sid: string, now: Time)
    requires Graph(s) && user != "" && sid != ""
    ensures var t, r := Revoke(s, user, sid, now), Targets(s, user, sid);
      && (sid !in s.sessions ==> r == Err(SessionNotFound) && t == s)
      && (sid in s.sessions && s.sessions[sid].userID != user ==> r == Err(NotOwner) && t == s)
      && (sid in s.sessions && s.sessions[sid].userID == user && s.sessions[sid].revokedAt.Some? ==>
        r == Ok({}) && t == s)
      && (sid in s.sessions && s.sessions[sid].userID == user && s.sessions[sid].revokedAt.None? ==>
        && r == Ok({sid}) && t.sessions.Keys == s.sessions.Keys
        && t.sessions[sid].revokedAt == Some(now) && t.sessions[sid].hash == "" && t.sessions[sid].userID == user
        && t.sessions[sid].issuedAt == s.sessions[sid].issuedAt
        && (forall k :: k in s.sessions && k != sid ==> t.sessions[k] == s.sessions[k])
        && (forall h :: h in t.tokens <==> h in s.tokens && s.tokens[h].sessionID != sid)
        && (forall h :: h in t.tokens ==> t.tokens[h] == s.tokens[h]))
  {
    NothingRevoked(s, now);
    if sid in s.sessions && s.sessions[sid].userID == user && s.sessions[sid].revokedAt.None? {
      assert HashesOf(s, {sid}) == {s.sessions[sid].hash};
      assert SessionAnchored(s, sid);
      forall h | h in s.tokens
        ensures s.tokens[h].sessionID == sid <==> h == s.sessions[sid].hash
      {
        assert TokenAnchored(s, h);
      }
    }
  }

  // ---- Bulk revocation against refreshes in flight ----

  ghost predicate HasLiveToken(m: Machine, user: UserID) {
    exists h :: h in m.s.tokens && m.s.tokens[h].userID == user
  }

  ghost predicate HasPending(m: Machine, user: UserID) {
    exists t :: t in m.pending && m.pending[t].user == user
  }

  /** Only the refreshes in flight run between two points. */
  ghost predicate OnlyFinishes(ops: seq<Op>, i: nat, j: nat)
    requires i <= j <= |ops|
  {
    forall k :: i <= k < j ==> ops[k].Finish?
  }

  lemma {:induction false} FinishesTransfer(ms: seq<Machine>, ops: seq<Op>, i: nat, j: nat, user: UserID)
    requires Run(ms, ops) && ms[0] == START && i <= j <= |ops| && OnlyFinishes(ops, i, j)
    ensures HasLiveToken(ms[j], user) || HasPending(ms[j], user) <==>
      HasLiveToken(ms[i], user) || HasPending(ms[i], user)
  {
    hide Inv;
    if i < j {
      FinishesTransfer(ms, ops, i, j - 1, user);
      InvAlways(ms, ops, j - 1);
      FinishTransfers(ms[j - 1], ops[j - 1], user);
    }
  }

  lemma FinishTransfers(m: Machine, op: Op, user: UserID)
    requires Inv(m) && op.Finish? && Legal(m, op)
    ensures HasLiveToken(Next(m, op), user) || HasPending(Next(m, op), user) <==>
      HasLiveToken(m, user) || HasPending(m, user)
  {
    hide Graph, Succession, HeldOnce;
    var n := Next(m, op);
    var p := m.pending[op.thread];
    assert n.s.tokens[op.hash].userID == p.user;
    if HasLiveToken(m, user) {
      var h :| h in m.s.tokens && m.s.tokens[h].userID == user;
      assert h in n.s.tokens && n.s.tokens[h].userID == user;
    }
    if HasPending(m, user) {
      var t :| t in m.pending && m.pending[t].user == user;
      assert t != op.thread ==> t in n.pending && n.pending[t].user == user;
    }
    if HasPending(n, user) {
      var t :| t in n.pending && n.pending[t].user == user;
      assert t in m.pending && m.pending[t].user == user;
    }
  }

  /** Right after a bulk revocation the user has no live token. If nothing but refreshes in
      flight runs until all of them have finished, the user has one again if and only if one of
      them was the user's own. */
  lemma FinishingRefreshesSignIn(ms: seq<Machine>, ops: seq<Op>, i: nat, j: nat, user: UserID)
    requires Run(ms, ops) && ms[0] == START && i < j <= |ops|
    requires ops[i].RevokeSessions? && ops[i].user == user && ops[i].target == "" && user != ""
    requires OnlyFinishes(ops, i + 1, j) && ms[j].pending == map[]
    ensures !HasLiveToken(ms[i + 1], user)
    ensures HasLiveToken(ms[j], user) <==> HasPending(ms[i], user)
  {
    hide Graph, Partitioned, Succession, HeldOnce;
    InvAlways(ms, ops, i);
    BulkRevocationIsComplete(ms[i].s, user, ops[i].now);
    FinishesTransfer(ms, ops, i + 1, j, user);
  }

  /** The user does not log in anew. */
  ghost predicate NoLogin(ops: seq<Op>, user: UserID) {
    forall k :: 0 <= k < |ops| && ops[k].Issue? ==> ops[k].user != user
  }

  /** Whatever happens from here on, short of a new login of the user, leaves the user without a
      live token. */
  ghost predicate SignedOut(m: Machine, user: UserID) {
    forall ms: seq<Machine>, ops: seq<Op> ::
      Run(ms, ops) && ms[0] == m && NoLogin(ops, user) ==> !HasLiveToken(ms[|ops|], user)
  }

  /** A step other than a login of the user never gives back access that is gone. */
  lemma AccessStaysGone(m: Machine, op: Op, user: UserID)
    requires Legal(m, op) && (op.Issue? ==> op.user != user)
    requires !HasLiveToken(m, user) && !HasPending(m, user)
    ensures !HasLiveToken(Next(m, op), user) && !HasPending(Next(m, op), user)
  {
    var n := Next(m, op);
    forall h | h in n.s.tokens
      ensures n.s.tokens[h].userID != user
    {
      assert h in m.s.tokens ==> m.s.tokens[h].userID != user;
    }
    forall t | t in n.pending
      ensures n.pending[t].user != user
    {
      assert t in m.pending ==> m.pending[t].user != user;
    }
  }

  lemma {:induction false} AccessStaysGoneOverRuns(ms: seq<Machine>, ops: seq<Op>, user: UserID, i: nat)
    requires Run(ms, ops) && NoLogin(ops, user) && i <= |ops|
    requires !HasLiveToken(ms[0], user) && !HasPending(ms[0], user)
    ensures !HasLiveToken(ms[i], user) && !HasPending(ms[i], user)
  {
    hide Legal, Next, HasLiveToken, HasPending;
    if i > 0 {
      AccessStaysGoneOverRuns(ms, ops, user, i - 1);
      AccessStaysGone(ms[i - 1], ops[i - 1], user);
    }
  }

  /** Random tokens and generated ids do not run out. */
  lemma {:induction false} LongerThanAll(used: set<string>) returns (n: nat)
    ensures forall x :: x in used ==> |x| < n
  {
    if used == {} {
      n := 1;
    } else {
      var x :| x in used;
      var k := LongerThanAll(used - {x});
      n := if |x| < k then k else |x| + 1;
    }
  }

  lemma Unused(used: set<string>) returns (x: string)
    ensures x !in used && x != ""
  {
    var n := LongerThanAll(used);
    x := seq(n + 1, _ => 'a');
    assert |x| == n + 1;
  }

  /** A live token signs the user in by itself, and a pending refresh by finishing. */
  lemma AccessShows(m: Machine, user: UserID)
    requires HasLiveToken(m, user) || HasPending(m, user)
    ensures !SignedOut(m, user)
  {
    var ms: seq<Machine>, ops: seq<Op> := [m], [];
    if !HasLiveToken(m, user) {
      var t :| t in m.pending && m.pending[t].user == user;
      var sid := Unused(m.s.sessions.Keys);
      var hash := Unused(m.book.owner.Keys);
      ops := [Finish(t, sid, hash, 0, 0)];
      ms := [m, Next(m, ops[0])];
      assert ms[1].s.tokens[hash].userID == user;
    }
    assert Run(ms, ops) && ms[0] == m && NoLogin(ops, user) && HasLiveToken(ms[|ops|], user);
  }

  /** In any state the user is signed out for good, short of a new login, if and only if the user
      has neither a live token nor a refresh under way. */
  lemma SignedOutExactly(m: Machine, user: UserID)
    ensures SignedOut(m, user) <==> !HasLiveToken(m, user) && !HasPending(m, user)
  {
    hide HasLiveToken, HasPending, Legal, Next;
    if HasLiveToken(m, user) || HasPending(m, user) {
      AccessShows(m, user);
    } else {
      forall ms: seq<Machine>, ops: seq<Op> | Run(ms, ops) && ms[0] == m && NoLogin(ops, user)
        ensures !HasLiveToken(ms[|ops|], user)
      {
        AccessStaysGoneOverRuns(ms, ops, user, |ops|);
      }
    }
  }

  /** Right after a bulk revocation the user has no live token, and no continuation without a new
      login gives the user one if and only if no refresh of the user was under way. */
  lemma RevocationOutlivedOnlyByPendingRefreshes(ms: seq<Machine>, ops: seq<Op>, i: nat, user: UserID)
    requires Run(ms, ops) && ms[0] == START && i < |ops|
    requires ops[i].RevokeSessions? && ops[i].user == user && ops[i].target == "" && user != ""
    ensures !HasLiveToken(ms[i + 1], user)
    ensures SignedOut(ms[i + 1], user) <==> !HasPending(ms[i], user)
  {
    hide Graph, Partitioned, Succession, HeldOnce, SignedOut;
    InvAlways(ms, ops, i);
    BulkRevocationIsComplete(ms[i].s, user, ops[i].now);
    SignedOutExactly(ms[i + 1], user);
  }

  /** Such a run exists: a refresh straddles the revocation and leaves the user signed in. */
  lemma PendingRefreshSurvivesRevocation() returns (ms: seq<Machine>, ops: seq<Op>)
    ensures Run(ms, ops) && ms[0] == START
    ensures |ops| == 4 && ops[2] == RevokeSessions("u", "", 3)
    ensures !HasLiveToken(ms[3], "u") && HasLiveToken(ms[4], "u")
  {
    ops := [Issue("u", "s1", "h1", 1, 10), Begin(0, "h1", 2, 2),
            RevokeSessions("u", "", 3), Finish(0, "s2", "h2", 4, 10)];
    var m1 := Next(START, ops[0]);
    assert m1.s.tokens["h1"] == Token("u", "s1", 11);
    var m2 := Next(m1, ops[1]);
    assert m2.pending[0] == Pending("u", "h1");
    var m3 := Next(m2, ops[2]);
    assert m3.s.sessions.Keys == {"s1"};
    var m4 := Next(m3, ops[3]);
    assert m4.s.tokens["h2"].userID == "u";
    ms := [START, m1, m2, m3, m4];
    assert m2.s.tokens == map[];
  }
}
