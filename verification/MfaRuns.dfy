/** Every interleaving of the two critical sections of a verification. A challenge lets in one
    session exactly when no two successful verifications of it overlap. */
module MfaRuns {
  import opened Wrappers
  import opened Text
  import opened Mfa

  type ThreadID = nat

  /** A verification between its two sections: what it is about to delete, and whether it then
      issues a session. */
  datatype Pending = Pending(id: ID, userID: string, issues: bool)

  datatype Grant = Grant(id: ID, userID: string)

  /** `made` remembers every challenge stored, `granted` every session let in, in order. */
  datatype Machine = Machine(
    challenges: map<ID, Challenge>, pending: map<ThreadID, Pending>, made: map<ID, Challenge>, granted: seq<Grant>)

  const START := Machine(map[], map[], map[], [])

  datatype Op =
    | Create(user: string, requested: string, secret: Option<string>, newID: ID, now: Time)
    | Check(t: ThreadID, answer: Answer, now: Time)
    | Finish(t: ThreadID)

  predicate Legal(m: Machine, op: Op) {
    match op
    case Create(_, _, _, id, _) => id !in m.made
    case Check(t, _, _) => t !in m.pending
    case Finish(t) => t in m.pending
  }

  function Next(m: Machine, op: Op): Machine
    requires Legal(m, op)
  {
    match op
    case Create(user, requested, secret, id, now) =>
      var r := Made(user, requested, secret, id, now);
      if r.Ok? then m.(challenges := m.challenges[id := r.value], made := m.made[id := r.value]) else m
    case Check(t, a, now) =>
      var j := Judge(m.challenges, a, now);
      if Deletes(j)
      then m.(pending := m.pending[t := Pending(a.challenge.value, if j.Ok? then j.value.userID else "", j.Ok?)])
      else m
    case Finish(t) =>
      var p := m.pending[t];
      m.(challenges := m.challenges - {p.id}, pending := m.pending - {t},
         granted := if p.issues then m.granted + [Grant(p.id, p.userID)] else m.granted)
  }

  ghost predicate Run(ms: seq<Machine>, ops: seq<Op>) {
    && |ms| == |ops| + 1
    && forall i :: 0 <= i < |ops| ==> Legal(ms[i], ops[i]) && ms[i + 1] == Next(ms[i], ops[i])
  }

  /** How many sessions a challenge has let in. */
  function Grants(granted: seq<Grant>, id: ID): nat {
    if granted == [] then 0
    else Grants(granted[..|granted| - 1], id) + (if granted[|granted| - 1].id == id then 1 else 0)
  }

  /** The verifications about to let in a session for a challenge. */
  function Holders(m: Machine, id: ID): set<ThreadID> {
    set t | t in m.pending && m.pending[t].id == id && m.pending[t].issues
  }

  ghost predicate Overlap(m: Machine, id: ID) {
    exists t, u :: t in Holders(m, id) && u in Holders(m, id) && t != u
  }

  // ---- Who is let in ----

  ghost predicate Inv(m: Machine) {
    && (forall id :: id in m.challenges ==> id in m.made && m.challenges[id] == m.made[id])
    && (forall id :: id in m.made ==> m.made[id].method_ == "totp" || m.made[id].method_ == "webauthn")
    && (forall t :: t in m.pending ==> m.pending[t].id in m.made)
    && (forall t :: t in m.pending && m.pending[t].issues ==> m.pending[t].userID == m.made[m.pending[t].id].userID)
    && (forall k :: 0 <= k < |m.granted| ==> m.granted[k].id in m.made && m.granted[k].id !in m.challenges)
    && (forall k :: 0 <= k < |m.granted| ==> m.granted[k].userID == m.made[m.granted[k].id].userID)
  }

  lemma StepKeepsInv(m: Machine, op: Op)
    requires Inv(m) && Legal(m, op)
    ensures Inv(Next(m, op))
  {
    hide ToLower;
  }

  lemma {:induction false} AlwaysInv(ms: seq<Machine>, ops: seq<Op>, i: nat)
    requires Run(ms, ops) && ms[0] == START && i <= |ops|
    ensures Inv(ms[i])
  {
    hide Legal, Next;
    if i > 0 {
      AlwaysInv(ms, ops, i - 1);
      StepKeepsInv(ms[i - 1], ops[i - 1]);
    }
  }

  /** Sessions go to the users their challenges were made for, and the branch for an unknown
      method is never taken. */
  lemma GrantsGoToTheChallenged(ms: seq<Machine>, ops: seq<Op>, i: nat, k: nat, a: Answer, now: Time)
    requires Run(ms, ops) && ms[0] == START && i <= |ops| && k < |ms[i].granted|
    ensures ms[i].granted[k].id in ms[i].made && ms[i].granted[k].userID == ms[i].made[ms[i].granted[k].id].userID
    ensures Judge(ms[i].challenges, a, now) != Err(UnsupportedMethod)
  {
    hide ToLower, Legal, Next;
    AlwaysInv(ms, ops, i);
  }

  // ---- From the creation of a challenge to its end ----

  /** Step `k` makes the challenge: for somebody, by a known method, with a secret. */
  ghost predicate Makes(ops: seq<Op>, k: nat, id: ID) {
    && k < |ops| && ops[k].Create? && ops[k].newID == id
    && ops[k].user != "" && ToLower(ops[k].requested) in {"totp", "webauthn"} && ops[k].secret.Some?
  }

  lemma StepMakes(m: Machine, op: Op, id: ID)
    requires Legal(m, op)
    ensures id in m.made ==> id in Next(m, op).made && Next(m, op).made[id] == m.made[id]
    ensures id in Next(m, op).made && id !in m.made <==>
      op.Create? && op.newID == id && op.user != "" && ToLower(op.requested) in {"totp", "webauthn"} && op.secret.Some?
    ensures id in Next(m, op).made && id !in m.made ==>
      && id in Next(m, op).challenges
      && Next(m, op).made[id] ==
        Challenge(id, op.user, ToLower(op.requested), op.secret.value, op.now + 300 * 1_000_000_000)
  {
    hide Judge;
    assert ToLower("") == "";
  }

  /** Over every interleaving a challenge that a step makes is for the user and the method that the
      step names, with its secret, and ends five minutes after it. */
  lemma {:induction false} ChallengesKeepTheirTerms(ms: seq<Machine>, ops: seq<Op>, k: nat, i: nat, id: ID)
    requires Run(ms, ops) && k < i <= |ops| && Makes(ops, k, id)
    ensures id in ms[i].made && ms[i].made[id] ==
      Challenge(id, ops[k].user, ToLower(ops[k].requested), ops[k].secret.value, ops[k].now + 300 * 1_000_000_000)
  {
    hide Next, ToLower;
    assert Legal(ms[i - 1], ops[i - 1]) && ms[i] == Next(ms[i - 1], ops[i - 1]);
    StepMakes(ms[i - 1], ops[i - 1], id);
    if i > k + 1 {
      ChallengesKeepTheirTerms(ms, ops, k, i - 1, id);
    }
  }

  /** And every challenge was made by such a step. */
  lemma {:induction false} ChallengesAreMade(ms: seq<Machine>, ops: seq<Op>, i: nat, id: ID)
    requires Run(ms, ops) && ms[0] == START && i <= |ops| && id in ms[i].made
    ensures exists k: nat :: k < i && Makes(ops, k, id)
  {
    hide Next, ToLower;
    assert Legal(ms[i - 1], ops[i - 1]) && ms[i] == Next(ms[i - 1], ops[i - 1]);
    StepMakes(ms[i - 1], ops[i - 1], id);
    if id in ms[i - 1].made {
      ChallengesAreMade(ms, ops, i - 1, id);
    } else {
      assert Makes(ops, i - 1, id);
    }
  }

  /** The answer gives the secret of a challenge in the field of its method. */
  predicate Answers(a: Answer, method_: string, secret: string) {
    if method_ == "totp" then a.code != "" && a.code == secret else a.assertion != "" && a.assertion == secret
  }

  lemma CheckOutcome(m: Machine, op: Op)
    requires Inv(m) && Legal(m, op) && op.Check?
    ensures var n, a := Next(m, op), op.answer;
      if a.challenge.None? || a.challenge.value !in m.challenges then n == m
      else
        var c := m.challenges[a.challenge.value];
        if a.method_ == "" || ToLower(a.method_) != c.method_ then n == m
        else if op.now > c.expiresAt then n == m.(pending := m.pending[op.t := Pending(a.challenge.value, "", false)])
        else if Answers(a, c.method_, c.secret) then
          n == m.(pending := m.pending[op.t := Pending(a.challenge.value, c.userID, true)])
        else n == m
  {
    hide ToLower;
    if op.answer.challenge.Some? && op.answer.challenge.value in m.challenges {
      assert op.answer.challenge.value in m.made;
    }
  }

  /** Over every interleaving, told from the step that made a challenge: an answer to it is let
      through, for the user of that step, if and only if the challenge has not been deleted, the
      method is that of the step up to case, no more than five minutes have passed by the clock of
      the check, and the secret is the one made. */
  lemma AnswersPassExactly(ms: seq<Machine>, ops: seq<Op>, k: nat, i: nat, id: ID)
    requires Run(ms, ops) && ms[0] == START && k < i < |ops| && Makes(ops, k, id)
    requires ops[i].Check? && ops[i].answer.challenge == Some(id)
    ensures var a, t := ops[i].answer, ops[i].t;
      && (t in Holders(ms[i + 1], id) <==>
        && id in ms[i].challenges && ToLower(a.method_) == ToLower(ops[k].requested)
        && ops[i].now <= ops[k].now + 300 * 1_000_000_000
        && Answers(a, ToLower(ops[k].requested), ops[k].secret.value))
      && (t in Holders(ms[i + 1], id) ==> ms[i + 1].pending[t].userID == ops[k].user)
  {
    hide Next;
    ChallengesKeepTheirTerms(ms, ops, k, i, id);
    AlwaysInv(ms, ops, i);
    assert Legal(ms[i], ops[i]) && ms[i + 1] == Next(ms[i], ops[i]);
    CheckOutcome(ms[i], ops[i]);
    BlankIsNoMethod(ops[i].answer);
    hide ToLower, Answers;
  }

  lemma BlankIsNoMethod(a: Answer)
    ensures a.method_ == "" ==> ToLower(a.method_) !in {"totp", "webauthn"}
  {
  }

  /** A challenge is deleted exactly by the second section of a verification of it. */
  lemma ChallengesEndExactly(m: Machine, op: Op, id: ID)
    requires Legal(m, op) && id in m.challenges
    ensures id !in Next(m, op).challenges <==> op.Finish? && m.pending[op.t].id == id
  {
    hide ToLower, Judge;
  }

  // ---- How often ----

  /** Sessions let in plus sessions about to be: what a verification takes from one it gives
      to the other. */
  function Total(m: Machine, id: ID): nat {
    Grants(m.granted, id) + |Holders(m, id)|
  }

  lemma {:induction false} NoGrants(granted: seq<Grant>, id: ID)
    requires forall k :: 0 <= k < |granted| ==> granted[k].id != id
    ensures Grants(granted, id) == 0
  {
    if granted != [] {
      NoGrants(granted[..|granted| - 1], id);
    }
  }

  lemma HoldersLeave(m: Machine, n: Machine, t: ThreadID, id: ID)
    requires t in m.pending && n.pending == m.pending - {t}
    ensures |Holders(m, id)| == |Holders(n, id)| + if t in Holders(m, id) then 1 else 0
  {
    if t in Holders(m, id) {
      assert Holders(m, id) == Holders(n, id) + {t};
    } else {
      assert Holders(m, id) == Holders(n, id);
    }
  }

  lemma FinishKeepsTotal(m: Machine, op: Op, id: ID)
    requires Legal(m, op) && op.Finish?
    ensures Total(Next(m, op), id) == Total(m, id)
  {
    HoldersLeave(m, Next(m, op), op.t, id);
    hide ToLower, Made, Judge;
    var p := m.pending[op.t];
    assert (m.granted + [Grant(p.id, p.userID)])[..|m.granted|] == m.granted;
    assert op.t in Holders(m, id) <==> p.id == id && p.issues;
    hide Holders;
  }

  lemma HoldersEnter(m: Machine, n: Machine, t: ThreadID, id: ID)
    requires t !in m.pending && t in n.pending && n.pending == m.pending[t := n.pending[t]]
    ensures |Holders(n, id)| == |Holders(m, id)| + if t in Holders(n, id) then 1 else 0
  {
    if t in Holders(n, id) {
      assert Holders(n, id) == Holders(m, id) + {t};
    } else {
      assert Holders(n, id) == Holders(m, id);
    }
  }

  /** A check that goes through has found the challenge in the store. */
  lemma CheckFinds(m: Machine, op: Op)
    requires Legal(m, op) && op.Check?
    ensures var n := Next(m, op);
      n != m ==>
        op.t in n.pending && n == m.(pending := m.pending[op.t := n.pending[op.t]])
        && n.pending[op.t].id in m.challenges
  {
  }

  /** Only a check that finds the challenge adds to its total, and then nothing has been let in
      on it yet. */
  lemma CheckMovesTotal(m: Machine, op: Op, id: ID)
    requires Inv(m) && Legal(m, op) && op.Check?
    ensures var n := Next(m, op);
      Total(n, id) == Total(m, id) || (Grants(n.granted, id) == 0 && Total(n, id) == Total(m, id) + 1)
  {
    CheckFinds(m, op);
    hide Next;
    var n := Next(m, op);
    if n != m {
      HoldersEnter(m, n, op.t, id);
      if op.t in Holders(n, id) {
        NoGrants(m.granted, id);
      }
    }
  }

  lemma TotalMoves(m: Machine, op: Op, id: ID)
    requires Inv(m) && Legal(m, op)
    ensures var n := Next(m, op);
      Total(n, id) == Total(m, id) || (Grants(n.granted, id) == 0 && Total(n, id) == Total(m, id) + 1)
  {
    hide ToLower, Made, Judge, Inv;
    match op
    case Create(_, _, _, _, _) => assert Holders(Next(m, op), id) == Holders(m, id);
    case Check(_, _, _) => CheckMovesTotal(m, op, id);
    case Finish(_) => FinishKeepsTotal(m, op, id);
  }

  /** Two of a finite set, or at most one. */
  lemma OverlapIsTwo(m: Machine, id: ID)
    ensures Overlap(m, id) <==> |Holders(m, id)| >= 2
  {
    var hs := Holders(m, id);
    if t, u :| t in hs && u in hs && t != u {
      assert {t, u} <= hs && |{t, u}| == 2;
      assert |hs| == 2 + |hs - {t, u}|;
    }
    if |hs| >= 2 {
      var t :| t in hs;
      assert |hs - {t}| >= 1;
      var u :| u in hs - {t};
      assert u in hs;
    }
  }

  lemma {:induction false} TotalGrows(ms: seq<Machine>, ops: seq<Op>, i: nat, j: nat, id: ID)
    requires Run(ms, ops) && ms[0] == START && i <= j <= |ops|
    ensures Total(ms[i], id) <= Total(ms[j], id)
  {
    hide Legal, Next, Total;
    if i < j {
      TotalGrows(ms, ops, i, j - 1, id);
      AlwaysInv(ms, ops, j - 1);
      TotalMoves(ms[j - 1], ops[j - 1], id);
    }
  }

  lemma {:induction false} NeverTwo(ms: seq<Machine>, ops: seq<Op>, i: nat, id: ID)
    requires Run(ms, ops) && ms[0] == START && i <= |ops|
    requires forall k :: 0 <= k <= i ==> !Overlap(ms[k], id)
    ensures Total(ms[i], id) <= 1
  {
    hide Legal, Next, Overlap, Grants;
    if i == 0 {
      assert Total(ms[0], id) == 0 by {
        assert Holders(ms[0], id) == {};
        NoGrants([], id);
      }
    } else {
      NeverTwo(ms, ops, i - 1, id);
      AlwaysInv(ms, ops, i - 1);
      TotalMoves(ms[i - 1], ops[i - 1], id);
      OverlapIsTwo(ms[i], id);
    }
  }

  /** Once no verification of a challenge is under way: it has let in more than one session if
      and only if at some moment two of its successful verifications were under way at once. */
  lemma ManyGrantsExactlyWhenOverlapping(ms: seq<Machine>, ops: seq<Op>, id: ID)
    requires Run(ms, ops) && ms[0] == START && Holders(ms[|ops|], id) == {}
    ensures Grants(ms[|ops|].granted, id) >= 2 <==> exists k :: 0 <= k <= |ops| && Overlap(ms[k], id)
  {
    hide Legal, Next, Overlap, Holders;
    if k :| 0 <= k <= |ops| && Overlap(ms[k], id) {
      OverlapIsTwo(ms[k], id);
      TotalGrows(ms, ops, k, |ops|, id);
    } else {
      NeverTwo(ms, ops, |ops|, id);
    }
  }

  lemma GrantedTwice(g: Grant)
    ensures Grants([g, g], g.id) == 2
  {
    assert [g, g][..1] == [g] && [g][..0] == [];
    assert Grants([g], g.id) == 1;
  }

  function CodeChallenge(user: string, code: string): Challenge {
    Challenge(0, user, "totp", code, LIFETIME)
  }

  lemma CodeIsMade(user: string, code: string)
    requires user != ""
    ensures Made(user, "totp", Some(code), 0, 0) == Ok(CodeChallenge(user, code))
  {
    assert ToLower("totp") == "totp";
  }

  lemma CodePasses(challenges: map<ID, Challenge>, user: string, code: string)
    requires code != "" && 0 in challenges && challenges[0] == CodeChallenge(user, code)
    ensures Judge(challenges, Answer(Some(0), "totp", code, ""), 0) == Ok(CodeChallenge(user, code))
  {
    assert ToLower("totp") == "totp";
  }

  /** That happens: for any user and code, two verifications that both look the challenge up
      before either deletes it let in two sessions. */
  lemma OverlappingVerificationsBothPass(user: string, code: string) returns (ms: seq<Machine>, ops: seq<Op>)
    requires user != "" && code != ""
    ensures Run(ms, ops) && ms[0] == START && ms[|ops|].pending == map[]
    ensures Grants(ms[|ops|].granted, 0) == 2
  {
    hide ToLower, Made, Judge, CodeChallenge, Grants;
    var answer, c, p := Answer(Some(0), "totp", code, ""), CodeChallenge(user, code), Pending(0, user, true);
    assert c.userID == user by {
      UserOf(user, code);
    }
    ops := [Create(user, "totp", Some(code), 0, 0), Check(0, answer, 0), Check(1, answer, 0), Finish(0), Finish(1)];
    CodeIsMade(user, code);
    CodePasses(map[0 := c], user, code);
    var m1 := Machine(map[0 := c], map[], map[0 := c], []);
    assert m1 == Next(START, ops[0]);
    var m2 := m1.(pending := map[0 := p]);
    assert m2 == Next(m1, ops[1]);
    var m3 := m1.(pending := map[0 := p, 1 := p]);
    assert m3 == Next(m2, ops[2]);
    var m4 := Machine(map[], map[1 := p], map[0 := c], [Grant(0, user)]);
    assert m4 == Next(m3, ops[3]);
    var m5 := Machine(map[], map[], map[0 := c], [Grant(0, user), Grant(0, user)]);
    assert m5 == Next(m4, ops[4]);
    hide Next, Legal;
    ms := [START, m1, m2, m3, m4, m5];
    GrantedTwice(Grant(0, user));
  }

  lemma UserOf(user: string, code: string)
    ensures CodeChallenge(user, code).userID == user
  {
  }
}
