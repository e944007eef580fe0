/** Every interleaving of the critical sections of the group operations. An assignment checks
    that the role exists, then changes the mapping and lists the group's roles, then looks up
    their names one by one, then applies the names to the users. A reconciliation sets the
    membership first and lists the roles in a later section. */
module GroupInterleavings {
  import opened Text
  import opened SortedKeys
  import opened Groups
  import opened GroupRuns

  type ThreadID = nat

  /** How far a call has come. `names` are those looked up for the first `k` listed roles. */
  datatype Phase =
    | Checked(group: string, role: string)
    | Joined(group: string)
    | Naming(group: string, ids: seq<string>, k: nat, names: seq<string>)

  datatype Machine = Machine(s: State, calls: map<ThreadID, Phase>)

  datatype Op =
    | CheckRole(t: ThreadID, group: string, role: string)
    | MapRole(t: ThreadID)
    | UnmapRole(t: ThreadID, group: string, role: string)
    | Join(t: ThreadID, group: string, memberIDs: seq<string>, now: Time)
    | ListRoles(t: ThreadID)
    | LookUp(t: ThreadID)
    | Apply(t: ThreadID, now: Time)
    | InOneSection(op: GroupRuns.Op)

  predicate Mentions(x: Phase, role: string) {
    match x
    case Checked(_, r) => r == role
    case Joined(_) => false
    case Naming(_, ids, _, _) => role in ids
  }

  /** Generated role ids are new, and each call has a thread of its own. */
  ghost predicate Legal(m: Machine, op: Op) {
    match op
    case CheckRole(t, _, _) => t !in m.calls
    case MapRole(t) => t in m.calls && m.calls[t].Checked?
    case UnmapRole(t, _, _) => t !in m.calls
    case Join(t, _, _, _) => t !in m.calls
    case ListRoles(t) => t in m.calls && m.calls[t].Joined?
    case LookUp(t) => t in m.calls && m.calls[t].Naming? && m.calls[t].k < |m.calls[t].ids|
    case Apply(t, _) => t in m.calls && m.calls[t].Naming? && m.calls[t].k == |m.calls[t].ids|
    case InOneSection(op) =>
      && (op.SoftDelete? || op.CreateRole? || op.DeleteRole?)
      && GroupRuns.Legal(m.s, op)
      && (op.CreateRole? ==> forall t :: t in m.calls ==> !Mentions(m.calls[t], op.newID))
  }

  function WithRole(mappings: map<string, set<string>>, g: string, r: string): map<string, set<string>> {
    mappings[g := RolesOf(mappings, g) + {r}]
  }

  function WithoutRole(mappings: map<string, set<string>>, g: string, r: string): map<string, set<string>> {
    if RolesOf(mappings, g) - {r} == {} then mappings - {g} else mappings[g := mappings[g] - {r}]
  }

  ghost function Listed(mappings: map<string, set<string>>, g: string): Phase {
    Naming(g, SortedOf(RolesOf(mappings, g)), 0, [])
  }

  function Named(x: Phase, roles: map<string, Role>): Phase
    requires x.Naming? && x.k < |x.ids|
  {
    x.(k := x.k + 1, names := x.names + if x.ids[x.k] in roles then [roles[x.ids[x.k]].name] else [])
  }

  ghost function Next(m: Machine, op: Op): Machine
    requires Legal(m, op)
  {
    match op
    case CheckRole(t, group, role) =>
      var g, r := TrimSpace(group), TrimSpace(role);
      if g == "" || r == "" || r !in m.s.roles then m else m.(calls := m.calls[t := Checked(g, r)])
    case MapRole(t) =>
      var x := m.calls[t];
      var mapped := WithRole(m.s.mappings, x.group, x.role);
      Machine(m.s.(mappings := mapped), m.calls[t := Listed(mapped, x.group)])
    case UnmapRole(t, group, role) =>
      var g, r := TrimSpace(group), TrimSpace(role);
      if g == "" || r == "" || g !in m.s.mappings then m
      else
        var mapped := WithoutRole(m.s.mappings, g, r);
        Machine(m.s.(mappings := mapped), m.calls[t := Listed(mapped, g)])
    case Join(t, group, memberIDs, now) =>
      var g := TrimSpace(group);
      if g == "" then m
      else Machine(m.s.(users := JoinAll(m.s.users, g, TrimmedSet(memberIDs), now)), m.calls[t := Joined(g)])
    case ListRoles(t) => m.(calls := m.calls[t := Listed(m.s.mappings, m.calls[t].group)])
    case LookUp(t) => m.(calls := m.calls[t := Named(m.calls[t], m.s.roles)])
    case Apply(t, now) =>
      var x := m.calls[t];
      Machine(m.s.(users := MapAll(m.s.users, x.group, x.names, now)), m.calls - {t})
    case InOneSection(op) => m.(s := GroupRuns.Next(m.s, op))
  }

  ghost predicate Run(ms: seq<Machine>, ops: seq<Op>) {
    && |ms| == |ops| + 1
    && forall i :: 0 <= i < |ops| ==> Legal(ms[i], ops[i]) && ms[i + 1] == Next(ms[i], ops[i])
  }

  // ---- What a call in flight still owes ----

  /** The call holds a list with this role, which it has yet to apply for the group. */
  predicate HoldsStale(x: Phase, group: string, role: string) {
    x.Naming? && x.group == group && role in x.ids
  }

  /** The call will yet apply this role for this group. */
  ghost predicate Owes(m: Machine, t: ThreadID, group: string, role: string) {
    t in m.calls && (m.calls[t] == Joined(group) || HoldsStale(m.calls[t], group, role))
  }

  ghost predicate Settled(s: State, user: string, group: string, role: string) {
    user in s.users && role in s.roles && (Holds(s, user, role) <==> MemberOf(s, user, group))
  }

  ghost predicate Covered(m: Machine, user: string, group: string, role: string) {
    Settled(m.s, user, group, role) || exists t :: Owes(m, t, group, role)
  }

  /** Every live user holds each existing role of the group exactly if a member, except where a
      call in flight will yet apply the role. */
  ghost predicate CoveredFor(m: Machine, group: string) {
    forall user, role :: Live(m.s, user) && MappedTo(m.s, role, group) ==> Covered(m, user, group, role)
  }

  /** Another call than this one will yet apply the role. */
  ghost predicate OwedByAnother(m: Machine, t: ThreadID, group: string, role: string) {
    exists u :: u != t && Owes(m, u, group, role)
  }

  /** The names a call has looked up include those of all listed roles so far that still exist. */
  ghost predicate NamesKnown(roles: map<string, Role>, x: Phase) {
    x.Naming? ==>
      && x.k <= |x.ids|
      && (forall name :: name in x.names ==> Clean(name))
      && (forall j :: 0 <= j < x.k && x.ids[j] in roles ==> roles[x.ids[j]].name in x.names)
  }

  ghost predicate Inv(m: Machine) {
    RolesClean(m.s.roles) && forall t :: t in m.calls ==> NamesKnown(m.s.roles, m.calls[t])
  }

  /** What a step does to a group that it does not apply: where it applies the name of an existing
      role of the group, the user is in both groups or in neither, or another call in flight will
      yet apply the role for the group. Every step that applies nothing is harmless. */
  ghost predicate Harmless(m: Machine, op: Op, group: string)
    requires Legal(m, op)
  {
    op.Apply? ==>
      var x := m.calls[op.t];
      forall user, role :: Live(m.s, user) && MappedTo(m.s, role, group) && m.s.roles[role].name in x.names ==>
        (MemberOf(m.s, user, x.group) <==> MemberOf(m.s, user, group)) || OwedByAnother(m, op.t, group, role)
  }

  // ---- Steps ----

  lemma NamedKnown(roles: map<string, Role>, x: Phase)
    requires RolesClean(roles) && NamesKnown(roles, x) && x.Naming? && x.k < |x.ids|
    ensures NamesKnown(roles, Named(x, roles))
  {
    hide Trimmed;
  }

  lemma OneSectionKeepsKnown(m: Machine, op: Op, x: Phase)
    requires Legal(m, op) && op.InOneSection? && NamesKnown(m.s.roles, x)
    requires op.op.CreateRole? ==> !Mentions(x, op.op.newID)
    ensures NamesKnown(Next(m, op).s.roles, x)
  {
    hide Clean, TrimSpace, ToLower, Lists.Kept, Lists.FirstOccurrences;
  }

  lemma OneSectionIsClean(s: State, op: GroupRuns.Op)
    requires RolesClean(s.roles) && (op.SoftDelete? || op.CreateRole? || op.DeleteRole?)
    ensures RolesClean(GroupRuns.Next(s, op).roles)
  {
    hide TrimSpace, ToLower, Lists.Kept, Lists.FirstOccurrences;
  }

  lemma StepKeepsInv(m: Machine, op: Op)
    requires Inv(m) && Legal(m, op)
    ensures Inv(Next(m, op))
  {
    hide TrimSpace, Clean, RolesOf, SortedOf, JoinAll, MapAll, RolesClean, GroupRuns.Next;
    if op.InOneSection? {
      OneSectionIsClean(m.s, op.op);
      forall t | t in m.calls
        ensures NamesKnown(Next(m, op).s.roles, m.calls[t])
      {
        OneSectionKeepsKnown(m, op, m.calls[t]);
      }
    } else if op.LookUp? {
      NamedKnown(m.s.roles, m.calls[op.t]);
    }
  }

  lemma {:induction false} AlwaysInv(ms: seq<Machine>, ops: seq<Op>, i: nat)
    requires Run(ms, ops) && Initial(ms[0].s) && ms[0].calls == map[] && i <= |ops|
    ensures Inv(ms[i])
  {
    hide Legal, Next, RolesClean;
    if i > 0 {
      AlwaysInv(ms, ops, i - 1);
      StepKeepsInv(ms[i - 1], ops[i - 1]);
    }
  }

  lemma ListedOwes(mappings: map<string, set<string>>, g: string)
    ensures forall role :: role in RolesOf(mappings, g) ==> HoldsStale(Listed(mappings, g), g, role)
  {
  }

  /** A mapping change for one group, after which a new list of its roles is in flight. */
  lemma RemapCovers(m: Machine, n: Machine, t: ThreadID, g: string, group: string)
    requires n.s == m.s.(mappings := n.s.mappings)
    requires forall h :: h != g ==> RolesOf(n.s.mappings, h) == RolesOf(m.s.mappings, h)
    requires n.calls == m.calls[t := Listed(n.s.mappings, g)] && (t in m.calls ==> m.calls[t].Checked?)
    ensures group == g || CoveredFor(m, group) ==> CoveredFor(n, group)
  {
    hide SortedOf, Listed;
    ListedOwes(n.s.mappings, g);
    if group == g || CoveredFor(m, group) {
      forall user, role | Live(n.s, user) && MappedTo(n.s, role, group)
        ensures Covered(n, user, group, role)
      {
        if group == g {
          assert Owes(n, t, group, role);
        } else {
          assert Live(m.s, user) && MappedTo(m.s, role, group) && Covered(m, user, group, role);
          if u :| Owes(m, u, group, role) {
            assert u != t && Owes(n, u, group, role);
          }
        }
      }
    }
  }

  /** The step makes a call that will apply all roles of the group. */
  ghost predicate Renews(m: Machine, op: Op, group: string)
    requires Legal(m, op)
  {
    match op
    case MapRole(t) => m.calls[t].group == group
    case UnmapRole(_, g, role) =>
      TrimSpace(g) != "" && TrimSpace(role) != "" && TrimSpace(g) in m.s.mappings && TrimSpace(g) == group
    case Join(_, g, _, _) => TrimSpace(g) != "" && TrimSpace(g) == group
    case _ => false
  }

  lemma MappingCovers(m: Machine, op: Op, group: string)
    requires Legal(m, op) && (op.MapRole? || op.UnmapRole?)
    ensures Renews(m, op, group) || CoveredFor(m, group) ==> CoveredFor(Next(m, op), group)
  {
    hide CoveredFor, SortedOf, TrimSpace;
    var n := Next(m, op);
    if op.MapRole? {
      RemapCovers(m, n, op.t, m.calls[op.t].group, group);
    } else if n != m {
      var g := TrimSpace(op.group);
      assert forall h :: h != g ==> RolesOf(n.s.mappings, h) == RolesOf(m.s.mappings, h);
      RemapCovers(m, n, op.t, g, group);
    }
  }

  lemma JoinCovers(m: Machine, op: Op, group: string)
    requires Legal(m, op) && op.Join?
    ensures Renews(m, op, group) || CoveredFor(m, group) ==> CoveredFor(Next(m, op), group)
  {
    hide RolesClean, TrimSpace, TrimmedSet, JoinAll, HoldsStale, RolesOf;
    var n, g := Next(m, op), TrimSpace(op.group);
    if g != "" && (group == g || CoveredFor(m, group)) {
      JoinFrame(m.s, g, TrimmedSet(op.memberIDs), op.now);
      forall user, role | Live(n.s, user) && MappedTo(n.s, role, group)
        ensures Covered(n, user, group, role)
      {
        if group == g {
          assert Owes(n, op.t, group, role);
        } else {
          assert Live(m.s, user) && MappedTo(m.s, role, group) && Covered(m, user, group, role);
          if u :| Owes(m, u, group, role) {
            assert Owes(n, u, group, role);
          }
        }
      }
    }
  }

  /** One call moved on: it owes no less than before, and the store stayed as it was. */
  lemma MoveCovers(m: Machine, n: Machine, t: ThreadID, group: string)
    requires CoveredFor(m, group) && n.s == m.s && t in n.calls && n.calls == m.calls[t := n.calls[t]]
    requires forall role :: MappedTo(m.s, role, group) && Owes(m, t, group, role) ==> Owes(n, t, group, role)
    ensures CoveredFor(n, group)
  {
    hide HoldsStale;
    forall user, role | Live(n.s, user) && MappedTo(n.s, role, group)
      ensures Covered(n, user, group, role)
    {
      assert Covered(m, user, group, role);
      if u :| Owes(m, u, group, role) {
        assert Owes(n, u, group, role);
      }
    }
  }

  lemma MovingCovers(m: Machine, op: Op, group: string)
    requires Legal(m, op) && (op.CheckRole? || op.ListRoles? || op.LookUp?) && CoveredFor(m, group)
    ensures CoveredFor(Next(m, op), group)
  {
    hide CoveredFor, SortedOf, TrimSpace;
    if Next(m, op) != m {
      if op.ListRoles? {
        ListedOwes(m.s.mappings, m.calls[op.t].group);
      }
      MoveCovers(m, Next(m, op), op.t, group);
    }
  }

  lemma OneSectionCovers(m: Machine, op: Op, group: string)
    requires Legal(m, op) && op.InOneSection? && CoveredFor(m, group)
    ensures CoveredFor(Next(m, op), group)
  {
    hide TrimSpace, ToLower, Lists.Kept, Lists.FirstOccurrences, RolesOf, HoldsStale;
    var n := Next(m, op);
    forall user, role | Live(n.s, user) && MappedTo(n.s, role, group)
      ensures Covered(n, user, group, role)
    {
      assert Live(m.s, user) && MappedTo(m.s, role, group) && Covered(m, user, group, role);
      if u :| Owes(m, u, group, role) {
        assert Owes(n, u, group, role);
      }
    }
  }

  /** What an application leaves of one user and role: a role whose name it applies is settled if
      the memberships agree, and any other role as before. */
  lemma AppliedCovers(m: Machine, op: Op, user: string, group: string, role: string)
    requires Inv(m) && Legal(m, op) && op.Apply? && Live(m.s, user) && MappedTo(m.s, role, group)
    ensures var n, x := Next(m, op), m.calls[op.t];
      && Live(n.s, user) && MappedTo(n.s, role, group)
      && (Covered(n, user, group, role) <==>
        || OwedByAnother(m, op.t, group, role)
        || if m.s.roles[role].name in x.names then MemberOf(m.s, user, x.group) <==> MemberOf(m.s, user, group)
           else Settled(m.s, user, group, role))
      && (Owes(m, op.t, group, role) ==> m.s.roles[role].name in x.names)
  {
    hide RolesClean, MapAll, RolesOf, Clean;
    var n, x := Next(m, op), m.calls[op.t];
    assert NamesKnown(m.s.roles, x);
    assert n.s == WithNames(m.s, x.group, x.names, op.now);
    NamedFrame(m.s, x.group, x.names, op.now);
    NamedRoles(m.s, x.group, x.names, op.now, user, role);
    assert forall u :: u != op.t ==> (Owes(n, u, group, role) <==> Owes(m, u, group, role));
    assert !Owes(n, op.t, group, role);
  }

  lemma ApplyExactly(m: Machine, op: Op, group: string)
    requires Inv(m) && Legal(m, op) && op.Apply? && CoveredFor(m, group)
    ensures CoveredFor(Next(m, op), group) <==> Harmless(m, op, group)
  {
    hide Inv, MapAll, RolesOf, Settled, OwedByAnother, Next;
    var n := Next(m, op);
    ApplyFrame(m, op);
    forall user, role | Live(m.s, user) && MappedTo(m.s, role, group)
      ensures var x := m.calls[op.t];
        Covered(n, user, group, role) <==>
          (m.s.roles[role].name in x.names ==>
            (MemberOf(m.s, user, x.group) <==> MemberOf(m.s, user, group)) || OwedByAnother(m, op.t, group, role))
    {
      AppliedCovers(m, op, user, group, role);
      if Covered(m, user, group, role) && !Settled(m.s, user, group, role) {
        OwedBySome(m, op.t, group, role);
      }
    }
    hide Covered;
  }

  lemma OwedBySome(m: Machine, t: ThreadID, group: string, role: string)
    requires exists u :: Owes(m, u, group, role)
    ensures Owes(m, t, group, role) || OwedByAnother(m, t, group, role)
  {
  }

  lemma ApplyFrame(m: Machine, op: Op)
    requires Legal(m, op) && op.Apply?
    ensures forall user :: Live(Next(m, op).s, user) <==> Live(m.s, user)
    ensures forall role, group :: MappedTo(Next(m, op).s, role, group) <==> MappedTo(m.s, role, group)
  {
    hide MapAll, RolesOf;
    var x := m.calls[op.t];
    assert Next(m, op).s == WithNames(m.s, x.group, x.names, op.now);
    NamedFrame(m.s, x.group, x.names, op.now);
  }

  /** A step keeps a group covered if and only if it is harmless to it. */
  lemma StepExactly(m: Machine, op: Op, group: string)
    requires Inv(m) && Legal(m, op) && CoveredFor(m, group)
    ensures CoveredFor(Next(m, op), group) <==> Harmless(m, op, group)
  {
    hide Inv, CoveredFor, Next, TrimSpace, RolesOf;
    match op
    case CheckRole(_, _, _) => MovingCovers(m, op, group);
    case MapRole(_) => MappingCovers(m, op, group);
    case UnmapRole(_, _, _) => MappingCovers(m, op, group);
    case Join(_, _, _, _) => JoinCovers(m, op, group);
    case ListRoles(_) => MovingCovers(m, op, group);
    case LookUp(_) => MovingCovers(m, op, group);
    case Apply(_, _) => ApplyExactly(m, op, group);
    case InOneSection(_) => OneSectionCovers(m, op, group);
  }

  /** Where a group is covered whatever happened before: while it has no roles, and just after its
      mapping was changed or its membership set. */
  lemma CoveredPoints(m: Machine, op: Op, group: string)
    requires Legal(m, op)
    ensures RolesOf(m.s.mappings, group) == {} ==> CoveredFor(m, group)
    ensures Renews(m, op, group) ==> CoveredFor(Next(m, op), group)
  {
    hide Next, TrimSpace;
    if Renews(m, op, group) {
      if op.Join? {
        JoinCovers(m, op, group);
      } else {
        MappingCovers(m, op, group);
      }
    }
  }

  /** Over every interleaving, from any point where a group is covered: it stays covered if and
      only if every step is harmless to it. */
  lemma {:induction false} GroupsAreCoveredExactly(ms: seq<Machine>, ops: seq<Op>, i: nat, j: nat, group: string)
    requires Run(ms, ops) && Initial(ms[0].s) && ms[0].calls == map[] && i <= j <= |ops|
    requires CoveredFor(ms[i], group)
    ensures (forall k :: i <= k <= j ==> CoveredFor(ms[k], group)) <==>
      (forall k :: i <= k < j ==> Harmless(ms[k], ops[k], group))
  {
    hide Legal, Next, RolesClean, CoveredFor, Harmless;
    if i < j {
      GroupsAreCoveredExactly(ms, ops, i, j - 1, group);
      if CoveredFor(ms[j - 1], group) {
        AlwaysInv(ms, ops, j - 1);
        assert ms[j] == Next(ms[j - 1], ops[j - 1]);
        StepExactly(ms[j - 1], ops[j - 1], group);
      }
    }
  }

  /** Over every interleaving whose steps are harmless to a group since it was last covered:
      whenever no call on it is between its two ends, every live user holds each existing role of
      the group exactly if a member of it. */
  lemma SettledGroupsAreExact(ms: seq<Machine>, ops: seq<Op>, i: nat, j: nat, group: string)
    requires Run(ms, ops) && Initial(ms[0].s) && ms[0].calls == map[] && i <= j <= |ops|
    requires CoveredFor(ms[i], group)
    requires forall k :: i <= k < j ==> Harmless(ms[k], ops[k], group)
    requires forall t :: t in ms[j].calls && !ms[j].calls[t].Checked? ==> ms[j].calls[t].group != group
    ensures ExactFor(ms[j].s, group)
  {
    hide Legal, Next, RolesClean, Harmless;
    GroupsAreCoveredExactly(ms, ops, i, j, group);
    assert CoveredFor(ms[j], group);
    forall user, role | Live(ms[j].s, user) && MappedTo(ms[j].s, role, group)
      ensures Settled(ms[j].s, user, group, role)
    {
      assert Covered(ms[j], user, group, role);
    }
  }

  /** An application is harmless to every group as long as the existing roles whose names it looked
      up are mapped to no group but its own. */
  lemma OwnNamesAreHarmless(m: Machine, op: Op, group: string)
    requires Legal(m, op) && op.Apply?
    requires forall role, other :: MappedTo(m.s, role, other) && m.s.roles[role].name in m.calls[op.t].names ==>
      other == m.calls[op.t].group
    ensures Harmless(m, op, group)
  {
  }

  // ---- Uninterrupted calls ----

  /** A run from one machine to another. */
  ghost predicate Leads(m: Machine, ms: seq<Machine>, ops: seq<Op>, n: Machine) {
    Run(ms, ops) && ms[0] == m && ms[|ops|] == n
  }

  /** No state maps a role to two groups. */
  ghost predicate Tidy(ms: seq<Machine>) {
    forall k :: 0 <= k < |ms| ==> Disjoint(ms[k].s.mappings)
  }

  lemma Then(m: Machine, ms: seq<Machine>, ops: seq<Op>, n: Machine, ms': seq<Machine>, ops': seq<Op>, q: Machine)
    returns (all: seq<Machine>, done: seq<Op>)
    requires Leads(m, ms, ops, n) && Leads(n, ms', ops', q)
    ensures Leads(m, all, done, q)
    ensures Tidy(ms) && Tidy(ms') ==> Tidy(all)
  {
    hide Legal, Next, Disjoint;
    all, done := ms + ms'[1..], ops + ops';
    forall i | 0 <= i < |done|
      ensures Legal(all[i], done[i]) && all[i + 1] == Next(all[i], done[i])
    {
      if i >= |ops| {
        assert all[i] == ms'[i - |ops|] && all[i + 1] == ms'[i + 1 - |ops|] && done[i] == ops'[i - |ops|];
      }
    }
  }

  lemma Step(m: Machine, op: Op, n: Machine) returns (ms: seq<Machine>, ops: seq<Op>)
    requires Legal(m, op) && n == Next(m, op)
    ensures Leads(m, ms, ops, n)
    ensures Disjoint(m.s.mappings) && Disjoint(n.s.mappings) ==> Tidy(ms)
  {
    hide Legal, Next, Disjoint;
    ms, ops := [m, n], [op];
  }

  ghost function Completed(m: Machine, t: ThreadID, now: Time): Machine
    requires t in m.calls && m.calls[t].Naming?
  {
    Machine(WithRoles(m.s, m.calls[t].group, m.calls[t].ids, now), m.calls - {t})
  }

  /** The names looked up are those of the first `k` listed roles. */
  ghost predicate NamesFit(s: State, x: Phase) {
    x.Naming? ==> x.k <= |x.ids| && x.names == NamesFor(s.roles, x.ids[..x.k])
  }

  lemma NothingNamed(s: State, x: Phase)
    requires x.Naming? && x.k == 0 && x.names == []
    ensures NamesFit(s, x)
  {
  }

  lemma NamedFits(s: State, x: Phase)
    requires NamesFit(s, x) && x.Naming? && x.k < |x.ids|
    ensures NamesFit(s, Named(x, s.roles))
  {
    assert x.ids[..x.k + 1][..x.k] == x.ids[..x.k];
  }

  /** A listed call left to itself looks up the remaining names and applies the whole list. */
  lemma {:induction false} Completes(m: Machine, t: ThreadID, now: Time) returns (ms: seq<Machine>, ops: seq<Op>)
    requires t in m.calls && m.calls[t].Naming? && NamesFit(m.s, m.calls[t])
    ensures Leads(m, ms, ops, Completed(m, t, now))
    ensures Disjoint(m.s.mappings) ==> Tidy(ms)
    decreases |m.calls[t].ids| - m.calls[t].k
  {
    hide Leads, Tidy, Disjoint, MapAll, NamesFor;
    var x := m.calls[t];
    if x.k == |x.ids| {
      assert x.ids[..x.k] == x.ids;
      ms, ops := Step(m, Apply(t, now), Completed(m, t, now));
    } else {
      var n := m.(calls := m.calls[t := Named(x, m.s.roles)]);
      var ms1, ops1 := Step(m, LookUp(t), n);
      NamedFits(m.s, x);
      var ms2, ops2 := Completes(n, t, now);
      assert n.calls - {t} == m.calls - {t};
      assert Completed(n, t, now) == Completed(m, t, now);
      ms, ops := Then(m, ms1, ops1, n, ms2, ops2, Completed(m, t, now));
    }
  }

  /** A listed call that follows one step, both of a new thread, up to its end. */
  lemma ThenCompletes(m: Machine, op: Op, t: ThreadID, s: State, g: string, now: Time)
    returns (ms: seq<Machine>, ops: seq<Op>)
    requires Legal(m, op) && Next(m, op) == Machine(s, m.calls[t := Listed(s.mappings, g)])
    ensures Leads(m, ms, ops, Machine(Applied(s, g, now), m.calls - {t}))
    ensures Disjoint(m.s.mappings) && Disjoint(s.mappings) ==> Tidy(ms)
  {
    hide Leads, Tidy, Disjoint, MapAll, Next, Legal, SortedOf;
    var n := Next(m, op);
    var ms1, ops1 := Step(m, op, n);
    var ms2, ops2 := Completes(n, t, now);
    assert n.calls - {t} == m.calls - {t};
    assert Completed(n, t, now) == Machine(Applied(s, g, now), m.calls - {t});
    ms, ops := Then(m, ms1, ops1, n, ms2, ops2, Completed(n, t, now));
  }

  lemma RemoveNew<K, V>(calls: map<K, V>, t: K, v: V)
    requires t !in calls
    ensures calls - {t} == calls && calls[t := v] - {t} == calls
  {
  }

  lemma AssignAlone(m: Machine, t: ThreadID, group: string, role: string, now: Time)
    returns (ms: seq<Machine>, ops: seq<Op>)
    requires t !in m.calls
    ensures Leads(m, ms, ops, m.(s := AssignNext(m.s, group, role, now).0))
    ensures Disjoint(m.s.mappings) && Disjoint(AssignNext(m.s, group, role, now).0.mappings) ==> Tidy(ms)
  {
    hide Leads, Tidy, Disjoint, TrimSpace, Applied, Reported, SortedOf, RolesOf;
    var g, r := TrimSpace(group), TrimSpace(role);
    var check := CheckRole(t, group, role);
    var n := Next(m, check);
    var ms1, ops1 := Step(m, check, n);
    if n == m {
      ms, ops := ms1, ops1;
    } else {
      RemoveNew(m.calls, t, Checked(g, r));
      var mid := m.s.(mappings := WithRole(m.s.mappings, g, r));
      MidMappings(mid, g, now);
      assert n.calls[t := Listed(mid.mappings, g)] == m.calls[t := Listed(mid.mappings, g)];
      var ms2, ops2 := ThenCompletes(n, MapRole(t), t, mid, g, now);
      ms, ops := Then(m, ms1, ops1, n, ms2, ops2, Machine(Applied(mid, g, now), m.calls));
    }
  }

  lemma MidMappings(s: State, g: string, now: Time)
    ensures Applied(s, g, now).mappings == s.mappings
  {
  }

  lemma UnassignAlone(m: Machine, t: ThreadID, group: string, role: string, now: Time)
    returns (ms: seq<Machine>, ops: seq<Op>)
    requires t !in m.calls
    ensures Leads(m, ms, ops, m.(s := UnassignNext(m.s, group, role, now).0))
    ensures Disjoint(m.s.mappings) && Disjoint(UnassignNext(m.s, group, role, now).0.mappings) ==> Tidy(ms)
  {
    hide Leads, Tidy, Disjoint, TrimSpace, Applied, Reported, SortedOf;
    var g, r := TrimSpace(group), TrimSpace(role);
    var op := UnmapRole(t, group, role);
    var n := Next(m, op);
    if g == "" || r == "" || g !in m.s.mappings {
      ms, ops := Step(m, op, m);
    } else {
      var mid := m.s.(mappings := WithoutRole(m.s.mappings, g, r));
      MidMappings(mid, g, now);
      RemoveNew(m.calls, t, Listed(mid.mappings, g));
      ms, ops := ThenCompletes(m, op, t, mid, g, now);
    }
  }

  lemma ReconcileAlone(m: Machine, t: ThreadID, group: string, memberIDs: seq<string>, now: Time, later: Time)
    returns (ms: seq<Machine>, ops: seq<Op>)
    requires t !in m.calls
    ensures Leads(m, ms, ops, m.(s := ReconcileNext(m.s, group, memberIDs, now, later).0))
    ensures Disjoint(m.s.mappings) ==> Tidy(ms)
  {
    hide Leads, Tidy, Disjoint, TrimSpace, Applied, Reported, SortedOf, JoinAll, TrimmedSet;
    var g := TrimSpace(group);
    var op := Join(t, group, memberIDs, now);
    var n := Next(m, op);
    var ms1, ops1 := Step(m, op, n);
    if g == "" {
      ms, ops := ms1, ops1;
    } else {
      RemoveNew(m.calls, t, Joined(g));
      assert n.calls[t := Listed(n.s.mappings, g)] == m.calls[t := Listed(n.s.mappings, g)];
      var ms2, ops2 := ThenCompletes(n, ListRoles(t), t, n.s, g, later);
      ms, ops := Then(m, ms1, ops1, n, ms2, ops2, Machine(Applied(n.s, g, later), m.calls));
    }
  }

  /** The three group operations as one: run without interruption, the sections of a call have
      the effect of the whole operation and leave no call behind. */
  lemma UninterruptedCalls(m: Machine, t: ThreadID, op: GroupRuns.Op) returns (ms: seq<Machine>, ops: seq<Op>)
    requires t !in m.calls && (op.AssignRole? || op.UnassignRole? || op.Reconcile?)
    ensures Leads(m, ms, ops, m.(s := GroupRuns.Next(m.s, op)))
  {
    hide Leads, Tidy, Disjoint, AssignNext, UnassignNext, ReconcileNext;
    match op
    case AssignRole(g, r, now) => ms, ops := AssignAlone(m, t, g, r, now);
    case UnassignRole(g, r, now) => ms, ops := UnassignAlone(m, t, g, r, now);
    case Reconcile(g, ids, now, later) => ms, ops := ReconcileAlone(m, t, g, ids, now, later);
    case _ =>
  }

  // ---- What a stale list does ----

  /** A call about to apply the name of a role that is mapped to another group leaves that role
      exact for the other group if and only if the two groups have the same live members. */
  lemma StaleListExactly(m: Machine, op: Op, other: string, role: string)
    requires Inv(m) && Legal(m, op) && op.Apply? && MappedTo(m.s, role, other)
    requires m.s.roles[role].name in m.calls[op.t].names
    ensures var n, x := Next(m, op), m.calls[op.t];
      (forall user :: Live(n.s, user) ==> Settled(n.s, user, other, role)) <==>
      (forall user :: Live(m.s, user) ==> (MemberOf(m.s, user, x.group) <==> MemberOf(m.s, user, other)))
  {
    hide RolesClean, MapAll, Clean, RolesOf;
    var n, x := Next(m, op), m.calls[op.t];
    assert NamesKnown(m.s.roles, x);
    assert n.s == WithNames(m.s, x.group, x.names, op.now);
    NamedFrame(m.s, x.group, x.names, op.now);
    forall user | Live(m.s, user)
      ensures Settled(n.s, user, other, role) <==> (MemberOf(m.s, user, x.group) <==> MemberOf(m.s, user, other))
    {
      NamedRoles(m.s, x.group, x.names, op.now, user, role);
    }
    assert forall user :: Live(n.s, user) <==> Live(m.s, user);
  }

  /** A single mapping never shares a role. */
  lemma OneGroupDisjoint(mappings: map<string, set<string>>, g: string)
    requires mappings.Keys <= {g}
    ensures Disjoint(mappings)
  {
  }

  /** A call that assigns a role to a group without any, up to its list. */
  lemma MapsFirst(m: Machine, t: ThreadID, g: string, r: string) returns (ms: seq<Machine>, ops: seq<Op>)
    requires t !in m.calls && Clean(g) && Clean(r) && r in m.s.roles && m.s.mappings == map[]
    ensures Leads(m, ms, ops, Machine(m.s.(mappings := map[g := {r}]), m.calls[t := Listed(map[g := {r}], g)]))
    ensures Tidy(ms)
  {
    hide Trimmed, TrimSpace, Tidy, Disjoint, Leads, SortedOf, Listed;
    var n := m.(calls := m.calls[t := Checked(g, r)]);
    assert {} + {r} == {r};
    assert WithRole(m.s.mappings, g, r) == map[g := {r}];
    var q := Machine(m.s.(mappings := map[g := {r}]), m.calls[t := Listed(map[g := {r}], g)]);
    OneGroupDisjoint(m.s.mappings, g);
    OneGroupDisjoint(q.s.mappings, g);
    var ms1, ops1 := Step(m, CheckRole(t, g, r), n);
    assert n.calls[t := Listed(map[g := {r}], g)] == q.calls;
    var ms2, ops2 := Step(n, MapRole(t), q);
    ms, ops := Then(m, ms1, ops1, n, ms2, ops2, q);
  }

  /** The only role moves from one group to the other; users keep their groups. */
  lemma MovesRole(s: State, g: string, h: string, r: string)
    requires Clean(g) && Clean(h) && Clean(r) && r in s.roles && s.mappings == map[g := {r}]
    ensures var mid := UnassignNext(s, g, r, 0).0;
      var t := AssignNext(mid, h, r, 0).0;
      && mid.mappings == map[] && t.mappings == map[h := {r}] && t.roles == s.roles
      && t.users.Keys == s.users.Keys
      && (forall u :: u in s.users ==>
        t.users[u].groups == s.users[u].groups && t.users[u].deletedAt == s.users[u].deletedAt)
  {
    hide Trimmed, TrimSpace, Reported, Applied;
    assert WithoutRole(s.mappings, g, r) == map[];
    var cleared := s.(mappings := map[]);
    AppliedFrame(cleared, g, 0);
    var mid := Applied(cleared, g, 0);
    assert UnassignNext(s, g, r, 0).0 == mid;
    var mapped := mid.(mappings := map[h := {r}]);
    assert {} + {r} == {r};
    assert mid.mappings[h := RolesOf(mid.mappings, h) + {r}] == map[h := {r}];
    AppliedFrame(mapped, h, 0);
  }

  /** A step can do harm: for every role, any two groups and a user of the second alone, some
      run with no role in two groups ends, all calls done, with the user lacking the role. A
      list made for the first group outlives the role's move to the second. */
  lemma StaleListBreaksExactness(g: string, h: string, role: Role, user: User)
    returns (ms: seq<Machine>, ops: seq<Op>)
    requires g != h && Clean(g) && Clean(h) && Clean(role.id) && Clean(role.name)
    requires user.deletedAt.None? && h in user.groups && g !in user.groups
    ensures Run(ms, ops) && Initial(ms[0].s) && Tidy(ms)
    ensures ms[0].calls == map[] && ms[|ops|].calls == map[]
    ensures Live(ms[|ops|].s, user.id) && MappedTo(ms[|ops|].s, role.id, h)
    ensures !Settled(ms[|ops|].s, user.id, h, role.id)
  {
    hide Trimmed, TrimSpace, Tidy, Disjoint, MapAll, NamesFor, SortedOf, Next, Legal, AssignNext, UnassignNext, Run;
    var r := role.id;
    var s0 := State(map[user.id := user], map[], map[r := role]);
    var m0 := Machine(s0, map[]);
    var ms1, ops1 := MapsFirst(m0, 0, g, r);
    var m1 := Machine(s0.(mappings := map[g := {r}]), map[0 := Listed(map[g := {r}], g)]);
    MovesRole(m1.s, g, h, r);
    var m2 := m1.(s := UnassignNext(m1.s, g, r, 0).0);
    var m3 := m2.(s := AssignNext(m2.s, h, r, 0).0);
    OneGroupDisjoint(m1.s.mappings, g);
    OneGroupDisjoint(m2.s.mappings, g);
    OneGroupDisjoint(m3.s.mappings, h);
    var ms2, ops2 := UnassignAlone(m1, 1, g, r, 0);
    var ms3, ops3 := AssignAlone(m2, 2, h, r, 0);
    NothingNamed(m3.s, m3.calls[0]);
    var ms4, ops4 := Completes(m3, 0, 0);
    var m4 := Completed(m3, 0, 0);
    NamedFrame(m3.s, g, NamesFor(m3.s.roles, m3.calls[0].ids), 0);
    ListedRoles(m3.s, g, m3.calls[0].ids, 0, user.id, r);
    hide Completed;
    ms, ops := Then(m0, ms1, ops1, m1, ms2, ops2, m2);
    ms, ops := Then(m0, ms, ops, m2, ms3, ops3, m3);
    ms, ops := Then(m0, ms, ops, m3, ms4, ops4, m4);
  }

  lemma OnlyOne(r: string)
    ensures SortedOf({r}) == [r]
  {
    hide Less;
    AscendingUnique(SortedOf({r}), [r]);
  }

  /** A role deleted, and a new one made of the same name. */
  lemma Renewed(m: Machine, role: Role, newID: string) returns (ms: seq<Machine>, ops: seq<Op>, made: Role)
    requires m.s.roles == map[role.id := role] && newID != role.id && !role.isSystem
    requires Clean(role.name) && ToLower(role.name) == role.name
    requires forall g :: newID !in RolesOf(m.s.mappings, g)
    requires forall t :: t in m.calls ==> !Mentions(m.calls[t], newID)
    requires Disjoint(m.s.mappings)
    ensures Leads(m, ms, ops, m.(s := m.s.(roles := map[newID := made]))) && Tidy(ms)
    ensures made.name == role.name
  {
    hide Trimmed, TrimSpace, ToLower, Tidy, Disjoint, Leads, Lists.FirstOccurrences, Lists.Kept, RolesOf, Mentions;
    var delete := InOneSection(DeleteRole(role.id));
    var n := m.(s := m.s.(roles := map[]));
    assert m.s.roles - {role.id} == map[];
    var ms1, ops1 := Step(m, delete, n);
    made := RoleOutcome(map[], role.name, "", [], false, newID, 0).value;
    var q := m.(s := m.s.(roles := map[newID := made]));
    var ms2, ops2 := Step(n, InOneSection(CreateRole(role.name, "", [], false, newID, 0)), q);
    ms, ops := Then(m, ms1, ops1, n, ms2, ops2, q);
  }

  lemma AssignsTo(s: State, h: string, r: string)
    requires Clean(h) && Clean(r) && r in s.roles && h !in s.mappings
    ensures var t := AssignNext(s, h, r, 0).0;
      && t.mappings == s.mappings[h := {r}] && t.roles == s.roles && t.users.Keys == s.users.Keys
      && (forall u :: u in s.users ==>
        t.users[u].groups == s.users[u].groups && t.users[u].deletedAt == s.users[u].deletedAt)
  {
    hide Trimmed, TrimSpace, Reported, Applied;
    assert {} + {r} == {r};
    var mapped := s.(mappings := s.mappings[h := {r}]);
    assert s.mappings[h := RolesOf(s.mappings, h) + {r}] == mapped.mappings;
    AppliedFrame(mapped, h, 0);
  }

  /** The last section of a call that looked up a name which now belongs to another role. */
  lemma AppliesName(m: Machine, t: ThreadID, g: string, r: string, now: Time)
    returns (ms: seq<Machine>, ops: seq<Op>, n: Machine)
    requires t in m.calls && r in m.s.roles && Disjoint(m.s.mappings)
    requires m.calls[t].Naming? && m.calls[t].k == |m.calls[t].ids| && m.calls[t].group == g
    requires m.calls[t].names == [m.s.roles[r].name]
    ensures n == Machine(WithRoles(m.s, g, [r], now), m.calls - {t}) && Leads(m, ms, ops, n) && Tidy(ms)
  {
    hide Tidy, Disjoint, Leads, MapAll;
    assert [r][..0] == [];
    assert NamesFor(m.s.roles, [r]) == [m.s.roles[r].name];
    n := Machine(WithRoles(m.s, g, [r], now), m.calls - {t});
    ms, ops := Step(m, Apply(t, now), n);
  }

  lemma LooksUp(m: Machine, t: ThreadID, g: string, role: Role) returns (ms: seq<Machine>, ops: seq<Op>)
    requires t in m.calls && m.calls[t] == Naming(g, [role.id], 0, []) && Disjoint(m.s.mappings)
    requires m.s.roles == map[role.id := role]
    ensures Leads(m, ms, ops, m.(calls := m.calls[t := Naming(g, [role.id], 1, [role.name])])) && Tidy(ms)
  {
    hide Tidy, Disjoint, Leads;
    assert Named(m.calls[t], m.s.roles) == Naming(g, [role.id], 1, [] + [role.name]);
    assert [] + [role.name] == [role.name];
    ms, ops := Step(m, LookUp(t), m.(calls := m.calls[t := Naming(g, [role.id], 1, [role.name])]));
  }

  /** Harm can also come from a name alone: one looked up for one group outlives its role,
      and a new role of that name, mapped to another group, is stripped from that group's member. */
  lemma StaleNameBreaksExactness(g: string, h: string, role: Role, newID: string, user: User)
    returns (ms: seq<Machine>, ops: seq<Op>)
    requires g != h && Clean(g) && Clean(h) && Clean(role.id) && Clean(newID) && newID != role.id
    requires Clean(role.name) && ToLower(role.name) == role.name && !role.isSystem
    requires user.deletedAt.None? && h in user.groups && g !in user.groups
    ensures Run(ms, ops) && Initial(ms[0].s) && Tidy(ms)
    ensures ms[0].calls == map[] && ms[|ops|].calls == map[]
    ensures Live(ms[|ops|].s, user.id) && MappedTo(ms[|ops|].s, newID, h)
    ensures !Settled(ms[|ops|].s, user.id, h, newID)
  {
    hide Trimmed, TrimSpace, ToLower, Tidy, Disjoint, MapAll, NamesFor, SortedOf, Next, Legal, AssignNext, Run;
    var r := role.id;
    var s0 := State(map[user.id := user], map[], map[r := role]);
    var m0 := Machine(s0, map[]);
    OnlyOne(r);
    var ms1, ops1 := MapsFirst(m0, 0, g, r);
    var s1 := s0.(mappings := map[g := {r}]);
    var m1 := Machine(s1, map[0 := Naming(g, [r], 0, [])]);
    OneGroupDisjoint(s1.mappings, g);
    var ms2, ops2 := LooksUp(m1, 0, g, role);
    var m2 := Machine(s1, map[0 := Naming(g, [r], 1, [role.name])]);
    var ms3, ops3, made := Renewed(m2, role, newID);
    var m3 := m2.(s := s1.(roles := map[newID := made]));
    AssignsTo(m3.s, h, newID);
    var m4 := m3.(s := AssignNext(m3.s, h, newID, 0).0);
    TwoGroupsDisjoint(g, r, h, newID);
    assert m4.s.mappings == map[g := {r}, h := {newID}];
    var ms4, ops4 := AssignAlone(m3, 2, h, newID, 0);
    var ms5, ops5, m5 := AppliesName(m4, 0, g, newID, 0);
    NamedFrame(m4.s, g, NamesFor(m4.s.roles, [newID]), 0);
    RenamedIsClean(m4.s.roles, newID);
    ListedRoles(m4.s, g, [newID], 0, user.id, newID);
    hide WithRoles, Leads;
    ms, ops := Then(m0, ms1, ops1, m1, ms2, ops2, m2);
    ms, ops := Then(m0, ms, ops, m2, ms3, ops3, m3);
    ms, ops := Then(m0, ms, ops, m3, ms4, ops4, m4);
    ms, ops := Then(m0, ms, ops, m4, ms5, ops5, m5);
    LeadsMeans(m0, ms, ops, m5);
  }

  lemma LeadsMeans(m: Machine, ms: seq<Machine>, ops: seq<Op>, n: Machine)
    requires Leads(m, ms, ops, n)
    ensures Run(ms, ops) && ms[0] == m && ms[|ops|] == n
  {
  }

  lemma RenamedIsClean(roles: map<string, Role>, id: string)
    requires roles.Keys == {id} && Clean(roles[id].name)
    ensures RolesClean(roles)
  {
  }

  lemma TwoGroupsDisjoint(g: string, r: string, h: string, q: string)
    requires g != h && r != q
    ensures Disjoint(map[g := {r}, h := {q}])
  {
  }
}
