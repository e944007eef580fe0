/** What group-to-role reconciliation achieves, for one call and over whole runs. */
module GroupRuns {
  import opened Wrappers
  import opened Text
  import opened Lists
  import opened SortedKeys
  import opened Groups

  // ---- What a store keeps ----

  /** Role names are trimmed, not blank, and distinct. */
  ghost predicate RolesClean(roles: map<string, Role>) {
    && (forall id :: id in roles ==> roles[id].name != "" && Trimmed(roles[id].name))
    && (forall a, b :: a in roles && b in roles && a != b ==> roles[a].name != roles[b].name)
  }

  /** No role is mapped to two groups at once. */
  ghost predicate Disjoint(mappings: map<string, set<string>>) {
    forall g, h :: g in mappings && h in mappings && g != h ==> mappings[g] !! mappings[h]
  }

  /** A role that exists and is mapped to the group. */
  ghost predicate MappedTo(s: State, role: string, group: string) {
    role in RolesOf(s.mappings, group) && role in s.roles
  }

  ghost predicate Live(s: State, user: string) {
    user in s.users && s.users[user].deletedAt.None?
  }

  ghost predicate Holds(s: State, user: string, role: string)
    requires user in s.users && role in s.roles
  {
    s.roles[role].name in s.users[user].roles
  }

  ghost predicate MemberOf(s: State, user: string, group: string)
    requires user in s.users
  {
    group in s.users[user].groups
  }

  /** Live users hold each role of the group exactly if they are members. */
  ghost predicate ExactFor(s: State, group: string) {
    forall user, role :: Live(s, user) && MappedTo(s, role, group) ==>
      (Holds(s, user, role) <==> MemberOf(s, user, group))
  }

  // ---- Applying the roles of a group ----

  lemma {:induction false} NamesForMembers(roles: map<string, Role>, ids: seq<string>, x: string)
    ensures x in NamesFor(roles, ids) <==> exists id :: id in ids && id in roles && roles[id].name == x
  {
    if ids != [] {
      var t, last := ids[..|ids| - 1], ids[|ids| - 1];
      NamesForMembers(roles, t, x);
      assert ids == t + [last];
      assert forall id :: id in ids <==> id in t || id == last;
    }
  }

  /** The names looked up for a list of roles are those of the roles on it that exist. */
  lemma NamesMeaning(roles: map<string, Role>, ids: seq<string>, x: string)
    requires RolesClean(roles)
    ensures Names(NamesFor(roles, ids), x) <==> exists id :: id in ids && id in roles && roles[id].name == x
  {
    hide TrimSpace, Trimmed;
    var names := NamesFor(roles, ids);
    if Names(names, x) {
      var i :| 0 <= i < |names| && TrimSpace(names[i]) == x;
      NamesForMembers(roles, ids, names[i]);
      var id :| id in ids && id in roles && roles[id].name == names[i];
      assert TrimSpace(names[i]) == names[i];
    }
    if id :| id in ids && id in roles && roles[id].name == x {
      NamesForMembers(roles, ids, x);
      assert x in names;
      var i :| 0 <= i < |names| && names[i] == x;
      assert TrimSpace(names[i]) == x;
    }
  }

  /** A list of names applied for a group. */
  function WithNames(s: State, group: string, names: seq<string>, now: Time): State {
    s.(users := MapAll(s.users, group, names, now))
  }

  /** After a list of names is applied for a group, a live user holds an existing role of a listed
      name exactly if a member, and any other role exactly as before; nothing else changes. */
  lemma NamedRoles(s: State, group: string, names: seq<string>, now: Time, user: string, role: string)
    requires RolesClean(s.roles) && (forall x :: x in names ==> Clean(x)) && user in s.users && role in s.roles
    ensures var t := WithNames(s, group, names, now);
      && user in t.users && t.users[user].groups == s.users[user].groups
      && t.users[user].deletedAt == s.users[user].deletedAt
      && (Live(s, user) && s.roles[role].name in names ==> (Holds(t, user, role) <==> MemberOf(s, user, group)))
      && (!Live(s, user) || s.roles[role].name !in names ==> (Holds(t, user, role) <==> Holds(s, user, role)))
  {
    hide TrimSpace, Names;
    var name := s.roles[role].name;
    CleanNames(names, name);
    AddedMembers(s.users[user].roles, names, name);
    RemovedMembers(s.users[user].roles, names, name);
  }

  lemma CleanNames(names: seq<string>, x: string)
    requires forall y :: y in names ==> Clean(y)
    ensures Names(names, x) <==> x in names
  {
    hide TrimSpace, Trimmed;
    forall i | 0 <= i < |names|
      ensures TrimSpace(names[i]) == names[i]
    {
      assert Clean(names[i]);
    }
  }

  lemma NamedFrame(s: State, group: string, names: seq<string>, now: Time)
    ensures var t := WithNames(s, group, names, now);
      && t.roles == s.roles && t.mappings == s.mappings && t.users.Keys == s.users.Keys
      && (forall user :: user in s.users ==>
        && t.users[user].groups == s.users[user].groups && t.users[user].deletedAt == s.users[user].deletedAt
        && (s.users[user].deletedAt.Some? ==> t.users[user] == s.users[user]))
  {
  }

  /** The listed roles applied for a group. */
  ghost function WithRoles(s: State, group: string, ids: seq<string>, now: Time): State {
    WithNames(s, group, NamesFor(s.roles, ids), now)
  }

  /** After a list of roles is applied for a group, a live user holds an existing role on the
      list exactly if a member, and any other role exactly as before; nothing else changes. */
  lemma ListedRoles(s: State, group: string, ids: seq<string>, now: Time, user: string, role: string)
    requires RolesClean(s.roles) && user in s.users && role in s.roles
    ensures var t := WithRoles(s, group, ids, now);
      && user in t.users && t.users[user].groups == s.users[user].groups
      && t.users[user].deletedAt == s.users[user].deletedAt
      && (Live(s, user) && role in ids ==> (Holds(t, user, role) <==> MemberOf(s, user, group)))
      && (!Live(s, user) || role !in ids ==> (Holds(t, user, role) <==> Holds(s, user, role)))
  {
    hide Trimmed, TrimSpace, NamesFor, MapAll;
    var names := NamesFor(s.roles, ids);
    forall x
      ensures x in names <==> exists id :: id in ids && id in s.roles && s.roles[id].name == x
    {
      NamesForMembers(s.roles, ids, x);
    }
    NamedRoles(s, group, names, now, user, role);
  }

  lemma AppliedIsListed(s: State, group: string, now: Time)
    ensures Applied(s, group, now) == WithRoles(s, group, SortedOf(RolesOf(s.mappings, group)), now)
  {
  }

  /** The same for the roles mapped to the group. */
  lemma AppliedRoles(s: State, group: string, now: Time, user: string, role: string)
    requires RolesClean(s.roles) && user in s.users && role in s.roles
    ensures var t := Applied(s, group, now);
      && user in t.users && t.users[user].groups == s.users[user].groups
      && t.users[user].deletedAt == s.users[user].deletedAt
      && (Live(s, user) && MappedTo(s, role, group) ==> (Holds(t, user, role) <==> MemberOf(s, user, group)))
      && (!Live(s, user) || !MappedTo(s, role, group) ==> (Holds(t, user, role) <==> Holds(s, user, role)))
  {
    hide RolesClean, NamesFor, WithNames;
    assert Applied(s, group, now) == WithRoles(s, group, SortedOf(RolesOf(s.mappings, group)), now) by {
      AppliedIsListed(s, group, now);
    }
    ListedRoles(s, group, SortedOf(RolesOf(s.mappings, group)), now, user, role);
  }

  /** Exactness for the applied group holds afterwards; for another group it survives unless
      the two share a role. */
  lemma ApplyMakesExact(s: State, group: string, now: Time)
    requires RolesClean(s.roles)
    ensures ExactFor(Applied(s, group, now), group)
    ensures forall other :: ExactFor(s, other) && RolesOf(s.mappings, other) !! RolesOf(s.mappings, group) ==>
      ExactFor(Applied(s, group, now), other)
  {
    hide RolesClean, Applied;
    var t := Applied(s, group, now);
    AppliedFrame(s, group, now);
    forall user, role | Live(t, user) && MappedTo(t, role, group)
      ensures Holds(t, user, role) <==> MemberOf(t, user, group)
    {
      AppliedRoles(s, group, now, user, role);
    }
    forall other | ExactFor(s, other) && RolesOf(s.mappings, other) !! RolesOf(s.mappings, group)
      ensures ExactFor(t, other)
    {
      forall user, role | Live(t, user) && MappedTo(t, role, other)
        ensures Holds(t, user, role) <==> MemberOf(t, user, other)
      {
        AppliedRoles(s, group, now, user, role);
        assert Live(s, user) && MappedTo(s, role, other) && !MappedTo(s, role, group);
      }
    }
  }

  lemma AppliedFrame(s: State, group: string, now: Time)
    ensures var t := Applied(s, group, now);
      && t.roles == s.roles && t.mappings == s.mappings && t.users.Keys == s.users.Keys
      && (forall user :: user in s.users ==>
        && t.users[user].groups == s.users[user].groups && t.users[user].deletedAt == s.users[user].deletedAt
        && (s.users[user].deletedAt.Some? ==> t.users[user] == s.users[user]))
  {
  }

  /** When a role is mapped to two groups, applying one of them leaves the other exact for that
      role if and only if the two groups have the same live members. */
  lemma SharedRoleExactly(s: State, group: string, other: string, role: string, now: Time)
    requires RolesClean(s.roles) && MappedTo(s, role, group) && MappedTo(s, role, other)
    ensures var t := Applied(s, group, now);
      (forall user :: Live(t, user) ==> user in t.users && (Holds(t, user, role) <==> MemberOf(t, user, other)))
      <==> (forall user :: Live(s, user) ==> (MemberOf(s, user, group) <==> MemberOf(s, user, other)))
  {
    hide RolesClean, Applied;
    var t := Applied(s, group, now);
    AppliedFrame(s, group, now);
    forall user | Live(s, user)
      ensures Holds(t, user, role) <==> MemberOf(s, user, group)
    {
      AppliedRoles(s, group, now, user, role);
    }
    assert forall user :: Live(t, user) <==> Live(s, user);
    assert forall user :: user in s.users ==> (MemberOf(t, user, other) <==> MemberOf(s, user, other));
  }

  // ---- Whole runs ----

  datatype Op =
    | AssignRole(group: string, role: string, now: Time)
    | UnassignRole(group: string, role: string, now: Time)
    | Reconcile(group: string, memberIDs: seq<string>, now: Time, later: Time)
    | SoftDelete(user: string, now: Time)
    | CreateRole(name: string, description: string, permissions: seq<string>, isSystem: bool, newID: string, now: Time)
    | DeleteRole(role: string)

  ghost function Next(s: State, op: Op): State {
    match op
    case AssignRole(g, r, now) => AssignNext(s, g, r, now).0
    case UnassignRole(g, r, now) => UnassignNext(s, g, r, now).0
    case Reconcile(g, ids, now, later) => ReconcileNext(s, g, ids, now, later).0
    case SoftDelete(u, now) => s.(users := DeletedOutcome(s.users, u, now).0)
    case CreateRole(name, description, permissions, isSystem, id, now) =>
      var r := RoleOutcome(s.roles, name, description, permissions, isSystem, id, now);
      if r.Ok? then s.(roles := s.roles[id := r.value]) else s
    case DeleteRole(id) => s.(roles := DeleteRoleOutcome(s.roles, id).0)
  }

  /** Generated role ids are new, also to the mappings. */
  ghost predicate Legal(s: State, op: Op) {
    op.CreateRole? ==> op.newID !in s.roles && forall g :: op.newID !in RolesOf(s.mappings, g)
  }

  ghost predicate Run(states: seq<State>, ops: seq<Op>) {
    && |states| == |ops| + 1
    && forall i :: 0 <= i < |ops| ==> Legal(states[i], ops[i]) && states[i + 1] == Next(states[i], ops[i])
  }

  /** Any users, roles with distinct clean names, and no mapping yet. */
  ghost predicate Initial(s: State) {
    RolesClean(s.roles) && s.mappings == map[]
  }

  lemma DisjointOthers(mappings: map<string, set<string>>, g: string, h: string)
    requires Disjoint(mappings) && g != h
    ensures RolesOf(mappings, g) !! RolesOf(mappings, h)
  {
  }

  lemma SameViewExact(s: State, t: State, h: string)
    requires ExactFor(s, h) && t.users == s.users && t.roles == s.roles
    requires RolesOf(t.mappings, h) == RolesOf(s.mappings, h)
    ensures ExactFor(t, h)
  {
    forall user, role | Live(t, user) && MappedTo(t, role, h)
      ensures Holds(t, user, role) <==> MemberOf(t, user, h)
    {
      assert Live(s, user) && MappedTo(s, role, h);
    }
  }

  /** A successful group operation just before it applies: the store, the group, and the time. */
  datatype Prepared = NotApplying | Applying(mid: State, group: string, at: Time)

  ghost function Prepare(s: State, op: Op): Prepared {
    match op
    case AssignRole(group, role, now) =>
      var g, r := TrimSpace(group), TrimSpace(role);
      if g == "" || r == "" || r !in s.roles then NotApplying
      else Applying(s.(mappings := s.mappings[g := RolesOf(s.mappings, g) + {r}]), g, now)
    case UnassignRole(group, role, now) =>
      var g, r := TrimSpace(group), TrimSpace(role);
      if g == "" || r == "" || g !in s.mappings then NotApplying
      else
        var left := s.mappings[g] - {r};
        Applying(s.(mappings := if left == {} then s.mappings - {g} else s.mappings[g := left]), g, now)
    case Reconcile(group, memberIDs, now, later) =>
      var g := TrimSpace(group);
      if g == "" then NotApplying
      else Applying(s.(users := JoinAll(s.users, g, TrimmedSet(memberIDs), now)), g, later)
    case _ => NotApplying
  }

  lemma PreparedIsApplied(s: State, op: Op)
    requires Prepare(s, op).Applying?
    ensures var p := Prepare(s, op);
      Next(s, op) == Applied(p.mid, p.group, p.at) && p.mid.roles == s.roles
  {
    hide TrimSpace, Applied, Reported, JoinAll, TrimmedSet;
  }

  lemma PreparedKeepsOthers(s: State, op: Op, h: string)
    requires Prepare(s, op).Applying? && h != Prepare(s, op).group && ExactFor(s, h)
    ensures ExactFor(Prepare(s, op).mid, h)
  {
    hide TrimSpace, JoinAll, TrimmedSet, ExactFor;
    var p := Prepare(s, op);
    if op.Reconcile? {
      JoinFrame(s, p.group, TrimmedSet(op.memberIDs), op.now);
      OtherGroupStaysExact(s, p.mid, p.group, h);
    } else {
      SameViewExact(s, p.mid, h);
    }
  }

  /** Live users are in both groups or in neither, if the groups share a role. */
  ghost predicate Agree(s: State, group: string, other: string) {
    forall user, role :: Live(s, user) && MappedTo(s, role, group) && MappedTo(s, role, other) ==>
      (MemberOf(s, user, group) <==> MemberOf(s, user, other))
  }

  /** Applying one group leaves another exact if and only if they agree wherever they share a role. */
  lemma ApplyExactly(s: State, group: string, now: Time, other: string)
    requires RolesClean(s.roles) && (other != group ==> ExactFor(s, other))
    ensures ExactFor(Applied(s, group, now), other) <==> Agree(s, group, other)
  {
    hide RolesClean, Applied;
    var t := Applied(s, group, now);
    AppliedFrame(s, group, now);
    forall user, role | Live(s, user) && MappedTo(s, role, other)
      ensures Holds(t, user, role) <==>
        if MappedTo(s, role, group) then MemberOf(s, user, group) else MemberOf(s, user, other)
    {
      AppliedRoles(s, group, now, user, role);
    }
    assert forall user :: Live(t, user) <==> Live(s, user);
    assert forall role :: MappedTo(t, role, other) <==> MappedTo(s, role, other);
    assert forall user :: Live(s, user) ==> (MemberOf(t, user, other) <==> MemberOf(s, user, other));
  }

  /** The step applies no group that shares a role with this one, unless their live members are
      the same. */
  ghost predicate Harmless(s: State, op: Op, group: string) {
    Prepare(s, op).Applying? ==> Agree(Prepare(s, op).mid, Prepare(s, op).group, group)
  }

  lemma StepExactly(s: State, op: Op, group: string)
    requires RolesClean(s.roles) && Legal(s, op) && ExactFor(s, group)
    ensures ExactFor(Next(s, op), group) <==> Harmless(s, op, group)
  {
    hide RolesClean, ExactFor, Agree, Prepare;
    var p := Prepare(s, op);
    if p.Applying? {
      hide Next, Legal;
      PreparedIsApplied(s, op);
      if group != p.group {
        PreparedKeepsOthers(s, op, group);
      }
      ApplyExactly(p.mid, p.group, p.at, group);
    } else {
      QuietStepKeepsExact(s, op, group);
    }
  }

  lemma QuietStepKeepsExact(s: State, op: Op, group: string)
    requires RolesClean(s.roles) && Legal(s, op) && ExactFor(s, group) && Prepare(s, op).NotApplying?
    ensures ExactFor(Next(s, op), group)
  {
    hide TrimSpace, ToLower, Kept, FirstOccurrences, ExactFor, Applied, Reported;
    if op.SoftDelete? || op.CreateRole? || op.DeleteRole? {
      StoreStepKeepsExact(s, op, group);
    }
  }

  lemma StepKeepsClean(s: State, op: Op)
    requires RolesClean(s.roles)
    ensures RolesClean(Next(s, op).roles)
  {
    hide TrimSpace, ToLower, Kept, FirstOccurrences, Prepare;
    if Prepare(s, op).Applying? {
      hide Next;
      PreparedIsApplied(s, op);
      AppliedFrame(Prepare(s, op).mid, Prepare(s, op).group, Prepare(s, op).at);
    } else {
      QuietStepKeepsClean(s, op);
    }
  }

  lemma QuietStepKeepsClean(s: State, op: Op)
    requires RolesClean(s.roles) && Prepare(s, op).NotApplying?
    ensures RolesClean(Next(s, op).roles)
  {
    hide TrimSpace, ToLower, Kept, FirstOccurrences, Applied, Reported;
  }

  lemma JoinFrame(s: State, g: string, members: set<string>, now: Time)
    ensures var users := JoinAll(s.users, g, members, now);
      && users.Keys == s.users.Keys
      && (forall id :: id in s.users ==>
        && users[id].roles == s.users[id].roles && users[id].deletedAt == s.users[id].deletedAt
        && (s.users[id].deletedAt.Some? ==> users[id] == s.users[id])
        && (s.users[id].deletedAt.None? ==> (g in users[id].groups <==> id in members))
        && (forall h :: h != g ==> (h in users[id].groups <==> h in s.users[id].groups)))
  {
    forall id | id in s.users
      ensures var u, v := s.users[id], Joined(s.users[id], g, id in members, now);
        && v.roles == u.roles && v.deletedAt == u.deletedAt
        && (u.deletedAt.Some? ==> v == u)
        && (u.deletedAt.None? ==> (g in v.groups <==> id in members))
        && (forall h :: h != g ==> (h in v.groups <==> h in u.groups))
    {
      JoinedMeaning(s.users[id], g, id in members, now);
    }
  }

  lemma JoinedMeaning(u: User, g: string, member: bool, now: Time)
    ensures var v := Joined(u, g, member, now);
      && v.roles == u.roles && v.deletedAt == u.deletedAt
      && (u.deletedAt.Some? ==> v == u)
      && (u.deletedAt.None? ==> (g in v.groups <==> member))
      && (forall h :: h != g ==> (h in v.groups <==> h in u.groups))
  {
    forall h
      ensures h in Without(u.groups, g) <==> h in u.groups && h != g
    {
      WithoutMembers(u.groups, g, h);
    }
  }

  lemma OtherGroupStaysExact(s: State, mid: State, g: string, h: string)
    requires ExactFor(s, h) && h != g && mid.roles == s.roles && mid.mappings == s.mappings
    requires mid.users.Keys == s.users.Keys
    requires forall id :: id in s.users ==>
      && mid.users[id].roles == s.users[id].roles && mid.users[id].deletedAt == s.users[id].deletedAt
      && (h in mid.users[id].groups <==> h in s.users[id].groups)
    ensures ExactFor(mid, h)
  {
    forall user, role | Live(mid, user) && MappedTo(mid, role, h)
      ensures Holds(mid, user, role) <==> MemberOf(mid, user, h)
    {
      assert Live(s, user) && MappedTo(s, role, h);
      assert Holds(s, user, role) <==> MemberOf(s, user, h);
    }
  }

  lemma StoreStepKeepsExact(s: State, op: Op, group: string)
    requires ExactFor(s, group) && Legal(s, op)
    requires op.SoftDelete? || op.CreateRole? || op.DeleteRole?
    ensures ExactFor(Next(s, op), group)
  {
    hide TrimSpace, ToLower, Kept, FirstOccurrences;
    var t := Next(s, op);
    forall user, role | Live(t, user) && MappedTo(t, role, group)
      ensures Holds(t, user, role) <==> MemberOf(t, user, group)
    {
      assert Live(s, user) && MappedTo(s, role, group);
      assert Holds(s, user, role) <==> MemberOf(s, user, group);
    }
  }

  lemma {:induction false} AlwaysClean(states: seq<State>, ops: seq<Op>, i: nat)
    requires Run(states, ops) && Initial(states[0]) && i <= |ops|
    ensures RolesClean(states[i].roles)
  {
    hide Legal, Next, RolesClean;
    if i > 0 {
      AlwaysClean(states, ops, i - 1);
      StepKeepsClean(states[i - 1], ops[i - 1]);
    }
  }

  /** A group without roles is exact, and so is any group just after it was applied. */
  lemma ExactPoints(states: seq<State>, ops: seq<Op>, i: nat, group: string)
    requires Run(states, ops) && Initial(states[0]) && i <= |ops|
    ensures RolesOf(states[i].mappings, group) == {} ==> ExactFor(states[i], group)
    ensures i > 0 ==>
      var p := Prepare(states[i - 1], ops[i - 1]);
      p.Applying? && p.group == group ==> ExactFor(states[i], group)
  {
    hide Legal, Next, RolesClean, Prepare, Applied;
    if i > 0 && Prepare(states[i - 1], ops[i - 1]).Applying? {
      var p := Prepare(states[i - 1], ops[i - 1]);
      AlwaysClean(states, ops, i - 1);
      PreparedIsApplied(states[i - 1], ops[i - 1]);
      ApplyMakesExact(p.mid, p.group, p.at);
    }
  }

  /** Runs of whole calls, from any point where a group is exact: live users hold each of its
      existing roles exactly if members, and keep doing so, if and only if every step is harmless
      to the group. */
  lemma {:induction false} GroupRolesExactly(states: seq<State>, ops: seq<Op>, i: nat, j: nat, group: string)
    requires Run(states, ops) && Initial(states[0]) && i <= j <= |ops| && ExactFor(states[i], group)
    ensures (forall k :: i <= k <= j ==> ExactFor(states[k], group)) <==>
      (forall k :: i <= k < j ==> Harmless(states[k], ops[k], group))
  {
    hide Legal, Next, RolesClean, ExactFor, Harmless;
    if i < j {
      GroupRolesExactly(states, ops, i, j - 1, group);
      if ExactFor(states[j - 1], group) {
        AlwaysClean(states, ops, j - 1);
        assert states[j] == Next(states[j - 1], ops[j - 1]);
        StepExactly(states[j - 1], ops[j - 1], group);
      }
    }
  }

  /** A step after which no role is mapped to two groups is harmless to every group. */
  lemma DisjointIsHarmless(s: State, op: Op, group: string)
    requires Disjoint(Next(s, op).mappings)
    ensures Harmless(s, op, group)
  {
    hide Prepare, Next;
    var p := Prepare(s, op);
    if p.Applying? {
      PreparedIsApplied(s, op);
      AppliedFrame(p.mid, p.group, p.at);
      if group != p.group {
        DisjointOthers(p.mid.mappings, p.group, group);
      }
    }
  }

  /** In any run from empty mappings whose steps are harmless to a group, every live user holds
      each existing role of the group exactly if a member of it. */
  lemma GroupRolesAreExact(states: seq<State>, ops: seq<Op>, i: nat, user: string, group: string, role: string)
    requires Run(states, ops) && Initial(states[0]) && i <= |ops|
    requires forall k :: 0 <= k < i ==> Harmless(states[k], ops[k], group)
    requires Live(states[i], user) && MappedTo(states[i], role, group)
    ensures Holds(states[i], user, role) <==> MemberOf(states[i], user, group)
  {
    hide Legal, Next, RolesClean, Harmless;
    ExactPoints(states, ops, 0, group);
    GroupRolesExactly(states, ops, 0, i, group);
    assert ExactFor(states[i], group);
  }

  // ---- What the other operations do ----

  /** Step `k` deletes the user. */
  ghost predicate Deletes(states: seq<State>, ops: seq<Op>, k: nat, user: string)
    requires Run(states, ops) && k < |ops|
  {
    ops[k].SoftDelete? && ops[k].user == user
  }

  ghost predicate WasDeleted(states: seq<State>, ops: seq<Op>, i: nat, user: string)
    requires Run(states, ops) && i <= |ops|
  {
    exists k: nat :: k < i && Deletes(states, ops, k, user)
  }

  lemma DeletedNext(states: seq<State>, ops: seq<Op>, i: nat, user: string)
    requires Run(states, ops) && i < |ops|
    ensures WasDeleted(states, ops, i + 1, user) <==> WasDeleted(states, ops, i, user) || Deletes(states, ops, i, user)
  {
    hide Run, Deletes;
    if k: nat :| k < i && Deletes(states, ops, k, user) {
      assert k < i + 1;
    }
  }

  lemma StepDeletes(s: State, op: Op, user: string)
    requires user in s.users
    ensures user in Next(s, op).users
    ensures Live(Next(s, op), user) <==> Live(s, user) && !(op.SoftDelete? && op.user == user)
    ensures op.SoftDelete? && op.user == user && Live(s, user) ==>
      Next(s, op).users[user].deletedAt == Some(op.now) && Next(s, op).users[user].status == "deleted"
    ensures !Live(s, user) ==> Next(s, op).users[user] == s.users[user]
  {
    hide TrimSpace, ToLower, Kept, FirstOccurrences, Applied, Reported, JoinAll, TrimmedSet, Prepare;
    if Prepare(s, op).Applying? {
      PreparedIsApplied(s, op);
      PreparedUsers(s, op, user);
      hide Next;
    } else {
      QuietUsers(s, op, user);
    }
  }

  lemma PreparedUsers(s: State, op: Op, user: string)
    requires Prepare(s, op).Applying? && user in s.users
    ensures !op.SoftDelete?
    ensures var p := Prepare(s, op);
      var t := Applied(p.mid, p.group, p.at);
      && user in t.users && t.users[user].deletedAt == s.users[user].deletedAt
      && (s.users[user].deletedAt.Some? ==> t.users[user] == s.users[user])
  {
    hide TrimSpace, JoinAll, TrimmedSet, Applied;
    var p := Prepare(s, op);
    AppliedFrame(p.mid, p.group, p.at);
    if op.Reconcile? {
      JoinFrame(s, p.group, TrimmedSet(op.memberIDs), op.now);
    }
  }

  lemma QuietUsers(s: State, op: Op, user: string)
    requires Prepare(s, op).NotApplying? && user in s.users
    ensures var t := Next(s, op);
      && user in t.users
      && (op.SoftDelete? && op.user == user && Live(s, user) ==>
        t.users[user].deletedAt == Some(op.now) && t.users[user].status == "deleted")
      && (!(op.SoftDelete? && op.user == user && Live(s, user)) ==> t.users[user] == s.users[user])
  {
    hide TrimSpace, ToLower, Kept, FirstOccurrences, Applied, Reported, JoinAll, RoleOutcome;
  }

  /** Over every run a user who was live at the start is live if and only if no step deleted the user. */
  lemma {:induction false} UsersAreLiveExactly(states: seq<State>, ops: seq<Op>, i: nat, user: string)
    requires Run(states, ops) && i <= |ops| && Live(states[0], user)
    ensures user in states[i].users && (Live(states[i], user) <==> !WasDeleted(states, ops, i, user))
  {
    hide Legal, Next, WasDeleted;
    if i == 0 {
      NoneDeleted(states, ops, user);
    } else {
      UsersAreLiveExactly(states, ops, i - 1, user);
      DeletedNext(states, ops, i - 1, user);
      assert states[i] == Next(states[i - 1], ops[i - 1]);
      StepDeletes(states[i - 1], ops[i - 1], user);
    }
  }

  lemma NoneDeleted(states: seq<State>, ops: seq<Op>, user: string)
    requires Run(states, ops)
    ensures !WasDeleted(states, ops, 0, user)
  {
  }

  /** What a step does to the roles of a group: an assignment of an existing role adds that role to
      the trimmed group, an unassignment takes one away, and nothing else changes any mapping. */
  lemma StepMaps(s: State, op: Op, group: string, role: string)
    ensures role in RolesOf(Next(s, op).mappings, group) <==>
      || (op.AssignRole? && group != "" && role != "" && TrimSpace(op.group) == group && TrimSpace(op.role) == role
          && role in s.roles)
      || (role in RolesOf(s.mappings, group)
          && !(op.UnassignRole? && group != "" && role != "" && TrimSpace(op.group) == group
               && TrimSpace(op.role) == role))
  {
    hide TrimSpace, ToLower, Kept, FirstOccurrences, JoinAll, TrimmedSet, Reported, Applied;
    hide RoleOutcome, DeletedOutcome;
    var p := Prepare(s, op);
    if p.Applying? {
      PreparedIsApplied(s, op);
      AppliedFrame(p.mid, p.group, p.at);
      hide Next;
    }
  }

  /** A role is created exactly under a folded name that is not blank and not taken; it is deleted
      exactly if it exists and is no system role. Nothing else changes the roles. */
  lemma StepChangesRoles(s: State, op: Op)
    requires Legal(s, op)
    ensures var t := Next(s, op);
      && (op.CreateRole? ==>
        var name := TrimSpace(ToLower(op.name));
        if name != "" && (forall k :: k in s.roles ==> s.roles[k].name != name) then
          && op.newID in t.roles && t.roles.Keys == s.roles.Keys + {op.newID}
          && t.roles[op.newID].id == op.newID && t.roles[op.newID].name == name
          && t.roles[op.newID].isSystem == op.isSystem && t.roles[op.newID].description == TrimSpace(op.description)
          && t.roles[op.newID].permissions == FirstOccurrences(Kept(op.permissions, TrimSpace))
          && (forall k :: k in s.roles ==> t.roles[k] == s.roles[k])
        else t == s)
      && (op.DeleteRole? ==>
        if op.role in s.roles && !s.roles[op.role].isSystem then t == s.(roles := s.roles - {op.role}) else t == s)
      && (!op.CreateRole? && !op.DeleteRole? ==> t.roles == s.roles)
  {
    hide TrimSpace, ToLower, Kept, FirstOccurrences, JoinAll, TrimmedSet, Reported, Applied, DeletedOutcome, Prepare;
    var p := Prepare(s, op);
    if p.Applying? {
      PreparedIsApplied(s, op);
      AppliedFrame(p.mid, p.group, p.at);
      NotAboutRoles(s, op);
      hide Next;
    } else {
      QuietStepRoles(s, op);
    }
  }

  lemma NotAboutRoles(s: State, op: Op)
    requires Prepare(s, op).Applying?
    ensures !op.CreateRole? && !op.DeleteRole?
  {
  }

  lemma QuietStepRoles(s: State, op: Op)
    requires Prepare(s, op).NotApplying?
    ensures !op.CreateRole? && !op.DeleteRole? ==> Next(s, op).roles == s.roles
  {
    hide TrimSpace, ToLower, JoinAll, TrimmedSet, Applied, Reported;
  }

  /** What a successful call on a group reports: the trimmed group, its roles by ascending id, and
      how many users the application of their names changed. */
  lemma ReportMeaning(s: State, op: Op)
    requires Prepare(s, op).Applying?
    ensures var p := Prepare(s, op);
      var r := match op
        case AssignRole(group, role, now) => AssignNext(s, group, role, now).1
        case UnassignRole(group, role, now) => UnassignNext(s, group, role, now).1
        case Reconcile(group, memberIDs, now, later) => ReconcileNext(s, group, memberIDs, now, later).1
        case _ => Err(GroupRequired);
      && r.Ok? && r.value.groupID == p.group && Ascending(r.value.roleIDs)
      && (forall role :: role in r.value.roleIDs <==> role in RolesOf(Next(s, op).mappings, p.group))
      && r.value.updatedUsers == |set user | user in s.users && Next(s, op).users[user] != p.mid.users[user]|
  {
    hide TrimSpace, JoinAll, TrimmedSet, Applied, RolesOf;
    var p := Prepare(s, op);
    PreparedIsApplied(s, op);
    AppliedFrame(p.mid, p.group, p.at);
    JoinFrame(s, p.group, if op.Reconcile? then TrimmedSet(op.memberIDs) else {}, if op.Reconcile? then op.now else 0);
    assert p.mid.users.Keys == s.users.Keys;
    assert Changed(p.mid.users, Next(s, op).users) ==
      set user | user in s.users && Next(s, op).users[user] != p.mid.users[user];
  }

  // ---- One reconciliation ----

  /** After reconciling a group with a list of users its live members are exactly the live
      users listed; they hold all of its roles and the other live users none; memberships of
      other groups, roles of no concern to the group and deleted users are untouched. */
  lemma ReconcileIsCorrect(s: State, group: string, memberIDs: seq<string>, now: Time, later: Time,
                           user: string, role: string, other: string)
    requires RolesClean(s.roles) && TrimSpace(group) != "" && user in s.users && role in s.roles
    requires other != TrimSpace(group)
    ensures var g := TrimSpace(group);
      var t := ReconcileNext(s, group, memberIDs, now, later).0;
      && t.users.Keys == s.users.Keys && t.roles == s.roles && t.mappings == s.mappings
      && (!Live(s, user) ==> t.users[user] == s.users[user])
      && (Live(s, user) ==> (MemberOf(t, user, g) <==> user in TrimmedSet(memberIDs)))
      && (MemberOf(t, user, other) <==> MemberOf(s, user, other))
      && (Live(s, user) && MappedTo(s, role, g) ==> (Holds(t, user, role) <==> user in TrimmedSet(memberIDs)))
      && (!MappedTo(s, role, g) ==> (Holds(t, user, role) <==> Holds(s, user, role)))
  {
    hide RolesClean, TrimSpace, Applied, JoinAll, TrimmedSet, Reported;
    var g := TrimSpace(group);
    var mid := s.(users := JoinAll(s.users, g, TrimmedSet(memberIDs), now));
    JoinFrame(s, g, TrimmedSet(memberIDs), now);
    AppliedFrame(mid, g, later);
    AppliedRoles(mid, g, later, user, role);
  }

  /** Reconciling again with the same list, at any later times, changes nothing and reports
      that no user was updated. */
  lemma ReconcileIsIdempotent(s: State, group: string, memberIDs: seq<string>, now: Time, later: Time, n2: Time,
                              l2: Time)
    requires RolesClean(s.roles) && TrimSpace(group) != ""
    ensures var t := ReconcileNext(s, group, memberIDs, now, later).0;
      var (u, r) := ReconcileNext(t, group, memberIDs, n2, l2);
      u == t && r.Ok? && r.value.updatedUsers == 0
  {
    hide RolesClean, TrimSpace, TrimmedSet;
    var g, members := TrimSpace(group), TrimmedSet(memberIDs);
    var mid := s.(users := JoinAll(s.users, g, members, now));
    JoinFrame(s, g, members, now);
    AppliedFrame(mid, g, later);
    var t := Applied(mid, g, later);
    JoinAgain(mid, t, s, g, members, now, n2);
    ApplyAgain(mid, g, later, l2);
    assert Changed(t.users, t.users) == {};
  }

  lemma JoinAgain(mid: State, t: State, s: State, g: string, members: set<string>, now: Time, n2: Time)
    requires t.users.Keys == mid.users.Keys
    requires forall id :: id in mid.users ==>
      && t.users[id].groups == mid.users[id].groups && t.users[id].deletedAt == mid.users[id].deletedAt
      && (mid.users[id].deletedAt.None? ==> (g in mid.users[id].groups <==> id in members))
    ensures JoinAll(t.users, g, members, n2) == t.users
  {
  }

  lemma ApplyAgain(s: State, g: string, now: Time, l2: Time)
    requires RolesClean(s.roles)
    ensures Applied(Applied(s, g, now), g, l2) == Applied(s, g, now)
  {
    hide RolesClean, TrimSpace;
    var t := Applied(s, g, now);
    var names := GroupNames(s, g);
    assert GroupNames(t, g) == names;
    forall id | id in t.users
      ensures Mapped(t.users[id], g, names, l2) == t.users[id]
    {
      assert t.users[id] == Mapped(s.users[id], g, names, now);
      GroupNamesNotBlank(s, g);
      MappedAgain(s.users[id], g, names, now, l2);
    }
  }

  lemma GroupNamesNotBlank(s: State, g: string)
    requires RolesClean(s.roles)
    ensures !Names(GroupNames(s, g), "")
  {
    hide TrimSpace;
    NamesMeaning(s.roles, SortedOf(RolesOf(s.mappings, g)), "");
  }

  lemma MappedAgain(u: User, g: string, names: seq<string>, now: Time, l2: Time)
    requires !Names(names, "")
    ensures Mapped(Mapped(u, g, names, now), g, names, l2) == Mapped(u, g, names, now)
  {
    hide Names;
    if g in u.groups {
      forall x | Names(names, x) && x != ""
        ensures x in Added(u.roles, names)
      {
        AddedMembers(u.roles, names, x);
      }
      AddedNothing(Added(u.roles, names), names);
    } else {
      forall x | Names(names, x)
        ensures x !in Removed(u.roles, names)
      {
        RemovedMembers(u.roles, names, x);
      }
      RemovedNothing(Removed(u.roles, names), names);
    }
  }

  /** Unassigning a role leaves it with everyone who had it. */
  lemma UnassignStripsNobody(s: State, group: string, role: string, now: Time, user: string)
    requires RolesClean(s.roles) && user in s.users && TrimSpace(role) in s.roles
    ensures var t := UnassignNext(s, group, role, now).0;
      user in t.users && t.roles == s.roles && (Holds(t, user, TrimSpace(role)) <==> Holds(s, user, TrimSpace(role)))
  {
    hide RolesClean, TrimSpace, Applied, Changed;
    if UnassignNext(s, group, role, now).1.Ok? {
      var g, r := TrimSpace(group), TrimSpace(role);
      var left := s.mappings[g] - {r};
      var mid := s.(mappings := if left == {} then s.mappings - {g} else s.mappings[g := left]);
      AppliedFrame(mid, g, now);
      AppliedRoles(mid, g, now, user, r);
    }
  }
}
