/** Users, roles and group-to-role mappings: three services whose stores are reconciled with
    each other. */
module Groups {
  import opened Wrappers
  import opened Text
  import opened Lists
  import opened SortedKeys

  type Time = int

  datatype User = User(
    id: string, email: string, displayName: string, groups: seq<string>, roles: seq<string>,
    status: string, deletedAt: Option<Time>, updatedAt: Time)

  datatype Role = Role(
    id: string, name: string, description: string, permissions: seq<string>, isSystem: bool,
    createdAt: Time, updatedAt: Time)

  datatype GroupError =
    | FieldsRequired | GroupRequired | RoleNotFound | MappingNotFound | UserNotFound | AlreadyDeleted
    | NameRequired | NameTaken | SystemRole

  datatype State = State(
    users: map<string, User>, mappings: map<string, set<string>>, roles: map<string, Role>)

  /** What an action on a group reports. */
  datatype Response = Response(groupID: string, roleIDs: seq<string>, updatedUsers: nat)

  // ---- Lists of groups and roles ----

  function Without(values: seq<string>, target: string): seq<string> {
    if values == [] then []
    else
      var n := |values| - 1;
      Without(values[..n], target) + if values[n] != target then [values[n]] else []
  }

  lemma {:induction false} WithoutMembers(values: seq<string>, target: string, x: string)
    ensures x in Without(values, target) <==> x in values && x != target
  {
    if values != [] {
      WithoutMembers(values[..|values| - 1], target, x);
      assert values == values[..|values| - 1] + [values[|values| - 1]];
    }
  }

  lemma {:induction false} WithoutAbsent(values: seq<string>, target: string)
    requires target !in values
    ensures Without(values, target) == values
  {
    if values != [] {
      assert values == values[..|values| - 1] + [values[|values| - 1]];
      WithoutAbsent(values[..|values| - 1], target);
    }
  }

  /** The trimmed form of some listed name. */
  ghost predicate Names(names: seq<string>, x: string) {
    exists i :: 0 <= i < |names| && TrimSpace(names[i]) == x
  }

  function Added(roles: seq<string>, names: seq<string>): seq<string> {
    if names == [] then roles
    else
      var r := Added(roles, names[..|names| - 1]);
      var name := TrimSpace(names[|names| - 1]);
      if name != "" && name !in r then r + [name] else r
  }

  function Removed(roles: seq<string>, names: seq<string>): seq<string> {
    if names == [] then roles
    else Without(Removed(roles, names[..|names| - 1]), TrimSpace(names[|names| - 1]))
  }

  lemma NamesSnoc(names: seq<string>, x: string)
    requires names != []
    ensures Names(names, x) <==> Names(names[..|names| - 1], x) || TrimSpace(names[|names| - 1]) == x
  {
  }

  lemma {:induction false} AddedMembers(roles: seq<string>, names: seq<string>, x: string)
    ensures x in Added(roles, names) <==> x in roles || (x != "" && Names(names, x))
  {
    hide TrimSpace, Names;
    if names != [] {
      AddedMembers(roles, names[..|names| - 1], x);
      NamesSnoc(names, x);
    } else {
      NoNames(x);
    }
  }

  lemma NoNames(x: string)
    ensures !Names([], x)
  {
  }

  lemma {:induction false} RemovedMembers(roles: seq<string>, names: seq<string>, x: string)
    ensures x in Removed(roles, names) <==> x in roles && !Names(names, x)
  {
    hide TrimSpace, Names;
    if names != [] {
      RemovedMembers(roles, names[..|names| - 1], x);
      WithoutMembers(Removed(roles, names[..|names| - 1]), TrimSpace(names[|names| - 1]), x);
      NamesSnoc(names, x);
    } else {
      NoNames(x);
    }
  }

  /** Nothing to add, or nothing to remove, leaves the list as it is. */
  lemma {:induction false} AddedNothing(roles: seq<string>, names: seq<string>)
    requires forall x :: Names(names, x) && x != "" ==> x in roles
    ensures Added(roles, names) == roles
  {
    hide TrimSpace, Names;
    if names != [] {
      var t := names[..|names| - 1];
      forall x | Names(t, x) && x != ""
        ensures x in roles
      {
        NamesSnoc(names, x);
      }
      AddedNothing(roles, t);
      NamesSnoc(names, TrimSpace(names[|names| - 1]));
    }
  }

  lemma {:induction false} RemovedNothing(roles: seq<string>, names: seq<string>)
    requires forall x :: Names(names, x) ==> x !in roles
    ensures Removed(roles, names) == roles
  {
    hide TrimSpace, Names;
    if names != [] {
      var t := names[..|names| - 1];
      forall x | Names(t, x)
        ensures x !in roles
      {
        NamesSnoc(names, x);
      }
      RemovedNothing(roles, t);
      NamesSnoc(names, TrimSpace(names[|names| - 1]));
      WithoutAbsent(roles, TrimSpace(names[|names| - 1]));
    }
  }

  // ---- One user ----

  /** A live user after the membership of one group was set. */
  function Joined(u: User, group: string, member: bool, now: Time): User {
    if u.deletedAt.Some? then u
    else if member && group !in u.groups then u.(groups := u.groups + [group], updatedAt := now)
    else if !member && group in u.groups then u.(groups := Without(u.groups, group), updatedAt := now)
    else u
  }

  /** A live user after the roles of one group were applied: added to members, removed from
      everyone else. */
  function Mapped(u: User, group: string, names: seq<string>, now: Time): User {
    if u.deletedAt.Some? then u
    else
      var roles := if group in u.groups then Added(u.roles, names) else Removed(u.roles, names);
      if roles != u.roles then u.(roles := roles, updatedAt := now) else u
  }

  function JoinAll(users: map<string, User>, group: string, members: set<string>, now: Time): map<string, User> {
    map id | id in users :: Joined(users[id], group, id in members, now)
  }

  function MapAll(users: map<string, User>, group: string, names: seq<string>, now: Time): map<string, User> {
    map id | id in users :: Mapped(users[id], group, names, now)
  }

  /** The users that differ between two stores of the same users. */
  function Changed(before: map<string, User>, after: map<string, User>): set<string> {
    set id | id in before && id in after && after[id] != before[id]
  }

  function TrimmedSet(ids: seq<string>): set<string> {
    set i | 0 <= i < |ids| :: TrimSpace(ids[i])
  }

  class UserService {
    var users: map<string, User>

    constructor (initial: map<string, User>)
      ensures users == initial
    {
      users := initial;
    }

    method RemoveValue(values: seq<string>, target: string) returns (filtered: seq<string>)
      ensures filtered == Without(values, target)
    {
      filtered := [];
      for i := 0 to |values|
        invariant filtered == Without(values[..i], target)
      {
        assert values[..i + 1][..i] == values[..i];
        if values[i] != target {
          filtered := filtered + [values[i]];
        }
      }
      assert values[..|values|] == values;
    }

    method EqualSlices(a: seq<string>, b: seq<string>) returns (equal: bool)
      ensures equal <==> a == b
    {
      if |a| != |b| {
        return false;
      }
      for i := 0 to |a|
        invariant a[..i] == b[..i]
      {
        if a[i] != b[i] {
          return false;
        }
        assert a[..i + 1] == a[..i] + [a[i]] && b[..i + 1] == b[..i] + [b[i]];
      }
      assert a[..|a|] == a && b[..|b|] == b;
      return true;
    }

    method ReconcileGroupMembership(group: string, memberIDs: seq<string>, now: Time)
      returns (r: Result<nat, GroupError>)
      modifies this
      ensures var g := TrimSpace(group);
        if g == "" then r == Err(GroupRequired) && users == old(users)
        else users == JoinAll(old(users), g, TrimmedSet(memberIDs), now)
             && r == Ok(|Changed(old(users), users)|)
    {
      hide TrimSpace;
      var groupID := TrimSpace(group);
      if groupID == "" {
        return Err(GroupRequired);
      }
      var memberSet: set<string> := {};
      for i := 0 to |memberIDs|
        invariant memberSet == TrimmedSet(memberIDs[..i])
        invariant users == old(users)
      {
        memberSet := memberSet + {TrimSpace(memberIDs[i])};
        TrimmedSetSnoc(memberIDs, i);
      }
      assert memberIDs[..|memberIDs|] == memberIDs;
      assert memberSet == TrimmedSet(memberIDs);
      hide TrimmedSet, JoinAll, Changed;
      var changed := JoinLoop(groupID, memberSet, now);
      return Ok(changed);
    }

    /** The groups of one live user, and whether they differ from before. */
    method JoinUser(user: User, groupID: string, shouldBeMember: bool, now: Time) returns (joined: User, differs: bool)
      requires user.deletedAt.None?
      ensures joined == Joined(user, groupID, shouldBeMember, now)
      ensures differs <==> joined != user
    {
      joined, differs := user, false;
      var hasGroup := groupID in user.groups;
      if shouldBeMember && !hasGroup {
        joined := joined.(groups := joined.groups + [groupID]);
        joined := joined.(updatedAt := now);
        differs := true;
      } else if !shouldBeMember && hasGroup {
        var filtered := RemoveValue(user.groups, groupID);
        WithoutMembers(user.groups, groupID, groupID);
        joined := joined.(groups := filtered);
        joined := joined.(updatedAt := now);
        differs := true;
      }
    }

    lemma DeletedUnjoined(user: User, groupID: string, member: bool, now: Time)
      requires user.deletedAt.Some?
      ensures Joined(user, groupID, member, now) == user
    {
    }

    method JoinLoop(groupID: string, memberSet: set<string>, now: Time) returns (changed: nat)
      modifies this
      ensures users == JoinAll(old(users), groupID, memberSet, now)
      ensures changed == |Changed(old(users), users)|
    {
      hide Joined;
      ghost var before := users;
      changed := 0;
      var rest := users.Keys;
      ghost var touched: set<string> := {};
      while rest != {}
        invariant rest <= before.Keys && users.Keys == before.Keys
        invariant forall id :: id in before ==>
          users[id] == if id in rest then before[id] else Joined(before[id], groupID, id in memberSet, now)
        invariant forall id :: id in touched <==> id in before && id !in rest && users[id] != before[id]
        invariant changed == |touched|
        decreases rest
      {
        var userID :| userID in rest;
        rest := rest - {userID};
        var user := users[userID];
        if user.deletedAt.None? {
          var joined, differs := JoinUser(user, groupID, userID in memberSet, now);
          if differs {
            users := users[userID := joined];
            changed := changed + 1;
            touched := touched + {userID};
          }
        } else {
          DeletedUnjoined(user, groupID, userID in memberSet, now);
        }
      }
      assert touched == Changed(before, users);
    }

    method ApplyRoleMapping(group: string, roleNames: seq<string>, now: Time) returns (changed: nat)
      modifies this
      ensures var g := TrimSpace(group);
        users == (if g == "" then old(users) else MapAll(old(users), g, roleNames, now))
      ensures changed == |Changed(old(users), users)|
    {
      hide TrimSpace, MapAll;
      var groupID := TrimSpace(group);
      if groupID == "" {
        assert Changed(users, users) == {};
        return 0;
      }
      changed := MapLoop(groupID, roleNames, now);
    }

    method AddMissing(roles: seq<string>, names: seq<string>) returns (r: seq<string>)
      ensures r == Added(roles, names)
    {
      hide TrimSpace;
      r := roles;
      for i := 0 to |names|
        invariant r == Added(roles, names[..i])
      {
        assert names[..i + 1][..i] == names[..i];
        var role := TrimSpace(names[i]);
        if role != "" && role !in r {
          r := r + [role];
        }
      }
      assert names[..|names|] == names;
    }

    method RemoveAll(roles: seq<string>, names: seq<string>) returns (r: seq<string>)
      ensures r == Removed(roles, names)
    {
      hide TrimSpace;
      r := roles;
      for i := 0 to |names|
        invariant r == Removed(roles, names[..i])
      {
        assert names[..i + 1][..i] == names[..i];
        r := RemoveValue(r, TrimSpace(names[i]));
      }
      assert names[..|names|] == names;
    }

    /** The roles of one live user, and whether they differ from before. */
    method MapUser(user: User, groupID: string, roleNames: seq<string>, now: Time) returns (mapped: User, differs: bool)
      requires user.deletedAt.None?
      ensures mapped == Mapped(user, groupID, roleNames, now)
      ensures differs <==> mapped != user
    {
      hide Added, Removed;
      var member := groupID in user.groups;
      var roles: seq<string>;
      if member {
        roles := AddMissing(user.roles, roleNames);
      } else {
        roles := RemoveAll(user.roles, roleNames);
      }
      var same := EqualSlices(user.roles, roles);
      differs := !same;
      mapped := if differs then user.(roles := roles, updatedAt := now) else user;
    }

    lemma DeletedUnmapped(user: User, groupID: string, roleNames: seq<string>, now: Time)
      requires user.deletedAt.Some?
      ensures Mapped(user, groupID, roleNames, now) == user
    {
    }

    method MapLoop(groupID: string, roleNames: seq<string>, now: Time) returns (changed: nat)
      modifies this
      ensures users == MapAll(old(users), groupID, roleNames, now)
      ensures changed == |Changed(old(users), users)|
    {
      hide Mapped;
      ghost var before := users;
      changed := 0;
      var rest := users.Keys;
      ghost var touched: set<string> := {};
      while rest != {}
        invariant rest <= before.Keys && users.Keys == before.Keys
        invariant forall id :: id in before ==>
          users[id] == if id in rest then before[id] else Mapped(before[id], groupID, roleNames, now)
        invariant forall id :: id in touched <==> id in before && id !in rest && users[id] != before[id]
        invariant changed == |touched|
        decreases rest
      {
        var userID :| userID in rest;
        rest := rest - {userID};
        var user := users[userID];
        if user.deletedAt.None? {
          var mapped, differs := MapUser(user, groupID, roleNames, now);
          if differs {
            users := users[userID := mapped];
            changed := changed + 1;
            touched := touched + {userID};
          }
        } else {
          DeletedUnmapped(user, groupID, roleNames, now);
        }
      }
      assert touched == Changed(before, users);
    }

    method SoftDeleteUser(userID: string, now: Time) returns (r: Result<User, GroupError>)
      modifies this
      ensures (users, r) == DeletedOutcome(old(users), userID, now)
    {
      if userID !in users {
        return Err(UserNotFound);
      }
      var user := users[userID];
      if user.deletedAt.Some? {
        return Err(AlreadyDeleted);
      }
      user := user.(deletedAt := Some(now));
      user := user.(status := "deleted");
      user := user.(updatedAt := now);
      users := users[userID := user];
      return Ok(user);
    }
  }

  function DeletedOutcome(users: map<string, User>, id: string, now: Time)
    : (map<string, User>, Result<User, GroupError>)
  {
    if id !in users then (users, Err(UserNotFound))
    else if users[id].deletedAt.Some? then (users, Err(AlreadyDeleted))
    else
      var u := users[id].(deletedAt := Some(now), status := "deleted", updatedAt := now);
      (users[id := u], Ok(u))
  }

  // ---- Roles ----

  ghost predicate RoleNameTaken(roles: map<string, Role>, name: string) {
    exists id :: id in roles && roles[id].name == name
  }

  ghost function RoleOutcome(roles: map<string, Role>, name: string, description: string, permissions: seq<string>,
                             isSystem: bool, id: string, now: Time): Result<Role, GroupError>
  {
    var n := TrimSpace(ToLower(name));
    if n == "" then Err(NameRequired)
    else if RoleNameTaken(roles, n) then Err(NameTaken)
    else Ok(Role(id, n, TrimSpace(description), FirstOccurrences(Kept(permissions, TrimSpace)), isSystem, now, now))
  }

  function DeleteRoleOutcome(roles: map<string, Role>, id: string): (map<string, Role>, Result<(), GroupError>) {
    if id !in roles then (roles, Err(RoleNotFound))
    else if roles[id].isSystem then (roles, Err(SystemRole))
    else (roles - {id}, Ok(()))
  }

  class RoleService {
    var roles: map<string, Role>

    constructor ()
      ensures roles == map[]
    {
      roles := map[];
    }

    method CreateRole(roleName: string, description: string, permissions: seq<string>, isSystem: bool,
                      id: string, now: Time) returns (r: Result<Role, GroupError>)
      requires id !in roles
      modifies this
      ensures r == RoleOutcome(old(roles), roleName, description, permissions, isSystem, id, now)
      ensures roles == if r.Ok? then old(roles)[id := r.value] else old(roles)
    {
      hide TrimSpace, ToLower, Kept, FirstOccurrences;
      var name := TrimSpace(ToLower(roleName));
      if name == "" {
        return Err(NameRequired);
      }
      var deduped := Dedupe(permissions, TrimSpace);
      var role := Role(id, name, TrimSpace(description), deduped, isSystem, now, now);
      var rest := roles.Keys;
      while rest != {}
        invariant rest <= roles.Keys && roles == old(roles)
        invariant forall k :: k in roles && k !in rest ==> roles[k].name != name
        decreases rest
      {
        var k :| k in rest;
        if roles[k].name == role.name {
          return Err(NameTaken);
        }
        rest := rest - {k};
      }
      roles := roles[role.id := role];
      return Ok(role);
    }

    method DeleteRole(id: string) returns (r: Result<(), GroupError>)
      modifies this
      ensures (roles, r) == DeleteRoleOutcome(old(roles), id)
    {
      if id !in roles {
        return Err(RoleNotFound);
      }
      if roles[id].isSystem {
        return Err(SystemRole);
      }
      roles := roles - {id};
      return Ok(());
    }
  }

  // ---- Mappings ----

  function RolesOf(mappings: map<string, set<string>>, group: string): set<string> {
    if group in mappings then mappings[group] else {}
  }

  /** The names of those roles of a list that still exist, in its order. */
  function NamesFor(roles: map<string, Role>, ids: seq<string>): seq<string> {
    if ids == [] then []
    else
      var n := |ids| - 1;
      NamesFor(roles, ids[..n]) + if ids[n] in roles then [roles[ids[n]].name] else []
  }

  /** The names of the existing roles mapped to a group, by ascending role id. */
  ghost function GroupNames(s: State, group: string): seq<string> {
    NamesFor(s.roles, SortedOf(RolesOf(s.mappings, group)))
  }

  /** The roles of a group applied to all users. */
  ghost function Applied(s: State, group: string, now: Time): State {
    s.(users := MapAll(s.users, group, GroupNames(s, group), now))
  }

  ghost function Reported(before: State, group: string, now: Time): Result<Response, GroupError> {
    Ok(Response(group, SortedOf(RolesOf(before.mappings, group)),
                |Changed(before.users, Applied(before, group, now).users)|))
  }

  ghost function AssignNext(s: State, group: string, role: string, now: Time): (State, Result<Response, GroupError>) {
    var g, r := TrimSpace(group), TrimSpace(role);
    if g == "" || r == "" then (s, Err(FieldsRequired))
    else if r !in s.roles then (s, Err(RoleNotFound))
    else
      var mid := s.(mappings := s.mappings[g := RolesOf(s.mappings, g) + {r}]);
      (Applied(mid, g, now), Reported(mid, g, now))
  }

  ghost function UnassignNext(s: State, group: string, role: string, now: Time): (State, Result<Response, GroupError>) {
    var g, r := TrimSpace(group), TrimSpace(role);
    if g == "" || r == "" then (s, Err(FieldsRequired))
    else if g !in s.mappings then (s, Err(MappingNotFound))
    else
      var left := s.mappings[g] - {r};
      var mid := s.(mappings := if left == {} then s.mappings - {g} else s.mappings[g := left]);
      (Applied(mid, g, now), Reported(mid, g, now))
  }

  /** Membership first, then roles, each at its own clock reading. */
  ghost function ReconcileNext(s: State, group: string, memberIDs: seq<string>, now: Time, later: Time)
    : (State, Result<Response, GroupError>)
  {
    var g := TrimSpace(group);
    if g == "" then (s, Err(GroupRequired))
    else
      var mid := s.(users := JoinAll(s.users, g, TrimmedSet(memberIDs), now));
      (Applied(mid, g, later), Reported(mid, g, later))
  }

  class GroupMappingService {
    var mappings: map<string, set<string>>
    const roleService: RoleService
    const userService: UserService

    constructor (roleService: RoleService, userService: UserService)
      ensures mappings == map[] && this.roleService == roleService && this.userService == userService
    {
      mappings := map[];
      this.roleService, this.userService := roleService, userService;
    }

    function Contents(): State
      reads this, roleService, userService
    {
      State(userService.users, mappings, roleService.roles)
    }

    method RoleNamesForIDs(ids: seq<string>) returns (names: seq<string>)
      ensures names == NamesFor(roleService.roles, ids)
    {
      names := [];
      for i := 0 to |ids|
        invariant names == NamesFor(roleService.roles, ids[..i])
      {
        assert ids[..i + 1][..i] == ids[..i];
        if ids[i] in roleService.roles {
          names := names + [roleService.roles[ids[i]].name];
        }
      }
      assert ids[..|ids|] == ids;
    }

    /** Applies the roles now mapped to the group and reports what changed. */
    method ApplyGroup(groupID: string, now: Time) returns (r: Result<Response, GroupError>)
      requires groupID != "" && Trimmed(groupID)
      modifies userService
      ensures Contents() == Applied(old(Contents()), groupID, now)
      ensures r == Reported(old(Contents()), groupID, now)
    {
      hide TrimSpace, Trimmed, MapAll, Changed, NamesFor;
      var mapped := if groupID in mappings then mappings[groupID] else {};
      var roleIDs := MapKeys(mapped);
      var names := RoleNamesForIDs(roleIDs);
      var updatedUsers := userService.ApplyRoleMapping(groupID, names, now);
      return Ok(Response(groupID, roleIDs, updatedUsers));
    }

    method AssignRole(group: string, role: string, now: Time) returns (r: Result<Response, GroupError>)
      modifies this, userService
      ensures (Contents(), r) == AssignNext(old(Contents()), group, role, now)
    {
      hide TrimSpace, Trimmed, Applied, Reported;
      var groupID, roleID := TrimSpace(group), TrimSpace(role);
      if groupID == "" || roleID == "" {
        return Err(FieldsRequired);
      }
      if roleID !in roleService.roles {
        return Err(RoleNotFound);
      }
      if groupID !in mappings {
        mappings := mappings[groupID := {}];
      }
      mappings := mappings[groupID := mappings[groupID] + {roleID}];
      assert mappings == old(mappings)[groupID := RolesOf(old(mappings), groupID) + {roleID}];
      r := ApplyGroup(groupID, now);
    }

    method UnassignRole(group: string, role: string, now: Time) returns (r: Result<Response, GroupError>)
      modifies this, userService
      ensures (Contents(), r) == UnassignNext(old(Contents()), group, role, now)
    {
      hide TrimSpace, Trimmed, Applied, Reported;
      var groupID, roleID := TrimSpace(group), TrimSpace(role);
      if groupID == "" || roleID == "" {
        return Err(FieldsRequired);
      }
      if groupID !in mappings {
        return Err(MappingNotFound);
      }
      mappings := mappings[groupID := mappings[groupID] - {roleID}];
      if |mappings[groupID]| == 0 {
        mappings := mappings - {groupID};
        assert mappings == old(mappings) - {groupID};
      }
      r := ApplyGroup(groupID, now);
    }

    method ReconcileGroupMembers(group: string, memberIDs: seq<string>, now: Time, later: Time)
      returns (r: Result<Response, GroupError>)
      modifies userService
      ensures (Contents(), r) == ReconcileNext(old(Contents()), group, memberIDs, now, later)
    {
      hide TrimSpace, Trimmed, Applied, Reported, JoinAll, TrimmedSet, Changed;
      var groupID := TrimSpace(group);
      if groupID == "" {
        return Err(GroupRequired);
      }
      var joined := userService.ReconcileGroupMembership(groupID, memberIDs, now);
      if joined.Err? {
        assert false;
      }
      r := ApplyGroup(groupID, later);
    }
  }

  lemma TrimmedSetSnoc(ids: seq<string>, i: nat)
    requires i < |ids|
    ensures TrimmedSet(ids[..i + 1]) == TrimmedSet(ids[..i]) + {TrimSpace(ids[i])}
  {
  }
}
