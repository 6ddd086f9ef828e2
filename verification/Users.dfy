/** User administration: `userService` in user_service.go, one call at a time, with role lookups,
    role assignment, repository calls and the rollback able to fail.
 */
module Users {
  import opened Wrappers
  import opened Sets

  datatype User = User(name: string, username: string, email: string, active: bool, mustChange: bool,
      passwordHash: string)

  datatype Error = NotFound | InvalidRole | CannotModifySelf | LastAdmin | Hash | Database | AssignRole

  /** Which calls fail during one operation. A role lookup may fail for one user and not for another. */
  datatype Faults = Faults(get: bool, lookup: bool, list: bool, countLookups: set<int>, hash: bool,
                           write: bool, secondWrite: bool, assign: bool, rollback: bool)
  {
    predicate None() {
      !get && !lookup && !list && countLookups == {} && !hash && !write && !secondWrite && !assign
    }
  }

  predicate ValidRole(role: string) { role in {"admin", "operator", "viewer"} }

  /** How much a role may do; a label that is none of the three counts as no role. */
  function RoleRank(role: string): nat {
    if role == "admin" then 3 else if role == "operator" then 2 else if role == "viewer" then 1 else 0
  }

  /** Everything the service holds between calls. */
  datatype World = World(users: map<int, User>, roles: map<int, string>, nextId: int) {
    /** Ids of users that are active and hold the role admin. */
    ghost function ActiveAdmins(): set<int> {
      set id | id in users && users[id].active && id in roles && roles[id] == "admin"
    }

    /** A user that the management API can reach: present and with a role. */
    predicate IsAppUser(id: int) { id in users && id in roles && roles[id] != "" }

    predicate Deactivates(id: int, active: bool) { id in users && users[id].active && !active }

    /** The update would take the role admin from an admin, or deactivate one. */
    predicate LosesAdmin(id: int, role: string, active: bool) {
      IsAppUser(id) && roles[id] == "admin" && (role != "admin" || Deactivates(id, active))
    }

    function RankOf(id: int): nat { if id in roles then RoleRank(roles[id]) else 0 }

    /** No more than one active admin can be seen. */
    ghost predicate FewAdmins(f: Faults) { |ActiveAdmins() - f.countLookups| <= 1 }

    /** Neither guard of Update stops it. */
    ghost predicate GuardPasses(id: int, role: string, active: bool, actor: int, f: Faults) {
      && (LosesAdmin(id, role, active) ==> !f.list && !FewAdmins(f))
      && !(id == actor && (LosesAdmin(id, role, active) || Deactivates(id, active)))
    }
  }

  class UserService {
    var users: map<int, User>
    var roles: map<int, string>  // role labels kept by goauth; they outlive a deleted user
    var nextId: int

    ghost function State(): World
      reads this
    {
      World(users, roles, nextId)
    }

    ghost function ActiveAdmins(): set<int>
      reads this
    {
      State().ActiveAdmins()
    }

    ghost predicate Valid()
      reads this
    {
      forall id :: id in users || id in roles ==> id < nextId
    }

    ghost predicate IsAppUser(id: int)
      reads this
    {
      State().IsAppUser(id)
    }

    /** The actor still exists, and has lost neither activity nor the role admin. */
    twostate predicate KeepsActor(actor: int)
      reads this
    {
      actor in old(users) ==>
        && actor in users
        && (old(users)[actor].active ==> users[actor].active)
        && (actor in old(roles) && old(roles)[actor] == "admin" ==> actor in roles && roles[actor] == "admin")
    }

    constructor ()
      ensures Valid() && users == map[] && roles == map[]
    {
      users, roles, nextId := map[], map[], 1;
    }

    function RoleOf(id: int, fails: bool): string
      reads this
    {
      if fails || id !in roles then "" else roles[id]
    }

    /** `adminCount`: a failed lookup hides an admin, so the count may only be too low. */
    method AdminCount(list: bool, failing: set<int>) returns (n: Option<nat>)
      ensures n.None? <==> list
      ensures n.Some? ==> n.value == |ActiveAdmins() - failing| <= |ActiveAdmins()|
    {
      if list {
        return None;
      }
      var count := 0;
      var todo := users.Keys;
      ghost var counted: set<int> := {};
      while todo != {}
        invariant todo <= users.Keys && count == |counted|
        invariant counted == set id | id in ActiveAdmins() - failing && id !in todo
      {
        var id := AnyOf(todo);
        todo := todo - {id};
        if users[id].active && RoleOf(id, id in failing) == "admin" {
          count := count + 1;
          counted := counted + {id};
        }
      }
      assert counted == ActiveAdmins() - failing;
      Smaller(counted, ActiveAdmins());
      return Some(count);
    }

    ghost predicate FewAdmins(f: Faults)
      reads this
    {
      State().FewAdmins(f)
    }

    /** The last-admin guard of Update and Delete: passing it means another active admin remains. */
    method CheckNotLastAdmin(id: int, f: Faults) returns (refusal: Option<Error>)
      ensures refusal.None? ==> ActiveAdmins() - {id} != {}
      ensures refusal == if f.list then Some(Database) else if FewAdmins(f) then Some(LastAdmin) else None
    {
      var n := AdminCount(f.list, f.countLookups);
      if n.None? {
        return Some(Database);
      }
      if n.value <= 1 {
        return Some(LastAdmin);
      }
      OneMore(ActiveAdmins(), id);
      return None;
    }

    /** `loadAppUser`. */
    method LoadAppUser(id: int, f: Faults) returns (r: Option<(User, string)>)
      ensures r.Some? <==> !f.get && !f.lookup && IsAppUser(id)
      ensures r.Some? ==> r.value == (users[id], roles[id])
    {
      if f.get || id !in users {
        return None;
      }
      var role := RoleOf(id, f.lookup);
      return if role == "" then None else Some((users[id], role));
    }

    method Create(name: string, username: string, email: string, role: string, hash: string, mustChange: bool,
        actor: int, f: Faults)
      returns (r: Result<int, Error>)
      requires Valid()
      modifies this
      ensures Valid() && KeepsActor(actor)
      ensures old(ActiveAdmins()) <= ActiveAdmins()
      ensures r.Ok? ==> && r.value == old(nextId) && ValidRole(role)
                        && users == old(users)[r.value := User(name, username, email, true, mustChange, hash)]
                        && roles == old(roles)[r.value := role]
      ensures r.Ok? ==> nextId == old(nextId) + 1
      ensures r.Ok? <==> ValidRole(role) && !f.hash && !f.write && !f.assign
      ensures r == Err(InvalidRole) <==> !ValidRole(role)
      ensures r == Err(AssignRole) <==> ValidRole(role) && !f.hash && !f.write && f.assign
      ensures r.Err? ==> roles == old(roles)
      ensures r.Err? ==> if r.error == AssignRole && f.rollback
                         then users == old(users)[old(nextId) := User(name, username, email, true, mustChange, hash)]
                         else users == old(users)
    {
      if !ValidRole(role) {
        return Err(InvalidRole);
      }
      if f.hash {
        return Err(Hash);
      }
      if f.write {
        return Err(Database);
      }
      var id := nextId;
      ghost var before := users;
      users, nextId := users[id := User(name, username, email, true, mustChange, hash)], nextId + 1;
      if f.assign {
        if !f.rollback {
          users := users - {id};
          assert users == before;
        }
        return Err(AssignRole);
      }
      roles := roles[id := role];
      return Ok(id);
    }

    /** The guards: never the last active admin, never oneself. The self guard speaks of activity and of the
        role admin only; `OwnRankFallsIff` is the exact rule. */
    method Update(id: int, name: string, email: string, role: string, active: bool, actor: int, f: Faults)
      returns (r: Result<(), Error>)
      requires Valid()
      modifies this
      ensures Valid() && KeepsActor(actor)
      ensures old(ActiveAdmins()) != {} ==> ActiveAdmins() != {}
      ensures r.Ok? || r == Err(AssignRole) ==>
                && old(IsAppUser(id)) && ValidRole(role)
                && users == old(users)[id := old(users)[id].(name := name, email := email, active := active)]
      ensures r.Ok? ==> roles == old(roles)[id := role]
      ensures r.Err? ==> roles == old(roles) && (r.error != AssignRole ==> users == old(users))
      ensures nextId == old(nextId)
      ensures r == Err(InvalidRole) <==> !ValidRole(role)
      ensures r == Err(NotFound) <==> ValidRole(role) && (f.get || f.lookup || !old(IsAppUser(id)))
      ensures r.Ok? || r == Err(AssignRole) <==>
                && ValidRole(role) && !f.get && !f.lookup && old(IsAppUser(id)) && !f.write
                && old(GuardPasses(id, role, active, actor, f))
      ensures r == Err(AssignRole) ==> f.assign && role != old(roles)[id]
      ensures r.Ok? && f.assign ==> role == old(roles)[id]
      ensures r == Err(LastAdmin) ==> old(LosesAdmin(id, role, active) && FewAdmins(f))
      ensures r == Err(CannotModifySelf) ==> id == actor && old(LosesAdmin(id, role, active) || Deactivates(id, active))
    {
      if !ValidRole(role) {
        return Err(InvalidRole);
      }
      var loaded := LoadAppUser(id, f);
      if loaded.None? {
        return Err(NotFound);
      }
      var (u, oldRole) := loaded.value;
      var refusal := GuardUpdate(id, u, oldRole, role, active, actor, f);
      if refusal.Some? {
        return Err(refusal.value);
      }
      r := SaveProfile(id, u.(name := name, email := email, active := active), oldRole, role, f);
    }

    ghost predicate GuardPasses(id: int, role: string, active: bool, actor: int, f: Faults)
      reads this
    {
      State().GuardPasses(id, role, active, actor, f)
    }

    /** The two guards of Update. */
    method GuardUpdate(id: int, u: User, oldRole: string, role: string, active: bool, actor: int, f: Faults)
      returns (refusal: Option<Error>)
      requires IsAppUser(id) && users[id] == u && roles[id] == oldRole
      ensures refusal.None? ==> (LosesAdmin(id, role, active) ==> ActiveAdmins() - {id} != {})
      ensures refusal.None? ==> !(id == actor && (LosesAdmin(id, role, active) || Deactivates(id, active)))
      ensures refusal == if LosesAdmin(id, role, active) && f.list then Some(Database)
                         else if LosesAdmin(id, role, active) && FewAdmins(f) then Some(LastAdmin)
                         else if id == actor && (LosesAdmin(id, role, active) || Deactivates(id, active))
                         then Some(CannotModifySelf) else None
    {
      var losingAdmin := oldRole == "admin" && role != "admin";
      var deactivating := u.active && !active;
      if (losingAdmin || deactivating) && oldRole == "admin" {
        refusal := CheckNotLastAdmin(id, f);
        if refusal.Some? {
          return;
        }
      }
      return if id == actor && (losingAdmin || deactivating) then Some(CannotModifySelf) else None;
    }

    /** The writes of Update: the row, then the role if it changes. */
    method SaveProfile(id: int, u: User, oldRole: string, role: string, f: Faults) returns (r: Result<(), Error>)
      requires Valid() && id in users && id in roles && roles[id] == oldRole
      modifies this
      ensures Valid()
      ensures r.Ok? || r == Err(AssignRole) ==> users == old(users)[id := u]
      ensures r.Ok? ==> roles == old(roles)[id := role]
      ensures r.Err? ==> roles == old(roles) && (r.error != AssignRole ==> users == old(users))
      ensures old(ActiveAdmins()) - {id} <= ActiveAdmins()
      ensures id in old(ActiveAdmins()) && u.active && role == "admin" ==> id in ActiveAdmins()
      ensures nextId == old(nextId)
      ensures r.Ok? <==> !f.write && (role != oldRole ==> !f.assign)
      ensures r.Err? ==> r.error == if f.write then Database else AssignRole
    {
      if f.write {
        return Err(Database);
      }
      users := users[id := u];
      if role != oldRole {
        if f.assign {
          return Err(AssignRole);
        }
        roles := roles[id := role];
      }
      return Ok(());
    }

    ghost predicate LosesAdmin(id: int, role: string, active: bool)
      reads this
    {
      State().LosesAdmin(id, role, active)
    }

    ghost predicate Deactivates(id: int, active: bool)
      reads this
    {
      State().Deactivates(id, active)
    }

    /** The row written last carries the activity that was loaded. */
    method ResetPassword(id: int, hash: string, mustChange: bool, actor: int, f: Faults) returns (r: Result<(), Error>)
      requires Valid()
      modifies this`users
      ensures Valid() && KeepsActor(actor)
      ensures ActiveAdmins() == old(ActiveAdmins())
      ensures r.Ok? ==> old(IsAppUser(id)) && users == old(users)[id := old(users)[id].(passwordHash := hash,
          mustChange := mustChange)]
      ensures r.Ok? <==> !f.get && !f.lookup && old(IsAppUser(id)) && !f.hash && !f.write && !f.secondWrite
      ensures r == Err(NotFound) <==> f.get || f.lookup || !old(IsAppUser(id))
      ensures r == Err(Database) ==> f.write || f.secondWrite
      ensures r.Err? ==>
                if r.error == Database && !f.write
                then id in old(users) && users == old(users)[id := old(users)[id].(passwordHash := hash)]
                else users == old(users)
    {
      var loaded := LoadAppUser(id, f);
      if loaded.None? {
        return Err(NotFound);
      }
      var u := loaded.value.0;
      if f.hash {
        return Err(Hash);
      }
      if f.write {
        return Err(Database);
      }
      users := users[id := users[id].(passwordHash := hash)];
      if f.secondWrite {
        return Err(Database);
      }
      users := users[id := users[id].(name := u.name, email := u.email, active := u.active, mustChange := mustChange)];
      return Ok(());
    }

    method Delete(id: int, actor: int, f: Faults) returns (r: Result<(), Error>)
      requires Valid()
      modifies this`users
      ensures Valid() && KeepsActor(actor)
      ensures old(ActiveAdmins()) != {} ==> ActiveAdmins() != {}
      ensures r.Ok? ==> id != actor && old(IsAppUser(id)) && users == old(users) - {id}
      ensures r.Err? ==> users == old(users)
      ensures r == Err(CannotModifySelf) <==> id == actor
      ensures r == Err(NotFound) <==> id != actor && (f.get || f.lookup || !old(IsAppUser(id)))
      ensures r.Ok? <==> && id != actor && !f.get && !f.lookup && old(IsAppUser(id)) && !f.write
                         && (old(roles)[id] == "admin" ==> !f.list && !old(FewAdmins(f)))
    {
      if id == actor {
        return Err(CannotModifySelf);
      }
      var loaded := LoadAppUser(id, f);
      if loaded.None? {
        return Err(NotFound);
      }
      if loaded.value.1 == "admin" {
        var refusal := CheckNotLastAdmin(id, f);
        if refusal.Some? {
          return Err(refusal.value);
        }
      }
      if f.write {
        return Err(Database);
      }
      ghost var before := ActiveAdmins();
      users := users - {id};
      assert ActiveAdmins() == before - {id};
      return Ok(());
    }
  }

  lemma OneMore(s: set<int>, id: int)
    requires |s| > 1
    ensures s - {id} != {}
  {
    if s - {id} == {} {
      Smaller(s, {id});
    }
  }

  // ------------------------------------------------------------ whole runs

  datatype Op =
    | CreateOp(name: string, username: string, email: string, role: string, hash: string, mustChange: bool)
    | UpdateOp(id: int, name: string, email: string, role: string, active: bool)
    | ResetOp(id: int, hash: string, mustChange: bool)
    | DeleteOp(id: int)

  datatype Call = Call(op: Op, actor: int, f: Faults)

  /** Exactly when a call succeeds. */
  ghost predicate Permits(w: World, c: Call) {
    match c.op
    case CreateOp(_, _, _, role, _, _) => ValidRole(role) && !c.f.hash && !c.f.write && !c.f.assign
    case UpdateOp(id, _, _, role, active) =>
      && ValidRole(role) && !c.f.get && !c.f.lookup && w.IsAppUser(id) && !c.f.write
      && w.GuardPasses(id, role, active, c.actor, c.f) && (role != w.roles[id] ==> !c.f.assign)
    case ResetOp(id, _, _) => !c.f.get && !c.f.lookup && w.IsAppUser(id) && !c.f.hash && !c.f.write && !c.f.secondWrite
    case DeleteOp(id) =>
      && id != c.actor && !c.f.get && !c.f.lookup && w.IsAppUser(id) && !c.f.write
      && (w.roles[id] == "admin" ==> !c.f.list && !w.FewAdmins(c.f))
  }

  /** The call as a whole: what a success changes, and that a failure changes no role, and no user either
      unless a later one of several writes failed. */
  ghost predicate Performs(w: World, c: Call, w': World, ok: bool) {
    && (ok <==> Permits(w, c))
    && (!ok ==> w'.roles == w.roles && (c.f.assign || c.f.secondWrite || w'.users == w.users))
    && (ok ==>
          match c.op
          case CreateOp(name, username, email, role, hash, mustChange) =>
            w' == World(w.users[w.nextId := User(name, username, email, true, mustChange, hash)],
                        w.roles[w.nextId := role], w.nextId + 1)
          case UpdateOp(id, name, email, role, active) =>
            w' == w.(users := w.users[id := w.users[id].(name := name, email := email, active := active)],
                     roles := w.roles[id := role])
          case ResetOp(id, hash, mustChange) =>
            w' == w.(users := w.users[id := w.users[id].(passwordHash := hash, mustChange := mustChange)])
          case DeleteOp(id) => w' == w.(users := w.users - {id}))
  }

  /** The call makes its own actor, an operator, a viewer, and keeps it active. */
  ghost predicate StepsDown(w: World, c: Call) {
    && c.op.UpdateOp? && c.op.id == c.actor && w.IsAppUser(c.actor)
    && w.roles[c.actor] == "operator" && c.op.role == "viewer" && !w.Deactivates(c.actor, c.op.active)
  }

  /** The exact rule for one's own account: a call lowers the rank of its actor exactly when it makes an
      operator a viewer and keeps it active. Failures can only prevent that. */
  lemma OwnRankFallsIff(w: World, c: Call, w': World, ok: bool)
    requires Performs(w, c, w', ok) && forall id :: id in w.roles ==> id < w.nextId
    ensures w'.RankOf(c.actor) < w.RankOf(c.actor) <==> StepsDown(w, c) && ok
    ensures c.f.None() && StepsDown(w, c) ==> ok
  {
  }

  /** Every run does what its calls say, and if it starts with an active admin it has one after each call,
      whatever fails. */
  method RunAll(s: UserService, calls: seq<Call>) returns (oks: seq<bool>, ghost worlds: seq<World>)
    requires s.Valid() && s.ActiveAdmins() != {}
    modifies s
    ensures s.Valid() && |oks| == |calls| && |worlds| == |calls| + 1
    ensures worlds[0] == old(s.State()) && worlds[|calls|] == s.State()
    ensures forall i :: 0 <= i < |calls| ==> Performs(worlds[i], calls[i], worlds[i + 1], oks[i])
    ensures forall i :: 0 <= i <= |calls| ==> worlds[i].ActiveAdmins() != {}
  {
    oks, worlds := [], [s.State()];
    for i := 0 to |calls|
      invariant s.Valid() && |oks| == i && |worlds| == i + 1
      invariant worlds[0] == old(s.State()) && worlds[i] == s.State()
      invariant forall k :: 0 <= k < i ==> Performs(worlds[k], calls[k], worlds[k + 1], oks[k])
      invariant forall k :: 0 <= k <= i ==> worlds[k].ActiveAdmins() != {}
    {
      var ok := RunOne(s, calls[i]);
      oks, worlds := oks + [ok], worlds + [s.State()];
    }
  }

  method RunOne(s: UserService, c: Call) returns (ok: bool)
    requires s.Valid()
    modifies s
    ensures s.Valid() && s.KeepsActor(c.actor) && Performs(old(s.State()), c, s.State(), ok)
    ensures old(s.ActiveAdmins()) != {} ==> s.ActiveAdmins() != {}
  {
    match c.op {
      case CreateOp(name, username, email, role, hash, mustChange) =>
        var r := s.Create(name, username, email, role, hash, mustChange, c.actor, c.f);
        ok := r.Ok?;
      case UpdateOp(id, name, email, role, active) =>
        var r := s.Update(id, name, email, role, active, c.actor, c.f);
        ok := r.Ok?;
      case ResetOp(id, hash, mustChange) =>
        var r := s.ResetPassword(id, hash, mustChange, c.actor, c.f);
        ok := r.Ok?;
      case DeleteOp(id) =>
        var r := s.Delete(id, c.actor, c.f);
        ok := r.Ok?;
    }
  }
}
