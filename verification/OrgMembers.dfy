/**
 Membership of organisations: who may change whom, and why every organisation keeps an active
 owner.  Every commit transaction is one step; the permission check of a removal is a step of
 its own, because it reads the tables before the transaction begins.
 */
module OrgMembers {
  import opened Common

  datatype Role = Owner | Admin | Teacher | Student

  datatype Standing = Active | Invited | Suspended

  datatype Member = Member(role: Role, status: Standing)

  datatype Course = Course(org: Uuid, owner: Uuid)

  /** Claims of a validated token; sysAdmin is the system role, active the state of the account. */
  datatype Caller = Anonymous | Claims(sub: Uuid, sysAdmin: bool, active: bool)

  datatype Error =
    | Unauthenticated
    | AccountNotActive
    | NotAMember
    | MembershipNotActive
    | PermissionDenied
    | NotFound
    | AlreadyExists
    | MissingReference
    | StillReferenced
    | LastOwner
    | NoPendingInvitation

  type RowKey = (Uuid, Uuid)                  // organisation, user

  /** The tables involved, by primary key; creator holds created_by of every organisation. */
  datatype Db = Db(
    users: set<Uuid>,
    creator: map<Uuid, Uuid>,
    members: map<RowKey, Member>,
    courses: map<Uuid, Course>,
    enrolled: set<(Uuid, Uuid)>)              // course, user

  datatype Step =
    | Create(caller: Caller, createdBy: Uuid, org: Uuid)
    | Add(caller: Caller, org: Uuid, user: Uuid, role: Role, status: Standing)
    | ChangeRole(caller: Caller, org: Uuid, user: Uuid, role: Role)
    | ChangeStatus(caller: Caller, org: Uuid, user: Uuid, status: Standing)
    | CommitRemoval(org: Uuid, user: Uuid)
    | Respond(caller: Caller, org: Uuid, accept: bool)
    | DeleteOrg(caller: Caller, org: Uuid)
    | DeleteUser(caller: Caller, user: Uuid)

  // ---- Permission checks ----

  function RequireAuthenticated(c: Caller): Option<Error> {
    if c.Anonymous? then Some(Unauthenticated) else if !c.active then Some(AccountNotActive) else None
  }

  function RequireOrgRole(d: Db, c: Caller, org: Uuid, roles: set<Role>): Option<Error> {
    if RequireAuthenticated(c).Some? then RequireAuthenticated(c)
    else if c.sysAdmin then None
    else if (org, c.sub) !in d.members then Some(NotAMember)
    else if d.members[(org, c.sub)].status != Active then Some(MembershipNotActive)
    else if d.members[(org, c.sub)].role !in roles then Some(PermissionDenied)
    else None
  }

  /** The two reads before the transaction of a removal. */
  function CheckRemoval(d: Db, c: Caller, org: Uuid, user: Uuid): Option<Error> {
    if RequireAuthenticated(c).Some? then RequireAuthenticated(c)
    else if c.sysAdmin then None
    else if (org, c.sub) !in d.members then Some(NotAMember)
    else if d.members[(org, c.sub)].status != Active then Some(MembershipNotActive)
    else
      match d.members[(org, c.sub)].role
      case Owner => None
      case Admin =>
        if (org, user) !in d.members then Some(NotFound)
        else if d.members[(org, user)].role == Owner then Some(PermissionDenied)
        else None
      case _ => if c.sub != user then Some(PermissionDenied) else None
  }

  predicate IsActiveOwner(m: Member) { m == Member(Owner, Active) }

  /** The rows CountOrganizationOwners counts. */
  function OwnerRows(members: map<RowKey, Member>, org: Uuid): set<RowKey> {
    set k | k in members && k.0 == org && IsActiveOwner(members[k])
  }

  // ---- The transactions ----

  function Refusal(d: Db, step: Step): Option<Error> {
    match step
    case Create(c, createdBy, org) =>
      if RequireAuthenticated(c).Some? then RequireAuthenticated(c)
      else if c.sub != createdBy && !c.sysAdmin then Some(PermissionDenied)
      else if org in d.creator then Some(AlreadyExists)
      else if createdBy !in d.users then Some(MissingReference)
      else None
    case Add(c, org, user, role, _) =>
      if RequireOrgRole(d, c, org, {Admin, Owner}).Some? then RequireOrgRole(d, c, org, {Admin, Owner})
      else if role == Owner && RequireOrgRole(d, c, org, {Owner}).Some? then RequireOrgRole(d, c, org, {Owner})
      else if (org, user) in d.members then Some(AlreadyExists)
      else if org !in d.creator || user !in d.users then Some(MissingReference)
      else None
    case ChangeRole(c, org, user, role) =>
      if (org, user) !in d.members then Some(NotFound)
      else
        var now := d.members[(org, user)];
        var allowed := if now.role == Owner || role == Owner then {Owner} else {Admin, Owner};
        if RequireOrgRole(d, c, org, allowed).Some? then RequireOrgRole(d, c, org, allowed)
        else if now.role == Owner && role != Owner && now.status == Active && |OwnerRows(d.members, org)| <= 1
        then Some(LastOwner)
        else None
    case ChangeStatus(c, org, user, status) =>
      if (org, user) !in d.members then Some(NotFound)
      else
        var now := d.members[(org, user)];
        var allowed := if now.role == Owner then {Owner} else {Admin, Owner};
        if RequireOrgRole(d, c, org, allowed).Some? then RequireOrgRole(d, c, org, allowed)
        else if now.role == Owner && status != Active && now.status == Active && |OwnerRows(d.members, org)| <= 1
        then Some(LastOwner)
        else None
    case CommitRemoval(org, user) =>
      if (org, user) !in d.members then Some(NotFound)
      else if IsActiveOwner(d.members[(org, user)]) && |OwnerRows(d.members, org)| <= 1 then Some(LastOwner)
      else None
    case Respond(c, org, _) =>
      if RequireAuthenticated(c).Some? then RequireAuthenticated(c)
      else if (org, c.sub) !in d.members then Some(NotFound)
      else if d.members[(org, c.sub)].status != Invited then Some(NoPendingInvitation)
      else None
    case DeleteOrg(c, org) =>
      if RequireOrgRole(d, c, org, {Owner}).Some? then RequireOrgRole(d, c, org, {Owner})
      else if org !in d.creator then Some(NotFound)
      else None
    case DeleteUser(c, user) =>
      if RequireAuthenticated(c).Some? then RequireAuthenticated(c)
      else if !c.sysAdmin then Some(PermissionDenied)
      else if user !in d.users then Some(NotFound)
      else if (exists org :: org in d.creator && d.creator[org] == user)
           || (exists course :: course in d.courses && d.courses[course].owner == user)
      then Some(StillReferenced)
      else None
  }

  /** Course memberships left after the user lost those in this organisation. */
  function WithoutCourses(d: Db, org: Uuid, user: Uuid): set<(Uuid, Uuid)> {
    set e | e in d.enrolled && !(e.1 == user && e.0 in d.courses && d.courses[e.0].org == org)
  }

  function Effect(d: Db, step: Step): Db {
    match step
    case Create(_, createdBy, org) =>
      d.(creator := d.creator[org := createdBy], members := d.members[(org, createdBy) := Member(Owner, Active)])
    case Add(_, org, user, role, status) => d.(members := d.members[(org, user) := Member(role, status)])
    case ChangeRole(_, org, user, role) =>
      if (org, user) !in d.members then d
      else d.(members := d.members[(org, user) := d.members[(org, user)].(role := role)])
    case ChangeStatus(_, org, user, status) =>
      if (org, user) !in d.members then d
      else d.(members := d.members[(org, user) := d.members[(org, user)].(status := status)])
    case CommitRemoval(org, user) =>
      d.(members := d.members - {(org, user)}, enrolled := WithoutCourses(d, org, user))
    case Respond(c, org, accept) =>
      if c.Anonymous? || (org, c.sub) !in d.members then d
      else if !accept then d.(members := d.members - {(org, c.sub)})
      else d.(members := d.members[(org, c.sub) := d.members[(org, c.sub)].(status := Active)])
    case DeleteOrg(_, org) =>
      d.(creator := d.creator - {org},
         members := map k | k in d.members && k.0 != org :: d.members[k],
         courses := map k | k in d.courses && d.courses[k].org != org :: d.courses[k],
         enrolled := set e | e in d.enrolled && !(e.0 in d.courses && d.courses[e.0].org == org))
    case DeleteUser(_, user) =>
      d.(users := d.users - {user},
         members := map k | k in d.members && k.1 != user :: d.members[k],
         enrolled := set e | e in d.enrolled && e.1 != user)
  }

  function Next(d: Db, step: Step): Db {
    if Refusal(d, step).Some? then d else Effect(d, step)
  }

  function Run(d: Db, steps: seq<Step>): Db {
    if steps == [] then d else Next(Run(d, steps[..|steps| - 1]), steps[|steps| - 1])
  }

  // ---- Every organisation keeps an active owner ----

  predicate Owns(d: Db, org: Uuid, user: Uuid) { (org, user) in d.members && IsActiveOwner(d.members[(org, user)]) }

  ghost predicate Owned(d: Db, org: Uuid) { exists user :: Owns(d, org, user) }

  ghost predicate AllOwned(d: Db) { forall org :: org in d.creator ==> Owned(d, org) }

  /** Foreign keys: a membership names an existing organisation. */
  predicate Sound(d: Db) { forall k :: k in d.members ==> k.0 in d.creator }

  /** Counting at most one owner row means that this owner is alone. */
  lemma OneRowIffAlone(d: Db, org: Uuid, user: Uuid)
    requires Owns(d, org, user)
    ensures |OwnerRows(d.members, org)| <= 1 <==> forall other :: Owns(d, org, other) ==> other == user
  {
    var rows := OwnerRows(d.members, org);
    assert (org, user) in rows;
    if other :| Owns(d, org, other) && other != user {
      assert {(org, user), (org, other)} <= rows;
      SubsetSize({(org, user), (org, other)}, rows);
    } else {
      forall k | k in rows ensures k == (org, user) { assert Owns(d, org, k.1); }
      assert rows == {(org, user)};
    }
  }

  /** Other organisations are out of reach of every step but the deletion of a user. */
  lemma OtherOrgsUntouched(d: Db, step: Step, org: Uuid, user: Uuid)
    requires !step.DeleteUser? && step.org != org
    ensures (org, user) in Next(d, step).members <==> (org, user) in d.members
    ensures (org, user) in d.members ==> Next(d, step).members[(org, user)] == d.members[(org, user)]
    ensures org in Next(d, step).creator <==> org in d.creator
  {
  }

  /** Whoever is not the target of a step keeps owning. */
  lemma BystanderKeepsOwning(d: Db, step: Step, org: Uuid, other: Uuid)
    requires Owns(d, org, other) && !step.DeleteUser? && !(step.DeleteOrg? && step.org == org)
    requires step.ChangeRole? || step.ChangeStatus? || step.CommitRemoval? ==> step.user != other
    ensures Owns(Next(d, step), org, other)
  {
  }

  /** The guard is there: a target that owns alone still owns afterwards. */
  lemma LoneOwnerKeepsOwning(d: Db, step: Step, org: Uuid, user: Uuid)
    requires step.ChangeRole? || step.ChangeStatus? || step.CommitRemoval?
    requires step.org == org && step.user == user && Owns(d, org, user)
    requires forall other :: Owns(d, org, other) ==> other == user
    ensures Owns(Next(d, step), org, user)
  {
    OneRowIffAlone(d, org, user);
  }

  lemma NextKeepsOwned(d: Db, step: Step)
    requires AllOwned(d) && Sound(d) && !step.DeleteUser?
    ensures AllOwned(Next(d, step)) && Sound(Next(d, step))
  {
    var t := Next(d, step);
    forall org | org in t.creator ensures Owned(t, org) {
      if t == d {
        assert Owned(d, org);
      } else if org in d.creator {
        var user :| Owns(d, org, user);
        if (step.ChangeRole? || step.ChangeStatus? || step.CommitRemoval?) && step.org == org && step.user == user {
          if other :| Owns(d, org, other) && other != user {
            BystanderKeepsOwning(d, step, org, other);
          } else {
            LoneOwnerKeepsOwning(d, step, org, user);
          }
        } else if step.org != org {
          OtherOrgsUntouched(d, step, org, user);
          assert Owns(t, org, user);
        } else {
          BystanderKeepsOwning(d, step, org, user);
        }
      } else {
        assert Owns(t, org, step.createdBy);
      }
    }
  }

  /**
   From empty tables, every run of creations, additions, role and status changes, removals,
   answers to invitations and deletions of organisations, by any callers and with removals
   committing arbitrarily long after their check, leaves every organisation an active owner.
   */
  lemma {:induction false} EveryOrgKeepsAnOwner(users: set<Uuid>, steps: seq<Step>)
    requires forall i :: 0 <= i < |steps| ==> !steps[i].DeleteUser?
    ensures var d := Run(Db(users, map[], map[], map[], {}), steps); AllOwned(d) && Sound(d)
  {
    if steps != [] {
      EveryOrgKeepsAnOwner(users, steps[..|steps| - 1]);
      NextKeepsOwned(Run(Db(users, map[], map[], map[], {}), steps[..|steps| - 1]), steps[|steps| - 1]);
    }
  }

  /** Deleting a user is not guarded: it orphans exactly the organisations the user owned alone. */
  lemma DeletingUserKeepsOwnedIff(d: Db, step: Step, org: Uuid)
    requires step.DeleteUser? && Refusal(d, step).None? && Owned(d, org)
    ensures Owned(Next(d, step), org) <==> !(forall user :: Owns(d, org, user) ==> user == step.user)
  {
    var t := Next(d, step);
    forall user ensures Owns(t, org, user) <==> Owns(d, org, user) && user != step.user {}
  }

  /** The creator's organisation cannot be orphaned that way while it is theirs, another owner's can. */
  lemma DeletingUserCanOrphan()
    ensures exists d: Db, step: Step ::
      && AllOwned(d) && Sound(d) && step.DeleteUser? && Refusal(d, step).None?
      && !AllOwned(Next(d, step))
  {
    var d := Db({1, 2}, map[7 := 1], map[(7, 2) := Member(Owner, Active)], map[], {});
    var step := DeleteUser(Claims(1, true, true), 2);
    assert Owns(d, 7, 2);
    assert d.creator[7] == 1;
    assert forall user :: Owns(d, 7, user) ==> user == 2;
    DeletingUserKeepsOwnedIff(d, step, 7);
    assert 7 in Next(d, step).creator;
  }

  // ---- The guard refuses exactly what would orphan ----

  /** Everything that may refuse a step before the last-owner guard is asked. */
  function RefusalBeforeGuard(d: Db, step: Step): Option<Error> {
    if Refusal(d, step) == Some(LastOwner) then None else Refusal(d, step)
  }

  /** The guard never refuses too much and never too little. */
  lemma GuardIsExact(d: Db, step: Step)
    requires step.ChangeRole? || step.ChangeStatus? || step.CommitRemoval?
    requires Owned(d, step.org) && RefusalBeforeGuard(d, step).None?
    ensures Refusal(d, step) == Some(LastOwner) <==> !Owned(Effect(d, step), step.org)
  {
    var t, org, user := Effect(d, step), step.org, step.user;
    forall other | other != user ensures Owns(t, org, other) <==> Owns(d, org, other) {}
    if Owns(d, org, user) {
      OneRowIffAlone(d, org, user);
      if other :| Owns(d, org, other) && other != user {
        assert Owns(t, org, other);
      } else {
        assert Refusal(d, step) == Some(LastOwner) <==> !Owns(t, org, user);
      }
    } else {
      var other :| Owns(d, org, other);
      assert Owns(t, org, other);
    }
  }

  // ---- Ownership changes hands only by owners ----

  predicate MayMakeOwners(d: Db, c: Caller, org: Uuid) {
    c.Claims? && c.active && (c.sysAdmin || Owns(d, org, c.sub))
  }

  /**
   A step that makes or unmakes an active owner of an organisation that stays is asked for by an
   owner or a system administrator, or is the invited owner accepting, or the transaction of a
   removal.
   */
  lemma OwnersMakeOwners(d: Db, step: Step, org: Uuid, user: Uuid)
    requires !step.DeleteUser? && !step.DeleteOrg? && org in d.creator
    requires Owns(Next(d, step), org, user) != Owns(d, org, user)
    ensures step.org == org
    ensures step.CommitRemoval? ==> step.user == user
    ensures !step.CommitRemoval? ==>
              || MayMakeOwners(d, step.caller, org)
              || (step.Respond? && step.accept && step.caller.Claims? && step.caller.sub == user
                  && (org, user) in d.members && d.members[(org, user)] == Member(Owner, Invited))
  {
  }

  /** Checked and committed in one go, a removal takes an owner away only at an owner's request. */
  lemma PromptRemovalIsByOwner(d: Db, c: Caller, org: Uuid, user: Uuid)
    requires CheckRemoval(d, c, org, user).None? && Owns(d, org, user)
    ensures MayMakeOwners(d, c, org)
  {
  }

  predicate HasOwnerRole(d: Db, org: Uuid, user: Uuid) {
    (org, user) in d.members && d.members[(org, user)].role == Owner
  }

  /** The step takes effect and gives the user the owner role. */
  predicate GrantsNow(d: Db, step: Step, org: Uuid, user: Uuid) {
    && Refusal(d, step).None?
    && match step
       case Create(_, createdBy, o) => o == org && createdBy == user
       case Add(_, o, u, role, _) => o == org && u == user && role == Owner
       case ChangeRole(_, o, u, role) => o == org && u == user && role == Owner
       case _ => false
  }

  /** The step takes effect and leaves the user without the owner role. */
  predicate Revokes(d: Db, step: Step, org: Uuid, user: Uuid) {
    && Refusal(d, step).None?
    && match step
       case ChangeRole(_, o, u, role) => o == org && u == user && role != Owner
       case CommitRemoval(o, u) => o == org && u == user
       case Respond(c, o, accept) => o == org && c.Claims? && c.sub == user && !accept
       case DeleteOrg(_, o) => o == org
       case DeleteUser(_, u) => u == user
       case _ => false
  }

  /** The owner role is granted by creating the organisation, by an owner of it, or by a system administrator. */
  lemma GrantIsByOwner(d: Db, step: Step, org: Uuid, user: Uuid)
    requires GrantsNow(d, step, org, user)
    ensures (step.Create? && org !in d.creator) || (!step.Create? && MayMakeOwners(d, step.caller, org))
  {
  }

  lemma RoleStep(d: Db, step: Step, org: Uuid, user: Uuid)
    ensures HasOwnerRole(Next(d, step), org, user)
            <==> GrantsNow(d, step, org, user) || (HasOwnerRole(d, org, user) && !Revokes(d, step, org, user))
  {
  }

  /** Nothing revokes the role in steps from..to of the run. */
  ghost predicate NotRevoked(s: Db, steps: seq<Step>, from: nat, to: nat, org: Uuid, user: Uuid)
    requires to <= |steps|
  {
    forall j {:trigger steps[j]} :: from <= j < to ==> !Revokes(Run(s, steps[..j]), steps[j], org, user)
  }

  /** Step i grants the role for good, as far as the first n steps go. */
  ghost predicate GrantsForGood(s: Db, steps: seq<Step>, i: nat, n: nat, org: Uuid, user: Uuid)
    requires i < n <= |steps|
  {
    GrantsNow(Run(s, steps[..i]), steps[i], org, user) && NotRevoked(s, steps, i + 1, n, org, user)
  }

  ghost predicate Granted(s: Db, steps: seq<Step>, n: nat, org: Uuid, user: Uuid)
    requires n <= |steps|
  {
    exists i: nat {:trigger steps[i]} :: i < n && GrantsForGood(s, steps, i, n, org, user)
  }

  lemma RunOneMore(s: Db, steps: seq<Step>, n: nat)
    requires n < |steps|
    ensures Run(s, steps[..n + 1]) == Next(Run(s, steps[..n]), steps[n])
  {
    assert steps[..n + 1][..n] == steps[..n];
  }

  lemma GrantedOneMore(s: Db, steps: seq<Step>, n: nat, org: Uuid, user: Uuid)
    requires n < |steps|
    ensures Granted(s, steps, n + 1, org, user)
            <==> GrantsNow(Run(s, steps[..n]), steps[n], org, user)
                 || (Granted(s, steps, n, org, user) && !Revokes(Run(s, steps[..n]), steps[n], org, user))
  {
    if Granted(s, steps, n + 1, org, user) {
      var i: nat :| i < n + 1 && GrantsForGood(s, steps, i, n + 1, org, user);
      if i < n { assert GrantsForGood(s, steps, i, n, org, user); }
    }
    if GrantsNow(Run(s, steps[..n]), steps[n], org, user) {
      assert GrantsForGood(s, steps, n, n + 1, org, user);
    } else if Granted(s, steps, n, org, user) && !Revokes(Run(s, steps[..n]), steps[n], org, user) {
      var i: nat :| i < n && GrantsForGood(s, steps, i, n, org, user);
      assert GrantsForGood(s, steps, i, n + 1, org, user);
    }
  }

  lemma NotRevokedOneMore(s: Db, steps: seq<Step>, n: nat, org: Uuid, user: Uuid)
    requires n < |steps|
    ensures NotRevoked(s, steps, 0, n + 1, org, user)
            <==> NotRevoked(s, steps, 0, n, org, user) && !Revokes(Run(s, steps[..n]), steps[n], org, user)
  {
  }

  /** By a grant, or from before, that was not revoked since. */
  ghost predicate KeepsRole(s: Db, steps: seq<Step>, n: nat, org: Uuid, user: Uuid)
    requires n <= |steps|
  {
    || Granted(s, steps, n, org, user)
    || (HasOwnerRole(s, org, user) && NotRevoked(s, steps, 0, n, org, user))
  }

  lemma KeepsRoleOneMore(s: Db, steps: seq<Step>, n: nat, org: Uuid, user: Uuid)
    requires n < |steps|
    ensures KeepsRole(s, steps, n + 1, org, user)
            <==> GrantsNow(Run(s, steps[..n]), steps[n], org, user)
                 || (KeepsRole(s, steps, n, org, user) && !Revokes(Run(s, steps[..n]), steps[n], org, user))
  {
    GrantedOneMore(s, steps, n, org, user);
    NotRevokedOneMore(s, steps, n, org, user);
    GrantDoesNotRevoke(Run(s, steps[..n]), steps[n], org, user);
  }

  lemma GrantDoesNotRevoke(d: Db, step: Step, org: Uuid, user: Uuid)
    ensures GrantsNow(d, step, org, user) ==> !Revokes(d, step, org, user)
  {
  }

  /** Over whole runs a user has the owner role exactly by a grant, or from before, that was not revoked since. */
  lemma {:induction false} OwnerRoleIff(s: Db, steps: seq<Step>, n: nat, org: Uuid, user: Uuid)
    requires n <= |steps|
    ensures HasOwnerRole(Run(s, steps[..n]), org, user) <==> KeepsRole(s, steps, n, org, user)
  {
    if n > 0 {
      OwnerRoleIff(s, steps, n - 1, org, user);
      KeepsRoleOneMore(s, steps, n - 1, org, user);
      RunOneMore(s, steps, n - 1);
      RoleStep(Run(s, steps[..n - 1]), steps[n - 1], org, user);
    }
  }

  /**
   The check is made before the transaction.  When it passes for an organisation admin, a commit any
   number of steps later takes an owner away exactly when the target was made an owner in between,
   not unmade since, and is not the only active one.
   */
  lemma DelayedRemovalIff(s: Db, c: Caller, org: Uuid, user: Uuid, steps: seq<Step>)
    requires CheckRemoval(s, c, org, user).None? && !c.sysAdmin
    requires s.members[(org, c.sub)].role == Admin
    ensures var t := Run(s, steps);
            HasOwnerRole(t, org, user) && Refusal(t, CommitRemoval(org, user)).None?
            <==> Granted(s, steps, |steps|, org, user)
                 && !(Owns(t, org, user) && forall other :: Owns(t, org, other) ==> other == user)
  {
    var t := Run(s, steps);
    OwnerRoleIff(s, steps, |steps|, org, user);
    assert steps[..|steps|] == steps;
    if Owns(t, org, user) { OneRowIffAlone(t, org, user); }
  }

  /** A role gained in a run comes from a grant that still stands, made by an owner or with the organisation. */
  lemma OwnerRoleIsGranted(s: Db, steps: seq<Step>, org: Uuid, user: Uuid) returns (i: nat)
    requires HasOwnerRole(Run(s, steps), org, user) && !HasOwnerRole(s, org, user)
    ensures i < |steps| && GrantsForGood(s, steps, i, |steps|, org, user)
    ensures (steps[i].Create? && org !in Run(s, steps[..i]).creator)
            || (!steps[i].Create? && MayMakeOwners(Run(s, steps[..i]), steps[i].caller, org))
  {
    OwnerRoleIff(s, steps, |steps|, org, user);
    assert steps[..|steps|] == steps;
    var j: nat :| j < |steps| && GrantsForGood(s, steps, j, |steps|, org, user);
    i := j;
    GrantIsByOwner(Run(s, steps[..i]), steps[i], org, user);
  }

  /** And that does happen: admin 2 removes owner 3, whom owner 1 promoted after the check. */
  lemma AdminCanRemoveFreshOwner()
    ensures exists s: Db, c: Caller, steps: seq<Step>, org: Uuid, user: Uuid ::
      && CheckRemoval(s, c, org, user).None? && !c.sysAdmin && (org, c.sub) in s.members
      && s.members[(org, c.sub)].role == Admin
      && Owns(Run(s, steps), org, user) && Refusal(Run(s, steps), CommitRemoval(org, user)).None?
      && CheckRemoval(Run(s, steps), c, org, user).Some?
  {
    var members :=
      map[(7, 1) := Member(Owner, Active), (7, 2) := Member(Admin, Active), (7, 3) := Member(Teacher, Active)];
    var s := Db({1, 2, 3}, map[7 := 1], members, map[], {});
    var c := Claims(2, false, true);
    var promote := ChangeRole(Claims(1, false, true), 7, 3, Owner);
    assert Run(s, []) == s && [promote][..0] == [];
    var t := Run(s, [promote]);
    assert t == Next(s, promote);
    assert Owns(t, 7, 3) && Owns(t, 7, 1);
    OneRowIffAlone(t, 7, 3);
    assert CheckRemoval(s, c, 7, 3).None?;
    assert Refusal(t, CommitRemoval(7, 3)).None?;
    assert CheckRemoval(t, c, 7, 3).Some?;
  }

  // ---- Who changes whom ----

  function MemberOf(d: Db, org: Uuid, user: Uuid): Option<Member> {
    if (org, user) in d.members then Some(d.members[(org, user)]) else None
  }

  /** A system administrator, or an active member of the organisation in one of these roles. */
  predicate Commands(d: Db, c: Caller, org: Uuid, asOwner: bool) {
    c.Claims? && c.active
    && (c.sysAdmin || MemberOf(d, org, c.sub) == Some(Member(Owner, Active))
        || (!asOwner && MemberOf(d, org, c.sub) == Some(Member(Admin, Active))))
  }

  /**
   Whatever step makes a row of the membership table appear, change or vanish was asked for by someone
   who may: a change of anyone's row by an active admin or owner of the organisation or a system
   administrator, of an owner's row by an active owner or a system administrator.  The others are a
   new organisation's first row, a user's own answer to an invitation, which keeps the role, the
   transaction of a removal, and deletions of the whole organisation or user.
   */
  lemma ChangesAreAskedFor(d: Db, step: Step, org: Uuid, user: Uuid)
    requires MemberOf(Next(d, step), org, user) != MemberOf(d, org, user)
    ensures var was, got := MemberOf(d, org, user), MemberOf(Next(d, step), org, user);
            match step
            case Create(c, createdBy, o) =>
              && o == org && createdBy == user && org !in d.creator && got == Some(Member(Owner, Active))
              && c.Claims? && c.active && (c.sub == user || c.sysAdmin)
            case Add(c, o, u, role, status) =>
              && o == org && u == user && was.None? && got == Some(Member(role, status))
              && Commands(d, c, org, role == Owner)
            case ChangeRole(c, o, u, role) =>
              && o == org && u == user && was.Some? && got == Some(was.value.(role := role))
              && Commands(d, c, org, was.value.role == Owner || role == Owner)
            case ChangeStatus(c, o, u, status) =>
              && o == org && u == user && was.Some? && got == Some(was.value.(status := status))
              && Commands(d, c, org, was.value.role == Owner)
            case CommitRemoval(o, u) => o == org && u == user && got.None?
            case Respond(c, o, accept) =>
              && o == org && c.Claims? && c.active && c.sub == user && was.Some? && was.value.status == Invited
              && got == if accept then Some(Member(was.value.role, Active)) else None
            case DeleteOrg(c, o) => o == org && got.None? && Commands(d, c, org, true)
            case DeleteUser(c, u) => u == user && got.None? && c.Claims? && c.active && c.sysAdmin
  {
  }

  /** Conversely, a permitted change takes effect, unless it orphans the organisation. */
  lemma PermittedChangesTakeEffect(d: Db, c: Caller, org: Uuid, user: Uuid, role: Role, status: Standing)
    ensures var was := MemberOf(d, org, user);
            && (Refusal(d, Add(c, org, user, role, status)).None?
                <==> Commands(d, c, org, role == Owner) && was.None? && org in d.creator && user in d.users)
            && (Refusal(d, ChangeRole(c, org, user, role)).None?
                <==> was.Some? && Commands(d, c, org, was.value.role == Owner || role == Owner)
                     && !(was == Some(Member(Owner, Active)) && role != Owner && |OwnerRows(d.members, org)| <= 1))
            && (Refusal(d, ChangeStatus(c, org, user, status)).None?
                <==> was.Some? && Commands(d, c, org, was.value.role == Owner)
                     && !(was == Some(Member(Owner, Active)) && status != Active && |OwnerRows(d.members, org)| <= 1))
            && (Refusal(d, CommitRemoval(org, user)).None?
                <==> was.Some? && !(was == Some(Member(Owner, Active)) && |OwnerRows(d.members, org)| <= 1))
  {
  }

  /** Creating and deleting, and answering an invitation. */
  lemma PermittedOthersTakeEffect(d: Db, c: Caller, org: Uuid, user: Uuid, accept: bool)
    ensures Refusal(d, Create(c, user, org)).None?
            <==> c.Claims? && c.active && (c.sub == user || c.sysAdmin) && org !in d.creator && user in d.users
    ensures Refusal(d, DeleteOrg(c, org)).None? <==> Commands(d, c, org, true) && org in d.creator
    ensures Refusal(d, DeleteUser(c, user)).None?
            <==> c.Claims? && c.active && c.sysAdmin && user in d.users
                 && (forall o :: o in d.creator ==> d.creator[o] != user)
                 && (forall k :: k in d.courses ==> d.courses[k].owner != user)
    ensures Refusal(d, Respond(c, org, accept)).None?
            <==> c.Claims? && c.active
                 && MemberOf(d, org, c.sub).Some? && MemberOf(d, org, c.sub).value.status == Invited
  {
  }

  /** The check of a removal passes for system administrators and owners, for admins but on owners, and on oneself. */
  lemma RemovalCheckIff(d: Db, c: Caller, org: Uuid, user: Uuid)
    ensures CheckRemoval(d, c, org, user).None?
            <==> c.Claims? && c.active
                 && (c.sysAdmin
                     || (MemberOf(d, org, c.sub).Some? && MemberOf(d, org, c.sub).value.status == Active
                         && match MemberOf(d, org, c.sub).value.role
                            case Owner => true
                            case Admin => MemberOf(d, org, user).Some? && MemberOf(d, org, user).value.role != Owner
                            case _ => c.sub == user))
  {
  }

  /** No refusal is a pretext: each error says what is the case. */
  lemma RefusalsAreTrue(d: Db, step: Step)
    requires Refusal(d, step).Some?
    ensures match Refusal(d, step).value
            case Unauthenticated => !step.CommitRemoval? && step.caller.Anonymous?
            case AccountNotActive => !step.CommitRemoval? && step.caller.Claims? && !step.caller.active
            case NotAMember => StrangerTo(d, step) && MemberOf(d, step.org, step.caller.sub).None?
            case MembershipNotActive =>
              StrangerTo(d, step) && MemberOf(d, step.org, step.caller.sub).Some?
              && MemberOf(d, step.org, step.caller.sub).value.status != Active
            case PermissionDenied =>
              !step.CommitRemoval? && step.caller.Claims? && step.caller.active && !step.caller.sysAdmin
            case NotFound =>
              (match step
               case DeleteOrg(_, o) => o !in d.creator
               case DeleteUser(_, u) => u !in d.users
               case Respond(c, o, _) => c.Claims? && MemberOf(d, o, c.sub).None?
               case Create(_, _, _) => false
               case Add(_, _, _, _, _) => false
               case _ => MemberOf(d, step.org, step.user).None?)
            case AlreadyExists =>
              || (step.Create? && step.org in d.creator) || (step.Add? && MemberOf(d, step.org, step.user).Some?)
            case MissingReference =>
              || (step.Create? && step.createdBy !in d.users)
              || (step.Add? && (step.org !in d.creator || step.user !in d.users))
            case StillReferenced =>
              step.DeleteUser?
              && ((exists o :: o in d.creator && d.creator[o] == step.user)
                  || (exists k :: k in d.courses && d.courses[k].owner == step.user))
            case LastOwner =>
              (step.ChangeRole? || step.ChangeStatus? || step.CommitRemoval?) && Owns(d, step.org, step.user)
              && |OwnerRows(d.members, step.org)| <= 1
            case NoPendingInvitation =>
              step.Respond? && step.caller.Claims? && MemberOf(d, step.org, step.caller.sub).Some?
              && MemberOf(d, step.org, step.caller.sub).value.status != Invited
  {
  }

  /** A caller in good standing who is neither system administrator nor, perhaps, a member. */
  predicate StrangerTo(d: Db, step: Step) {
    && !step.CommitRemoval? && !step.DeleteUser? && !step.Create?
    && step.caller.Claims? && step.caller.active && !step.caller.sysAdmin
  }

  // ---- Course access ends with the membership ----

  predicate Attends(d: Db, user: Uuid, org: Uuid, course: Uuid) {
    (course, user) in d.enrolled && course in d.courses && d.courses[course].org == org
  }

  /** A removal takes every course of the organisation from that user, and nothing from anyone else. */
  lemma RemovalEndsCourses(d: Db, org: Uuid, user: Uuid, who: Uuid, which: Uuid, course: Uuid)
    requires Refusal(d, CommitRemoval(org, user)).None?
    ensures Attends(Next(d, CommitRemoval(org, user)), who, which, course)
            <==> Attends(d, who, which, course) && !(who == user && which == org)
  {
  }

  /** Nobody gains a course here; one is lost only with the membership, the organisation or the user. */
  lemma CourseIsLostIff(d: Db, step: Step, course: Uuid, who: Uuid)
    ensures (course, who) in Next(d, step).enrolled
            <==> && (course, who) in d.enrolled
                 && !(Refusal(d, step).None?
                      && match step
                         case CommitRemoval(org, user) => who == user && Attends(d, who, org, course)
                         case DeleteOrg(_, org) => Attends(d, who, org, course)
                         case DeleteUser(_, user) => who == user
                         case _ => false)
  {
  }

  /** Courses and organisations go with the organisation, and with nothing else. */
  lemma OrganisationIsLostIff(d: Db, step: Step, org: Uuid, course: Uuid)
    ensures org in d.creator ==>
              (org !in Next(d, step).creator <==> step.DeleteOrg? && step.org == org && Refusal(d, step).None?)
    ensures course in d.courses ==>
              (course !in Next(d, step).courses
               <==> step.DeleteOrg? && step.org == d.courses[course].org && Refusal(d, step).None?)
  {
  }

  // ---- The service ----

  class OrgMembersSvc {
    var users: set<Uuid>
    var creator: map<Uuid, Uuid>
    var members: map<RowKey, Member>
    var courses: map<Uuid, Course>
    var enrolled: set<(Uuid, Uuid)>

    function Tables(): Db
      reads this
    {
      Db(users, creator, members, courses, enrolled)
    }

    method CreateOrganization(caller: Caller, createdBy: Uuid, org: Uuid) returns (r: Option<Error>)
      modifies this
      ensures r == Refusal(old(Tables()), Create(caller, createdBy, org))
      ensures Tables() == Next(old(Tables()), Create(caller, createdBy, org))
    {
      r := RequireAuthenticated(caller);
      if r.Some? { return; }
      if caller.sub != createdBy && !caller.sysAdmin { return Some(PermissionDenied); }
      if org in creator { return Some(AlreadyExists); }
      if createdBy !in users { return Some(MissingReference); }
      creator := creator[org := createdBy];
      members := members[(org, createdBy) := Member(Owner, Active)];
    }

    method AddOrganizationMember(caller: Caller, org: Uuid, user: Uuid, role: Role, status: Standing)
      returns (r: Option<Error>)
      modifies this
      ensures r == Refusal(old(Tables()), Add(caller, org, user, role, status))
      ensures Tables() == Next(old(Tables()), Add(caller, org, user, role, status))
    {
      r := RequireOrgRole(Tables(), caller, org, {Admin, Owner});
      if r.Some? { return; }
      if role == Owner {
        r := RequireOrgRole(Tables(), caller, org, {Owner});
        if r.Some? { return; }
      }
      if (org, user) in members { return Some(AlreadyExists); }
      if org !in creator || user !in users { return Some(MissingReference); }
      members := members[(org, user) := Member(role, status)];
    }

    method UpdateOrganizationMemberRole(caller: Caller, org: Uuid, user: Uuid, role: Role)
      returns (r: Option<Error>)
      modifies this
      ensures r == Refusal(old(Tables()), ChangeRole(caller, org, user, role))
      ensures Tables() == Next(old(Tables()), ChangeRole(caller, org, user, role))
    {
      if (org, user) !in members { return Some(NotFound); }
      var current := members[(org, user)];
      if current.role == Owner || role == Owner {
        r := RequireOrgRole(Tables(), caller, org, {Owner});
      } else {
        r := RequireOrgRole(Tables(), caller, org, {Admin, Owner});
      }
      if r.Some? { return; }
      if current.role == Owner && role != Owner && current.status == Active {
        var owners := |OwnerRows(members, org)|;
        if owners <= 1 { return Some(LastOwner); }
      }
      members := members[(org, user) := current.(role := role)];
    }

    method UpdateOrganizationMemberStatus(caller: Caller, org: Uuid, user: Uuid, status: Standing)
      returns (r: Option<Error>)
      modifies this
      ensures r == Refusal(old(Tables()), ChangeStatus(caller, org, user, status))
      ensures Tables() == Next(old(Tables()), ChangeStatus(caller, org, user, status))
    {
      if (org, user) !in members { return Some(NotFound); }
      var current := members[(org, user)];
      if current.role == Owner {
        r := RequireOrgRole(Tables(), caller, org, {Owner});
        if r.Some? { return; }
        if status != Active && current.status == Active {
          var owners := |OwnerRows(members, org)|;
          if owners <= 1 { return Some(LastOwner); }
        }
      } else {
        r := RequireOrgRole(Tables(), caller, org, {Admin, Owner});
        if r.Some? { return; }
      }
      members := members[(org, user) := current.(status := status)];
    }

    /** The transaction of a removal, whose check has passed at some earlier time. */
    method CommitRemovalTx(org: Uuid, user: Uuid) returns (r: Option<Error>)
      modifies this
      ensures r == Refusal(old(Tables()), CommitRemoval(org, user))
      ensures Tables() == Next(old(Tables()), CommitRemoval(org, user))
    {
      if (org, user) !in members { return Some(NotFound); }
      var target := members[(org, user)];
      if target.role == Owner && target.status == Active {
        var owners := |OwnerRows(members, org)|;
        if owners <= 1 { return Some(LastOwner); }
      }
      enrolled := set e | e in enrolled && !(e.1 == user && e.0 in courses && courses[e.0].org == org);
      members := members - {(org, user)};
      r := None;
    }

    /** A removal that no other transaction comes in between of. */
    method RemoveOrganizationMember(caller: Caller, org: Uuid, user: Uuid) returns (r: Option<Error>)
      modifies this
      ensures var d := old(Tables());
              if CheckRemoval(d, caller, org, user).Some?
              then r == CheckRemoval(d, caller, org, user) && Tables() == d
              else r == Refusal(d, CommitRemoval(org, user)) && Tables() == Next(d, CommitRemoval(org, user))
    {
      r := RequireAuthenticated(caller);
      if r.Some? { return; }
      if !caller.sysAdmin {
        if (org, caller.sub) !in members { return Some(NotAMember); }
        var callerMember := members[(org, caller.sub)];
        if callerMember.status != Active { return Some(MembershipNotActive); }
        match callerMember.role {
          case Owner =>
          case Admin =>
            if (org, user) !in members { return Some(NotFound); }
            if members[(org, user)].role == Owner { return Some(PermissionDenied); }
          case _ =>
            if caller.sub != user { return Some(PermissionDenied); }
        }
      }
      r := CommitRemovalTx(org, user);
    }

    method RespondToOrganizationInvitation(caller: Caller, org: Uuid, accept: bool) returns (r: Option<Error>)
      modifies this
      ensures r == Refusal(old(Tables()), Respond(caller, org, accept))
      ensures Tables() == Next(old(Tables()), Respond(caller, org, accept))
    {
      r := RequireAuthenticated(caller);
      if r.Some? { return; }
      if (org, caller.sub) !in members { return Some(NotFound); }
      var current := members[(org, caller.sub)];
      if current.status != Invited { return Some(NoPendingInvitation); }
      if !accept {
        members := members - {(org, caller.sub)};
      } else {
        members := members[(org, caller.sub) := current.(status := Active)];
      }
    }
  }
}
