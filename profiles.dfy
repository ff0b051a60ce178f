/** The `user_profiles` table as the profile route and the admin users route use it:
    a profile is created, pending, on a user's first visit, and an admin changes
    users' roles and statuses and lists every profile, newest first. */
module Profiles {
  import opened Wrappers
  import opened Access

  /** A row of `user_profiles`; times are abstract clock readings. */
  datatype Profile = Profile(
    userId: string,
    email: string,
    name: Option<string>,
    avatarUrl: Option<string>,
    role: Role,
    status: Status,
    createdAt: nat,
    updatedAt: nat)

  /** The signed-in user as the auth service reports it, with its metadata. */
  datatype AuthUser = AuthUser(id: string, email: string, fullName: Option<string>,
                               metadataName: Option<string>, avatarUrl: Option<string>)

  /** `a || b || null` over optional strings: the first present, non-empty one. */
  function FirstTruthy(a: Option<string>, b: Option<string>): (r: Option<string>)
    ensures r.Some? ==> r.value != "" && (r == a || r == b)
    ensures r.None? <==> (a.None? || a.value == "") && (b.None? || b.value == "")
  {
    if a.Some? && a.value != "" then a
    else if b.Some? && b.value != "" then b
    else None
  }

  /** The row inserted for a user seen for the first time: pending role and status. */
  function NewProfile(user: AuthUser, now: nat): (p: Profile)
    ensures p.userId == user.id && p.email == user.email
    ensures p.role == PendingRole && p.status == PendingApproval
    ensures p.name == FirstTruthy(user.fullName, user.metadataName)
    ensures p.avatarUrl == FirstTruthy(user.avatarUrl, None)
  {
    Profile(user.id, user.email, FirstTruthy(user.fullName, user.metadataName),
            FirstTruthy(user.avatarUrl, None), PendingRole, PendingApproval, now, now)
  }

  /** A new user's profile is refused by the approval gate, and flagged as awaiting approval. */
  lemma NewUserAwaitsApproval(user: AuthUser, now: nat)
    ensures var p := NewProfile(user, now);
      ApprovalGate(true, Some(Access(p.role, p.status))) == Forbidden(Some(true))
  {
  }

  datatype GetResponse = GetUnauthorized | GetFailed | Found(profile: Profile, isNewUser: bool)
  datatype PatchResponse = PatchUnauthorized | PatchForbidden | PatchFailed | Updated(profile: Profile)
  datatype ListResponse = ListUnauthorized | ListForbidden | ListFailed | Users(users: seq<Profile>)

  /** Newest first by `created_at`. */
  predicate NewestFirst(users: seq<Profile>) {
    forall i, j :: 0 <= i < j < |users| ==> users[i].createdAt >= users[j].createdAt
  }

  /** Puts `p` into a newest-first list before the first profile not newer than it. */
  function InsertByCreated(users: seq<Profile>, p: Profile): (r: seq<Profile>)
    requires NewestFirst(users)
    ensures NewestFirst(r)
    ensures |r| == |users| + 1
    ensures forall x :: x in r <==> x == p || x in users
    decreases |users|
  {
    if users == [] then [p]
    else if p.createdAt >= users[0].createdAt then [p] + users
    else
      var rest := InsertByCreated(users[1..], p);
      assert forall x :: x in users <==> x == users[0] || x in users[1..];
      forall x | x in rest
        ensures x.createdAt <= users[0].createdAt
      {
        if x in users[1..] {
          var j :| 0 <= j < |users[1..]| && users[1..][j] == x;
          assert users[j + 1] == x;
        }
      }
      [users[0]] + rest
  }

  /** `users` holds the rows of `profiles`, each once. */
  ghost predicate ListsAll(users: seq<Profile>, profiles: map<string, Profile>) {
    |users| == |profiles|
    && (forall i :: 0 <= i < |users| ==> users[i].userId in profiles && profiles[users[i].userId] == users[i])
    && (forall id :: id in profiles ==> profiles[id] in users)
  }

  /** `role`, `status` and `updated_at` changed; every other column kept. */
  function WithRoleStatus(p: Profile, role: Role, status: Status, now: nat): (q: Profile)
    ensures q.role == role && q.status == status && q.updatedAt == now
    ensures q.userId == p.userId && q.email == p.email && q.name == p.name
    ensures q.avatarUrl == p.avatarUrl && q.createdAt == p.createdAt
  {
    p.(role := role, status := status, updatedAt := now)
  }

  /** The role the admin check reads for `caller`, if it has a row. */
  function RoleOf(profiles: map<string, Profile>, caller: string): Option<Role> {
    if caller in profiles then Some(profiles[caller].role) else None
  }

  class ProfileStore {
    var profiles: map<string, Profile>

    /** Rows are keyed by their `user_id`. */
    predicate Valid()
      reads this
    {
      forall id | id in profiles :: profiles[id].userId == id
    }

    constructor()
      ensures Valid() && profiles == map[]
    {
      profiles := map[];
    }

    /** Profile route `GET`: 401 without a user; 500 when the lookup fails for a reason
        other than a missing row; the existing profile unchanged; or a new pending
        profile, inserted and returned (500, and nothing stored, if the insert fails). */
    method GetProfile(user: Option<AuthUser>, lookupFails: bool, insertFails: bool, now: nat)
      returns (r: GetResponse)
      requires Valid()
      modifies this
      ensures Valid()
      ensures user.None? ==> r == GetUnauthorized && profiles == old(profiles)
      ensures user.Some? && lookupFails ==> r == GetFailed && profiles == old(profiles)
      ensures user.Some? && !lookupFails && user.value.id in old(profiles) ==>
        r == Found(old(profiles)[user.value.id], false) && profiles == old(profiles)
      ensures user.Some? && !lookupFails && user.value.id !in old(profiles) && insertFails ==>
        r == GetFailed && profiles == old(profiles)
      ensures user.Some? && !lookupFails && user.value.id !in old(profiles) && !insertFails ==>
        r == Found(NewProfile(user.value, now), true)
        && profiles == old(profiles)[user.value.id := NewProfile(user.value, now)]
        && |profiles| == |old(profiles)| + 1
    {
      if user.None? {
        return GetUnauthorized;
      }
      var id := user.value.id;
      if lookupFails {
        return GetFailed;
      }
      if id in profiles {
        return Found(profiles[id], false);
      }
      var created := NewProfile(user.value, now);
      if insertFails {
        return GetFailed;
      }
      profiles := profiles[id := created];
      r := Found(created, true);
    }

    /** `PATCH` of the profile route and of the admin users route: 401 without a user,
        403 unless the caller's own row says admin (before the body is read), 500 when
        the update fails or matches no row; otherwise only the target row changes. */
    method Patch(caller: Option<string>, target: string, role: Role, status: Status,
                 updateFails: bool, now: nat) returns (r: PatchResponse)
      requires Valid()
      modifies this
      ensures Valid()
      ensures caller.None? ==> r == PatchUnauthorized
      ensures caller.Some? && RoleOf(old(profiles), caller.value) != Some(Admin) ==> r == PatchForbidden
      ensures r.PatchFailed? <==> (caller.Some? && RoleOf(old(profiles), caller.value) == Some(Admin)
        && (target !in old(profiles) || updateFails))
      ensures !r.Updated? ==> profiles == old(profiles)
      ensures r.Updated? ==> (target in old(profiles)
        && r.profile == WithRoleStatus(old(profiles)[target], role, status, now)
        && profiles == old(profiles)[target := r.profile])
    {
      if caller.None? {
        return PatchUnauthorized;
      }
      if AdminGate(true, RoleOf(profiles, caller.value)) != Allowed {
        return PatchForbidden;
      }
      if target !in profiles || updateFails {
        return PatchFailed;
      }
      var updated := profiles[target].(role := role, status := status, updatedAt := now);
      profiles := profiles[target := updated];
      r := Updated(updated);
    }

    /** Admin users route `GET`: the same checks, then every profile, newest first. */
    method ListUsers(caller: Option<string>, listFails: bool) returns (r: ListResponse)
      requires Valid()
      ensures caller.None? ==> r == ListUnauthorized
      ensures caller.Some? && RoleOf(profiles, caller.value) != Some(Admin) ==> r == ListForbidden
      ensures r.ListFailed? <==> caller.Some? && RoleOf(profiles, caller.value) == Some(Admin) && listFails
      ensures r.Users? ==> caller.Some? && RoleOf(profiles, caller.value) == Some(Admin)
      ensures r.Users? ==> NewestFirst(r.users) && ListsAll(r.users, profiles)
    {
      if caller.None? {
        return ListUnauthorized;
      }
      if AdminGate(true, RoleOf(profiles, caller.value)) != Allowed {
        return ListForbidden;
      }
      if listFails {
        return ListFailed;
      }
      var users := SelectNewestFirst();
      r := Users(users);
    }

    /** `select('*').order('created_at', { ascending: false })`: every profile, newest first. */
    method SelectNewestFirst() returns (users: seq<Profile>)
      requires Valid()
      ensures NewestFirst(users) && ListsAll(users, profiles)
    {
      users := [];
      var table := profiles;
      var keys := table.Keys;
      ghost var done: set<string> := {};
      while keys != {}
        invariant keys == table.Keys - done
        invariant Collected(users, done, table)
        decreases keys
      {
        var k :| k in keys;
        CollectStep(users, done, table, k);
        users := InsertByCreated(users, table[k]);
        keys := keys - {k};
        done := done + {k};
      }
      assert done == table.Keys;
      CollectedAll(users, profiles);
    }
  }

  /** The profiles of the ids in `done`, each once, newest first. */
  ghost predicate Collected(users: seq<Profile>, done: set<string>, profiles: map<string, Profile>) {
    NewestFirst(users) && |users| == |done| && done <= profiles.Keys
    && (forall p :: p in users ==> p.userId in done && profiles[p.userId] == p)
    && (forall id :: id in done ==> profiles[id] in users)
  }

  /** Inserting the profile of one more id keeps the list collected. */
  lemma CollectStep(users: seq<Profile>, done: set<string>, profiles: map<string, Profile>, k: string)
    requires forall id | id in profiles :: profiles[id].userId == id
    requires Collected(users, done, profiles) && k in profiles && k !in done
    ensures Collected(InsertByCreated(users, profiles[k]), done + {k}, profiles)
  {
  }

  /** Once every id is done, the list holds every profile exactly once. */
  lemma CollectedAll(users: seq<Profile>, profiles: map<string, Profile>)
    requires Collected(users, profiles.Keys, profiles)
    ensures ListsAll(users, profiles)
  {
    assert |profiles.Keys| == |profiles|;
    forall i | 0 <= i < |users|
      ensures users[i].userId in profiles && profiles[users[i].userId] == users[i]
    {
      assert users[i] in users;
    }
  }

  /** An admin whose status is not active still manages users. */
  lemma InactiveAdminManages(profiles: map<string, Profile>, caller: string)
    requires caller in profiles && profiles[caller].role == Admin && profiles[caller].status == Inactive
    ensures AdminGate(true, RoleOf(profiles, caller)).Allowed?
  {
  }
}
