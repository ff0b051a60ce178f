/** The access decisions the route handlers make before doing any work: the
    approval gate on the caller's profile, the admin check, and the list of results
    tables hidden by the `RESULTS_HIDDEN_TABLES` setting. */
module Access {
  import opened Wrappers
  import opened Strings
  import opened Keywords

  /** `role` and `status` of a row of `user_profiles`. */
  datatype Role = Admin | RegularUser | PendingRole
  datatype Status = Active | Inactive | PendingApproval

  /** The columns the gate reads: `select('role, status')`. */
  datatype Access = Access(role: Role, status: Status)

  /** How a route answers before its own work: go on, 401, or 403 (with the
      `needsApproval` flag when the route sends one). */
  datatype Outcome = Allowed | Unauthorized | Forbidden(needsApproval: Option<bool>)

  /** The gate of the groups and results posts routes: no user is 401; no profile,
      or a status other than active, is 403, flagged when an approval could help. */
  function ApprovalGate(signedIn: bool, profile: Option<Access>): (o: Outcome)
    ensures o.Allowed? <==> signedIn && profile.Some? && profile.value.status == Active
    ensures o.Unauthorized? <==> !signedIn
    ensures o.Forbidden? ==> o.needsApproval.Some?
    ensures o.Forbidden? ==> (o.needsApproval.value <==> profile.None? || profile.value.status == PendingApproval)
  {
    if !signedIn then Unauthorized
    else if profile.None? || profile.value.status != Active then
      Forbidden(Some(profile.None? || profile.value.status == PendingApproval))
    else Allowed
  }

  /** The results tables route: the same decision without the flag. */
  function TablesGate(signedIn: bool, profile: Option<Access>): (o: Outcome)
    ensures o.Forbidden? ==> o.needsApproval.None?
  {
    if !signedIn then Unauthorized
    else if profile.None? || profile.value.status != Active then Forbidden(None)
    else Allowed
  }

  /** Both gates let the same callers through and turn the same callers away; only
      the flag differs. */
  lemma GatesAgree(signedIn: bool, profile: Option<Access>)
    ensures TablesGate(signedIn, profile).Allowed? <==> ApprovalGate(signedIn, profile).Allowed?
    ensures TablesGate(signedIn, profile).Unauthorized? <==> ApprovalGate(signedIn, profile).Unauthorized?
    ensures TablesGate(signedIn, profile).Forbidden? <==> ApprovalGate(signedIn, profile).Forbidden?
  {
  }

  /** The approval gate looks at the status only: even an admin who is not active is
      refused, and an inactive user is refused without the approval flag. */
  lemma ApprovalIgnoresRole(signedIn: bool, r1: Role, r2: Role, s: Status)
    ensures ApprovalGate(signedIn, Some(Access(r1, s))) == ApprovalGate(signedIn, Some(Access(r2, s)))
    ensures ApprovalGate(true, Some(Access(Admin, Inactive))) == Forbidden(Some(false))
  {
  }

  /** The check of the admin routes: `currentProfile?.role !== 'admin'` is 403; the
      profile may be missing, and its status is not looked at. */
  function AdminGate(signedIn: bool, role: Option<Role>): (o: Outcome)
    ensures o.Allowed? <==> signedIn && role == Some(Admin)
    ensures o.Unauthorized? <==> !signedIn
    ensures o.Forbidden? ==> o.needsApproval.None?
  {
    if !signedIn then Unauthorized
    else if role != Some(Admin) then Forbidden(None)
    else Allowed
  }

  /** An admin whose own status is not active passes the admin check but not the
      approval gate of the data routes. */
  lemma InactiveAdmin()
    ensures AdminGate(true, Some(Admin)).Allowed?
    ensures ApprovalGate(true, Some(Access(Admin, Inactive))).Forbidden?
  {
  }

  /** `process.env.RESULTS_HIDDEN_TABLES?.split(',').map(t => t.trim()) || []`. */
  function HiddenTables(env: Option<string>): (hidden: seq<string>)
    ensures env.None? ==> hidden == []
    ensures env.Some? ==> |hidden| >= 1
    ensures forall i :: 0 <= i < |hidden| ==> ',' !in hidden[i] && Trim(hidden[i]) == hidden[i]
  {
    if env.None? then []
    else
      var pieces := Split(env.value, ',');
      TrimmedPiecesHaveNoSeparator(pieces, ',');
      TrimAllIdempotent(pieces);
      TrimAll(pieces)
  }

  /** A name listed in the setting, with spaces around it, is hidden. */
  lemma HiddenTablesListed(a: string, name: string, b: string)
    requires ',' !in a && ',' !in name && ',' !in b
    ensures var hidden := HiddenTables(Some(a + "," + name + "," + b));
      |hidden| == 3 && hidden[0] == Trim(a) && hidden[1] == Trim(name) && hidden[2] == Trim(b)
  {
    SplitThree(a, name, b);
  }

  /** A setting without commas hides exactly its trimmed text. */
  lemma HiddenTablesSingle(name: string)
    requires ',' !in name
    ensures HiddenTables(Some(name)) == [Trim(name)]
  {
    SplitNoSep(name, ',');
    assert HiddenTables(Some(name)) == TrimAll([name]);
  }

  /** Any list of comma-free names, joined with commas, is hidden name by name, trimmed. */
  lemma HiddenTablesOfList(names: seq<string>)
    requires |names| >= 1
    requires forall i :: 0 <= i < |names| ==> ',' !in names[i]
    ensures HiddenTables(Some(Join(names, ","))) == TrimAll(names)
  {
    assert [','] == ",";
    SplitJoin(names, ',');
  }
}
