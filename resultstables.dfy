/** The results tables route: which table names the report's table picker offers. */
module ResultsTables {
  import opened Wrappers
  import opened Seqs
  import opened Strings
  import opened Access

  /** `startsWith`. */
  predicate StartsWith(name: string, prefix: string) {
    prefix <= name
  }

  /** Postgres and PostGIS bookkeeping tables, by prefix or by a fragment of the name. */
  predicate SystemTable(name: string) {
    StartsWith(name, "_") || StartsWith(name, "pg_") || StartsWith(name, "information_schema")
    || Includes(name, "geography_columns") || Includes(name, "geometry_columns")
    || Includes(name, "raster_") || Includes(name, "spatial_ref_sys")
  }

  /** The test `filterTables` applies to one name; the hidden list is matched exactly. */
  predicate Shown(name: string, hidden: seq<string>) {
    !SystemTable(name) && name !in hidden
  }

  function ShownUnder(env: Option<string>): string -> bool {
    name => Shown(name, HiddenTables(env))
  }

  /** `filterTables(tableNames)` under the setting `env`. */
  function FilterTables(tableNames: seq<string>, env: Option<string>): (shown: seq<string>)
    ensures |shown| <= |tableNames|
  {
    Filter(tableNames, ShownUnder(env))
  }

  /** The result is an order-preserving sub-list, and a name is in it exactly when it
      is among the input and no exclusion rule applies to it. */
  lemma FilterTablesKeepsShown(tableNames: seq<string>, env: Option<string>, name: string)
    ensures IsSubsequence(FilterTables(tableNames, env), tableNames)
    ensures name in FilterTables(tableNames, env) <==> name in tableNames && Shown(name, HiddenTables(env))
  {
    FilterIsSubsequence(tableNames, ShownUnder(env));
    FilterMembers(tableNames, ShownUnder(env));
  }

  /** Filtering an already filtered list changes nothing. */
  lemma FilterTablesIdempotent(tableNames: seq<string>, env: Option<string>)
    ensures FilterTables(FilterTables(tableNames, env), env) == FilterTables(tableNames, env)
  {
    FilterIdempotent(tableNames, ShownUnder(env));
  }

  /** The names of the system tables the rules are written for are never shown. */
  lemma SystemTablesHidden(env: Option<string>)
    ensures FilterTables(["_prisma_migrations", "pg_stat", "spatial_ref_sys"], env) == []
  {
    var names := ["_prisma_migrations", "pg_stat", "spatial_ref_sys"];
    KnownSystemTables();
    assert names[0] == "_prisma_migrations" && names[1] == "pg_stat" && names[2] == "spatial_ref_sys";
    SystemNamesHidden(names, env);
  }

  /** A migrations table, a Postgres catalogue view and the PostGIS reference table. */
  lemma KnownSystemTables()
    ensures SystemTable("_prisma_migrations") && SystemTable("pg_stat") && SystemTable("spatial_ref_sys")
  {
    assert StartsWith("_prisma_migrations", "_");
    assert StartsWith("pg_stat", "pg_");
    assert "spatial_ref_sys" <= "spatial_ref_sys";
  }

  /** No list of system tables survives the filter, whatever the hidden list. */
  lemma SystemNamesHidden(names: seq<string>, env: Option<string>)
    requires forall i :: 0 <= i < |names| ==> SystemTable(names[i])
    ensures FilterTables(names, env) == []
  {
    FilterKeepsNone(names, ShownUnder(env));
  }

  /** The route's fixed list. */
  const DefaultTables: seq<string> := ["phòng", "khách"]

  /** With no hidden list, or one that names neither default, both defaults are offered. */
  lemma DefaultsPass(env: Option<string>)
    requires "phòng" !in HiddenTables(env) && "khách" !in HiddenTables(env)
    ensures FilterTables(DefaultTables, env) == DefaultTables
    ensures FilterTables(DefaultTables, None) == DefaultTables
  {
    DefaultsShown(HiddenTables(env));
    DefaultsShown(HiddenTables(None));
    ShownNamesPass(DefaultTables, env);
    ShownNamesPass(DefaultTables, None);
  }

  /** Both defaults pass any hidden list that names neither. */
  lemma DefaultsShown(hidden: seq<string>)
    requires "phòng" !in hidden && "khách" !in hidden
    ensures forall i :: 0 <= i < |DefaultTables| ==> Shown(DefaultTables[i], hidden)
  {
    DefaultsNotSystem();
    assert DefaultTables[0] == "phòng" && DefaultTables[1] == "khách";
  }

  /** Neither default name is a system table. */
  lemma DefaultsNotSystem()
    ensures !SystemTable("phòng") && !SystemTable("khách")
  {
    var t0, t1 := "phòng", "khách";
    assert t0[0] == 'p' && t0[1] == 'h' && t1[0] == 'k';
    ShortNameNotSystem(t0);
    ShortNameNotSystem(t1);
  }

  /** A list whose every name passes the test comes back whole. */
  lemma ShownNamesPass(names: seq<string>, env: Option<string>)
    requires forall i :: 0 <= i < |names| ==> Shown(names[i], HiddenTables(env))
    ensures FilterTables(names, env) == names
  {
    FilterKeepsAll(names, ShownUnder(env));
  }

  /** A name of two to six characters that starts with neither `_` nor `pg` is no system table. */
  lemma ShortNameNotSystem(t: string)
    requires 2 <= |t| < 7 && t[0] != '_' && t[..2] != "pg"
    ensures !SystemTable(t)
  {
    NotIncludedWhenLonger(t, "geography_columns");
    NotIncludedWhenLonger(t, "geometry_columns");
    NotIncludedWhenLonger(t, "raster_");
    NotIncludedWhenLonger(t, "spatial_ref_sys");
  }

  lemma NotIncludedWhenLonger(hay: string, needle: string)
    requires |needle| > |hay|
    ensures !Includes(hay, needle)
  {
    IncludesIffOccurs(hay, needle);
  }

  datatype TablesResponse = Refused(outcome: Outcome) | Tables(names: seq<string>)

  /** `GET`: the gate without the approval flag, then the filtered fixed list. */
  function GetTables(signedIn: bool, profile: Option<Access>, env: Option<string>): (r: TablesResponse)
    ensures r.Tables? <==> TablesGate(signedIn, profile).Allowed?
    ensures r.Refused? ==> r.outcome == TablesGate(signedIn, profile) && r.outcome != Forbidden(Some(true)) && r.outcome != Forbidden(Some(false))
    ensures r.Tables? ==> IsSubsequence(r.names, DefaultTables)
  {
    var gate := TablesGate(signedIn, profile);
    if !gate.Allowed? then Refused(gate)
    else
      FilterIsSubsequence(DefaultTables, ShownUnder(env));
      Tables(FilterTables(DefaultTables, env))
  }
}
