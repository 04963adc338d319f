/**
 * `main` of the access script: one transaction that creates roles, installs the session
 * functions, classifies every managed table, rebuilds grants and row policies, and commits.
 * Loops pick their next element arbitrarily, so nothing depends on an iteration order.
 */
module AccessApply {
  import opened Common
  import opened RoleGraph
  import opened SqlModel
  import opened PolicyCompiler
  import opened RowSecurity
  import opened Visibility
  import opened AccessState

  datatype Failure =
    | Script(error: Error)
    | StaleEntries(keys: set<string>)
    | UnclassifiedTables(keys: set<string>)
    | UnknownSchema(name: string)
    | MissingTable(key: string)
    | UnknownRole(name: string)
    | MissingLogin(name: string)
    | Database(detail: string)

  /** A connection: other sessions read `committed`, this one works on `working`. */
  class PgClient {
    var committed: State
    var working: State

    constructor (initial: State)
      ensures committed == initial && working == initial
    {
      committed, working := initial, initial;
    }

    // ---- Roles and session functions

    method CreateRoles(roles: set<string>) returns (r: Result<Unit, Failure>)
      modifies this`working
      ensures r.Ok? <==> forall role | role in roles :: Creatable(old(working).roles, role)
      ensures r.Ok? ==> working == old(working).(roles := old(working).roles + roles)
    {
      var todo := roles;
      while todo != {}
        invariant todo <= roles
        invariant forall role | role in roles - todo :: Creatable(old(working).roles, role)
        invariant working == old(working).(roles := old(working).roles + (roles - todo))
      {
        var role :| role in todo;
        if !IsIdentifier(role) {
          return Err(Script(UnsafeIdentifier(role)));
        }
        if role !in working.roles {
          if IsReserved(role) {
            return Err(Database("role name is reserved"));
          }
          working := working.(roles := working.roles + {role});
        }
        todo := todo - {role};
      }
      return Ok(());
    }

    method InstallFunctions(states: set<string>) returns (r: Result<Unit, Failure>)
      modifies this`working
      ensures r.Ok? <==> BindingsReadable(old(working), states)
      ensures r.Ok? ==> working == old(working).(schemas := old(working).schemas + {"shield_rls"},
                                                 grants := RevokePublic(old(working).grants),
                                                 bindingStates := Some(states))
    {
      if !BindingsReadable(working, states) {
        return Err(Database("account_visible"));
      }
      working := working.(schemas := working.schemas + {"shield_rls"},
                          grants := RevokePublic(working.grants),
                          bindingStates := Some(states));
      return Ok(());
    }

    /** GRANT role TO member: the database refuses a membership that closes a circle. */
    method GrantRole(role: string, member: string) returns (r: Result<Unit, Failure>)
      requires Loopless(working.memberships)
      modifies this`working
      ensures r.Ok? <==> Loopless(old(working).memberships + {(role, member)})
      ensures r.Ok? ==> working == old(working).(memberships := old(working).memberships + {(role, member)})
    {
      GrantClosesNoLoop(working.memberships, role, member);
      if role in Down(working.memberships, member) {
        return Err(Database("role is a member of role"));
      }
      working := working.(memberships := working.memberships + {(role, member)});
      return Ok(());
    }

    // ---- Catalogue and classification

    /** Fold the catalogue rows into a map of maps. */
    method LoadTables(p: AccessPolicy) returns (tables: map<string, Columns>)
      ensures tables == Managed(p, working)
    {
      var rows := CatalogRows(p, working);
      var todo := rows;
      tables := map[];
      while todo != {}
        invariant todo <= rows
        invariant tables == Grouped(working.relations, rows - todo)
      {
        var row :| row in todo;
        var (key, column) := row;
        GroupedStep(working.relations, rows - todo, key, column);
        assert rows - (todo - {row}) == rows - todo + {row};
        todo := todo - {row};
        var sofar := if key in tables then tables[key] else map[];
        tables := tables[key := sofar[column := working.relations[key].columns[column]]];
      }
      assert rows - todo == rows;
      GroupedAll(p, working);
    }

    method Classify(p: AccessPolicy, tables: map<string, Columns>) returns (r: Result<map<string, Entry>, Failure>)
      ensures r.Ok? <==> Stale(p, tables) == {} && Unclassified(p, tables) == {}
      ensures r.Ok? ==> r.value == Classified(p, tables) && r.value.Keys == tables.Keys
    {
      if Stale(p, tables) != {} {
        return Err(StaleEntries(Stale(p, tables)));
      }
      var todo := tables.Keys;
      var classified: map<string, Entry> := map[];
      var unclassified := {};
      while todo != {}
        invariant todo <= tables.Keys
        invariant unclassified == set key | key in tables.Keys - todo && EntryFor(p, key, tables[key]).None?
        invariant classified == map key | key in tables.Keys - todo && EntryFor(p, key, tables[key]).Some? ::
                  EntryFor(p, key, tables[key]).value
      {
        var key :| key in todo;
        todo := todo - {key};
        match EntryFor(p, key, tables[key]) {
          case Some(entry) => classified := classified[key := entry];
          case None => unclassified := unclassified + {key};
        }
      }
      assert unclassified == Unclassified(p, tables);
      if unclassified != {} {
        return Err(UnclassifiedTables(unclassified));
      }
      assert forall key | key in tables :: key !in Unclassified(p, tables);
      return Ok(classified);
    }

    // ---- Grants

    /** Revoke everything the service roles hold in one schema, and PUBLIC's schema privileges. */
    method RevokeSchema(p: AccessPolicy, schema: string) returns (r: Result<Unit, Failure>)
      modifies this`working
      ensures r.Ok? <==> IsIdentifier(schema) && schema in old(working).schemas
      ensures r.Ok? ==>
                working == old(working).(grants :=
                  set g | g in old(working).grants && !RevokedIn(p, old(working), schema, g))
    {
      if !IsIdentifier(schema) {
        return Err(Script(UnsafeIdentifier(schema)));
      }
      if schema !in working.schemas {
        return Err(Database("schema does not exist"));
      }
      var s := working;
      var kept := set g | g in s.grants && !(g.SchemaGrant? && g.schema == schema && g.to == Public);
      var todo := p.roles.Keys;
      while todo != {}
        invariant todo <= p.roles.Keys
        invariant kept == set g | g in s.grants
                  && !(HeldIn(s, schema, g) && g.to.Role? && g.to.name in p.roles.Keys - todo)
                                  && !(g.SchemaGrant? && g.schema == schema && g.to == Public)
      {
        var role :| role in todo;
        todo := todo - {role};
        kept := set g | g in kept && !(HeldIn(s, schema, g) && g.to == Role(role));
      }
      working := working.(grants := kept);
      return Ok(());
    }

    method RevokeAll(p: AccessPolicy) returns (r: Result<Unit, Failure>)
      modifies this`working
      ensures r.Ok? <==> forall schema | schema in p.Schemas() :: IsIdentifier(schema) && schema in old(working).schemas
      ensures r.Ok? ==>
                working == old(working).(grants := set g | g in old(working).grants && !Revoked(p, old(working), g))
    {
      ghost var s := working;
      var todo := p.Schemas();
      while todo != {}
        invariant todo <= p.Schemas()
        invariant forall schema | schema in p.Schemas() - todo :: IsIdentifier(schema) && schema in s.schemas
        invariant working == s.(grants := AfterRevoking(p, s, p.Schemas() - todo))
      {
        var schema :| schema in todo;
        ghost var before := working;
        var step := RevokeSchema(p, schema);
        if step.Err? {
          return step;
        }
        AfterRevokingStep(p, s, before, p.Schemas() - todo, schema);
        assert p.Schemas() - (todo - {schema}) == p.Schemas() - todo + {schema};
        todo := todo - {schema};
      }
      assert p.Schemas() - todo == p.Schemas();
      AfterRevokingAll(p, s);
      return Ok(());
    }

    method GrantSchemas(p: AccessPolicy, schemas: set<string>, role: string) returns (r: Result<Unit, Failure>)
      modifies this`working
      ensures r.Ok? <==> schemas <= p.Schemas()
      ensures r.Ok? ==>
                working == old(working).(grants := old(working).grants + SchemasDml(old(working), schemas, Role(role)))
    {
      ghost var s := working;
      var todo := schemas;
      while todo != {}
        invariant todo <= schemas && schemas - todo <= p.Schemas()
        invariant working == s.(grants := s.grants + SchemasDml(s, schemas - todo, Role(role)))
      {
        var schema :| schema in todo;
        if schema !in p.Schemas() {
          return Err(UnknownSchema(schema));
        }
        SchemasDmlStep(s, schemas - todo, schema, Role(role));
        assert schemas - (todo - {schema}) == schemas - todo + {schema};
        todo := todo - {schema};
        working := working.(grants := working.grants + SchemaDml(working, schema, Role(role)));
        SchemaDmlFrame(s, working, schema, Role(role));
      }
      assert schemas - todo == schemas;
      return Ok(());
    }

    method GrantTables(p: AccessPolicy, entries: map<string, Mode>, tables: map<string, Columns>, role: string)
      returns (r: Result<Unit, Failure>)
      modifies this`working
      ensures r.Ok? <==> forall key | key in entries :: key in tables && Qualified(key).Ok?
      ensures r.Ok? ==>
                working == old(working).(grants := old(working).grants + EntryGrants(entries, entries.Keys, Role(role)))
    {
      ghost var s := working;
      var todo := entries.Keys;
      while todo != {}
        invariant todo <= entries.Keys
        invariant forall key | key in entries.Keys - todo :: key in tables && Qualified(key).Ok?
        invariant working == s.(grants := s.grants + EntryGrants(entries, entries.Keys - todo, Role(role)))
      {
        var key :| key in todo;
        if key !in tables {
          return Err(MissingTable(key));
        }
        var q := Qualified(key);
        if q.Err? {
          return Err(Script(q.error));
        }
        EntryGrantsStep(entries, entries.Keys - todo, key, Role(role));
        assert entries.Keys - (todo - {key}) == entries.Keys - todo + {key};
        todo := todo - {key};
        working := working.(grants := working.grants + {SchemaGrant(SchemaOf(key), false, Role(role))}
          + set privilege | privilege in ModePrivileges(entries[key]) :: TableGrant(key, privilege, Role(role)));
      }
      assert entries.Keys - todo == entries.Keys;
      return Ok(());
    }

    method GrantServiceRole(p: AccessPolicy, tables: map<string, Columns>, role: string)
      returns (r: Result<Unit, Failure>)
      requires role in p.roles && tables == Managed(p, working) && Loopless(working.memberships)
      modifies this`working
      ensures r.Ok? <==>
                Loopless(old(working).memberships + {(PLATFORM_SCOPE_ROLE, role)}) && RoleAccepts(p, old(working), role)
      ensures r.Ok? ==>
                working == old(working).(memberships := old(working).memberships + {(PLATFORM_SCOPE_ROLE, role)},
                                         grants := old(working).grants + Denoted(p, old(working), role))
    {
      ghost var s := working;
      var spec := p.roles[role];
      var to := Role(role);
      working := working.(grants := working.grants + {SchemaGrant("shield_rls", false, to), FunctionGrant(to)});
      r := GrantRole(PLATFORM_SCOPE_ROLE, role);
      if r.Err? {
        return;
      }
      SchemasDmlFrame(s, working, if spec.allSchemas then p.Schemas() else spec.ownSchemas, to);
      r := GrantSchemas(p, if spec.allSchemas then p.Schemas() else spec.ownSchemas, role);
      if r.Err? || spec.allSchemas {
        return;
      }
      r := GrantTables(p, spec.tables, tables, role);
    }

    method GrantServiceRoles(p: AccessPolicy, tables: map<string, Columns>) returns (r: Result<Unit, Failure>)
      requires tables == Managed(p, working) && Loopless(working.memberships)
      modifies this`working
      ensures r.Ok? <==> ServiceRolesAccepted(p, old(working), p.roles.Keys)
      ensures r.Ok? ==> working == AfterGranting(p, old(working), p.roles.Keys)
    {
      ghost var s := working;
      var todo := p.roles.Keys;
      AfterGrantingNone(p, s);
      assert p.roles.Keys - todo == {};
      while todo != {}
        invariant todo <= p.roles.Keys
        invariant RolesGranted(p, s, working, p.roles.Keys - todo)
      {
        var role :| role in todo;
        RolesGrantedStep(p, s, working, p.roles.Keys - todo, role);
        assert p.roles.Keys - (todo - {role}) == p.roles.Keys - todo + {role};
        r := GrantServiceRole(p, tables, role);
        if r.Err? {
          return;
        }
        todo := todo - {role};
      }
      assert p.roles.Keys - todo == p.roles.Keys;
      return Ok(());
    }

    // ---- Row-level security

    method Execute(st: Statement) returns (ok: bool)
      modifies this`working
      ensures ok <==> Executable(old(working), st)
      ensures ok ==> working == WithRls(old(working), st.key, ExecOn(old(working).rls[st.key], st))
    {
      ok := Executable(working, st);
      if ok {
        working := WithRls(working, st.key, ExecOn(working.rls[st.key], st));
      }
    }

    /** Drop whatever shield_ policies the table has. */
    method DropShieldPolicies(key: string) returns (r: Result<Unit, Failure>)
      requires key in working.rls
      modifies this`working
      ensures r.Ok? <==> forall name | name in ShieldNames(old(working).rls[key]) :: IsIdentifier(name)
      ensures r.Ok? ==> working == WithRls(old(working), key, Stripped(old(working).rls[key]))
    {
      ghost var ts := working.rls[key];
      var names := ShieldNames(working.rls[key]);
      var todo := names;
      WithoutNone(working, key);
      while todo != {}
        invariant todo <= names
        invariant forall name | name in names - todo :: IsIdentifier(name)
        invariant working == WithRls(old(working), key, Without(ts, names - todo))
      {
        var name :| name in todo;
        if !IsIdentifier(name) {
          return Err(Script(UnsafeIdentifier(name)));
        }
        WithoutStep(ts, names - todo, name);
        assert names - (todo - {name}) == names - todo + {name};
        var before := working;
        todo := todo - {name};
        var ok := Execute(DropPolicy(name, key));
        assert ok;
        WithRlsTwice(old(working), key, before.rls[key], working.rls[key]);
      }
      assert names - todo == names;
      return Ok(());
    }

    /** Drop and recreate the row security of one table from its compiled expressions. */
    method RebuildTable(key: string, kind: Kind, compiled: Result<ReadWrite, Error>) returns (r: Result<Unit, Failure>)
      requires key in working.relations && key in working.rls
      modifies this`working
      ensures r.Ok? <==> TableAccepts(old(working), key, kind, compiled)
      ensures r.Ok? ==> working == WithRls(old(working), key, TableTarget(kind, compiled, old(working).rls[key]))
    {
      ghost var s := working;
      var q := Qualified(key);
      if q.Err? {
        return Err(Script(q.error));
      }
      r := DropShieldPolicies(key);
      if r.Err? {
        return;
      }
      ghost var bare := working;
      if IsExempt(kind) {
        var ok := Execute(NoForceRls(key));
        ok := Execute(DisableRls(key));
        return Ok(());
      }
      if compiled.Err? {
        return Err(Script(compiled.error));
      }
      RwResolvesSame(s, bare, s.relations[key].columns, compiled.value);
      WithRlsTwice(s, key, bare.rls[key], TableTarget(kind, compiled, s.rls[key]));
      r := RunStatements(key, compiled.value);
    }

    method RunStatements(key: string, rw: ReadWrite) returns (r: Result<Unit, Failure>)
      requires key in working.relations && key in working.rls && ShieldNames(working.rls[key]) == {}
      modifies this`working
      ensures r.Ok? <==> RwResolves(old(working), old(working).relations[key].columns, rw)
      ensures r.Ok? ==>
                working == WithRls(old(working), key,
                  TableSecurity(true, true, old(working).rls[key].policies + PolicyMap(rw)))
    {
      ghost var s := working;
      var statements := Protect(key, PolicyList(rw));
      StatementsBuildTarget(s, key, rw);
      for i := 0 to |statements|
        invariant Runs(s, key, statements, i)
        invariant working == After(s, key, statements, i)
      {
        var ok := Execute(statements[i]);
        if !ok {
          StopsShort(s, key, statements, i);
          return Err(Database("policy rejected"));
        }
      }
      return Ok(());
    }

    method RebuildAll(tables: map<string, Columns>, classified: map<string, Entry>)
      returns (r: Result<Unit, Failure>, counts: map<Kind, nat>)
      requires classified.Keys == tables.Keys
      requires forall key | key in classified :: key in working.relations && key in working.rls
      modifies this`working
      ensures r.Ok? <==> AllTablesAccept(old(working), tables, classified)
      ensures r.Ok? ==> working == old(working).(rls := Rebuilt(old(working), tables, classified, classified.Keys))
      ensures r.Ok? ==> counts == KindCounts(classified)
    {
      ghost var s := working;
      var todo := classified.Keys;
      counts := map[];
      RebuiltNone(s, tables, classified);
      while todo != {}
        invariant todo <= classified.Keys
        invariant Rebuilding(s, working, counts, tables, classified, classified.Keys - todo)
      {
        var key :| key in todo;
        RebuildingStep(s, working, counts, tables, classified, classified.Keys - todo, key);
        assert classified.Keys - (todo - {key}) == classified.Keys - todo + {key};
        var kind := classified[key].kind;
        counts := Counted(counts, kind);
        r := RebuildTable(key, kind, Compiled(tables, classified, key));
        if r.Err? {
          return;
        }
        todo := todo - {key};
      }
      assert classified.Keys - todo == classified.Keys;
      CountsAll(classified);
      r := Ok(());
    }

    // ---- Login users

    method GrantLogins(role: string, logins: set<string>) returns (r: Result<Unit, Failure>)
      requires Loopless(working.memberships)
      modifies this`working
      ensures r.Ok? <==> && LoginsAccepted(logins, old(working).roles)
                         && Loopless(old(working).memberships + Pairs(role, logins))
      ensures r.Ok? ==> working == old(working).(memberships := old(working).memberships + Pairs(role, logins))
    {
      ghost var s := working;
      var todo := logins;
      assert logins - todo == {} && s.memberships + Pairs(role, {}) == s.memberships;
      while todo != {}
        invariant todo <= logins
        invariant LoginsAccepted(logins - todo, s.roles)
        invariant Loopless(s.memberships + Pairs(role, logins - todo))
        invariant working == s.(memberships := s.memberships + Pairs(role, logins - todo))
      {
        var login :| login in todo;
        if login !in working.roles {
          return Err(MissingLogin(login));
        }
        if !IsIdentifier(login) {
          return Err(Script(UnsafeIdentifier(login)));
        }
        PairsStep(s.memberships, role, logins, logins - todo, login);
        r := GrantRole(role, login);
        if r.Err? {
          return;
        }
        assert logins - (todo - {login}) == logins - todo + {login};
        todo := todo - {login};
      }
      assert logins - todo == logins;
      return Ok(());
    }

    method GrantMembers(p: AccessPolicy, members: Members) returns (r: Result<Unit, Failure>)
      requires Loopless(working.memberships)
      modifies this`working
      ensures r.Ok? <==> && MembersAccepted(p, members, old(working).roles)
                         && Loopless(old(working).memberships + Logins(members, members.Keys))
      ensures r.Ok? ==> working ==
                          old(working).(memberships := old(working).memberships + Logins(members, members.Keys))
    {
      ghost var s := working;
      var todo := members.Keys;
      assert members.Keys - todo == {} && s.memberships + Logins(members, {}) == s.memberships;
      while todo != {}
        invariant todo <= members.Keys
        invariant forall role | role in members.Keys - todo :: role in p.roles && LoginsAccepted(members[role], s.roles)
        invariant Loopless(s.memberships + Logins(members, members.Keys - todo))
        invariant working == s.(memberships := s.memberships + Logins(members, members.Keys - todo))
      {
        var role :| role in todo;
        if role !in p.roles {
          return Err(UnknownRole(role));
        }
        LoginsStep(s.memberships, members, members.Keys - todo, role);
        r := GrantLogins(role, members[role]);
        if r.Err? {
          return;
        }
        assert members.Keys - (todo - {role}) == members.Keys - todo + {role};
        todo := todo - {role};
      }
      assert members.Keys - todo == members.Keys;
      return Ok(());
    }

    // ---- The transaction

    /** Roles, session functions, and the platform-scope membership of the migration user. */
    method Prepare(p: AccessPolicy, user: string) returns (r: Result<Unit, Failure>)
      requires Loopless(working.memberships)
      modifies this`working
      ensures r.Ok? <==> Preparable(p, user, old(working))
      ensures r.Ok? ==> working == Prepared(p, user, old(working))
    {
      r := CreateRoles(p.roles.Keys + {PLATFORM_SCOPE_ROLE});
      if r.Err? {
        return;
      }
      r := InstallFunctions(p.bindingStates);
      if r.Err? {
        return;
      }
      r := GrantRole(PLATFORM_SCOPE_ROLE, user);
    }

    /** Revoke, then grant. */
    method RebuildGrants(p: AccessPolicy, tables: map<string, Columns>) returns (r: Result<Unit, Failure>)
      requires tables == Managed(p, working) && Loopless(working.memberships)
      modifies this`working
      ensures r.Ok? <==> Grantable(p, old(working))
      ensures r.Ok? ==> working == Granted(p, old(working))
    {
      ghost var s := working;
      r := RevokeAll(p);
      if r.Err? {
        return;
      }
      GrantsFrame(p, s, working);
      r := GrantServiceRoles(p, tables);
    }

    method RunInTransaction(p: AccessPolicy, members: Members, user: string) returns (r: Result<Summary, Failure>)
      requires Consistent(working)
      modifies this`working
      ensures r.Ok? <==> Accepts(p, members, user, old(working))
      ensures r.Ok? ==> working == Target(p, members, user, old(working)) && r.value == SummaryOf(p, old(working))
    {
      ghost var s := working;
      AcceptsParts(p, members, user, s);
      var step := Prepare(p, user);
      if step.Err? {
        return Err(step.error);
      }
      var tables := LoadTables(p);
      var c := Classify(p, tables);
      if c.Err? {
        return Err(c.error);
      }
      var classified := c.value;
      step := RebuildGrants(p, tables);
      if step.Err? {
        return Err(step.error);
      }
      ghost var granted := working;
      var counts;
      step, counts := RebuildAll(tables, classified);
      AllTablesFrame(s, granted, tables, classified);
      if step.Err? {
        return Err(step.error);
      }
      step := GrantMembers(p, members);
      if step.Err? {
        return Err(step.error);
      }
      var summary := Summary(|classified|, counts, p.roles.Keys, |p.Schemas()|);
      TargetParts(p, members, user, s);
      working := working.(audit := working.audit + [(p.sha, summary)]);
      return Ok(summary);
    }

    /** BEGIN ... COMMIT, or ROLLBACK on any failure. */
    method Apply(p: AccessPolicy, members: Members, user: string) returns (r: Result<Summary, Failure>)
      requires Consistent(committed)
      modifies this
      ensures r.Ok? <==> Accepts(p, members, user, old(committed))
      ensures r.Ok? ==> committed == Target(p, members, user, old(committed))
      ensures r.Err? ==> committed == old(committed)
      ensures working == committed
    {
      working := committed;
      r := RunInTransaction(p, members, user);
      if r.Ok? {
        committed := working;
      } else {
        working := committed;
      }
    }
  }

  /** One row per column of a listed relation in a managed schema. */
  function CatalogRows(p: AccessPolicy, s: State): set<(string, string)> {
    set key, column | key in s.relations && s.relations[key].listed
                      && s.relations[key].schema in p.Schemas() && column in s.relations[key].columns :: (key, column)
  }

  predicate RowsExist(relations: map<string, Relation>, rows: set<(string, string)>) {
    forall row | row in rows :: row.0 in relations && row.1 in relations[row.0].columns
  }

  function RowsOf(columns: Columns, key: string, rows: set<(string, string)>): Columns {
    map column | column in columns && (key, column) in rows :: columns[column]
  }

  function Grouped(relations: map<string, Relation>, rows: set<(string, string)>): map<string, Columns>
    requires RowsExist(relations, rows)
  {
    map key | key in (set row | row in rows :: row.0) :: RowsOf(relations[key].columns, key, rows)
  }

  lemma GroupedStep(relations: map<string, Relation>, rows: set<(string, string)>, key: string, column: string)
    requires RowsExist(relations, rows) && key in relations && column in relations[key].columns
    ensures var grouped := Grouped(relations, rows);
            Grouped(relations, rows + {(key, column)}) ==
              grouped[key := (if key in grouped then grouped[key] else map[])[column := relations[key].columns[column]]]
  {
    var grouped, next := Grouped(relations, rows), Grouped(relations, rows + {(key, column)});
    GroupedKeys(relations, rows, key, column);
    RowsOfStep(relations[key].columns, key, rows, column);
    if key !in grouped {
      NoRows(relations[key].columns, key, rows);
    }
    forall other | other in grouped && other != key
      ensures next[other] == grouped[other]
    {
      RowsOfOther(relations[other].columns, other, rows, key, column);
    }
  }

  lemma GroupedKeys(relations: map<string, Relation>, rows: set<(string, string)>, key: string, column: string)
    requires RowsExist(relations, rows) && key in relations && column in relations[key].columns
    ensures RowsExist(relations, rows + {(key, column)})
    ensures Grouped(relations, rows + {(key, column)}).Keys == Grouped(relations, rows).Keys + {key}
  {
    assert (key, column) in rows + {(key, column)};
  }

  lemma RowsOfStep(columns: Columns, key: string, rows: set<(string, string)>, column: string)
    requires column in columns
    ensures RowsOf(columns, key, rows + {(key, column)}) == RowsOf(columns, key, rows)[column := columns[column]]
  {
  }

  lemma RowsOfOther(columns: Columns, other: string, rows: set<(string, string)>, key: string, column: string)
    requires other != key
    ensures RowsOf(columns, other, rows + {(key, column)}) == RowsOf(columns, other, rows)
  {
  }

  lemma NoRows(columns: Columns, key: string, rows: set<(string, string)>)
    requires forall row | row in rows :: row.0 != key
    ensures RowsOf(columns, key, rows) == map[]
  {
  }

  lemma GroupedAll(p: AccessPolicy, s: State)
    ensures Grouped(s.relations, CatalogRows(p, s)) == Managed(p, s)
  {
    var rows := CatalogRows(p, s);
    forall key | key in Managed(p, s)
      ensures key in Grouped(s.relations, rows) && RowsOf(s.relations[key].columns, key, rows) == Managed(p, s)[key]
    {
      var column :| column in s.relations[key].columns;
      assert (key, column) in rows;
    }
  }

  // ---- Grants, schema by schema and role by role

  /** The privilege is on the schema or on something in it. */
  predicate HeldIn(s: State, schema: string, g: Grant) {
    match g
    case SchemaGrant(at, _, _) => at == schema
    case TableGrant(key, _, _) => key in s.relations && s.relations[key].schema == schema
    case SequenceGrant(q, _, _) => q in s.sequences && s.sequences[q] == schema
    case FunctionGrant(_) => false
  }

  predicate RevokedIn(p: AccessPolicy, s: State, schema: string, g: Grant) {
    || (HeldIn(s, schema, g) && g.to.Role? && g.to.name in p.roles)
    || (g.SchemaGrant? && g.schema == schema && g.to == Public)
  }

  function AfterRevoking(p: AccessPolicy, s: State, schemas: set<string>): set<Grant> {
    set g | g in s.grants && forall schema | schema in schemas :: !RevokedIn(p, s, schema, g)
  }

  lemma AfterRevokingStep(p: AccessPolicy, s: State, t: State, schemas: set<string>, schema: string)
    requires t == s.(grants := AfterRevoking(p, s, schemas))
    ensures (set g | g in t.grants && !RevokedIn(p, t, schema, g)) == AfterRevoking(p, s, schemas + {schema})
  {
    assert forall g :: RevokedIn(p, t, schema, g) <==> RevokedIn(p, s, schema, g);
  }

  lemma AfterRevokingAll(p: AccessPolicy, s: State)
    ensures AfterRevoking(p, s, p.Schemas()) == set g | g in s.grants && !Revoked(p, s, g)
  {
    forall g | g in s.grants
      ensures Revoked(p, s, g) <==> exists schema | schema in p.Schemas() :: RevokedIn(p, s, schema, g)
    {
      RevokedSomewhere(p, s, g);
    }
  }

  lemma RevokedSomewhere(p: AccessPolicy, s: State, g: Grant)
    ensures Revoked(p, s, g) <==> exists schema | schema in p.Schemas() :: RevokedIn(p, s, schema, g)
  {
    if Revoked(p, s, g) {
      var schema := match g
        case SchemaGrant(at, _, _) => at
        case TableGrant(key, _, _) => s.relations[key].schema
        case SequenceGrant(q, _, _) => s.sequences[q]
        case FunctionGrant(_) => "";
      assert RevokedIn(p, s, schema, g);
    }
  }

  lemma SchemaDmlFrame(s: State, t: State, schema: string, to: Grantee)
    requires s.relations == t.relations && s.sequences == t.sequences
    ensures SchemaDml(s, schema, to) == SchemaDml(t, schema, to)
  {
  }

  lemma SchemasDmlFrame(s: State, t: State, schemas: set<string>, to: Grantee)
    requires s.relations == t.relations && s.sequences == t.sequences
    ensures SchemasDml(s, schemas, to) == SchemasDml(t, schemas, to)
  {
    forall schema ensures SchemaDml(s, schema, to) == SchemaDml(t, schema, to) {
      SchemaDmlFrame(s, t, schema, to);
    }
  }

  lemma SchemasDmlStep(s: State, schemas: set<string>, schema: string, to: Grantee)
    ensures SchemasDml(s, schemas + {schema}, to) == SchemasDml(s, schemas, to) + SchemaDml(s, schema, to)
  {
  }

  lemma EntryGrantsStep(entries: map<string, Mode>, keys: set<string>, key: string, to: Grantee)
    requires keys <= entries.Keys && key in entries
    ensures EntryGrants(entries, keys + {key}, to) ==
              EntryGrants(entries, keys, to) + {SchemaGrant(SchemaOf(key), false, to)}
              + set privilege | privilege in ModePrivileges(entries[key]) :: TableGrant(key, privilege, to)
  {
  }

  lemma PlatformMembersStep(roles: set<string>, role: string)
    ensures PlatformMembers(roles + {role}) == PlatformMembers(roles) + {(PLATFORM_SCOPE_ROLE, role)}
  {
  }

  function AfterGranting(p: AccessPolicy, s: State, roles: set<string>): State
    requires roles <= p.roles.Keys
  {
    s.(memberships := s.memberships + PlatformMembers(roles),
       grants := s.grants + DenotedTo(p, s, roles))
  }

  lemma AfterGrantingNone(p: AccessPolicy, s: State)
    ensures AfterGranting(p, s, {}) == s && s.memberships + PlatformMembers({}) == s.memberships
  {
  }

  /** Every role in `roles` names known schemas and tables, and joins the platform scope without a circle. */
  ghost predicate ServiceRolesAccepted(p: AccessPolicy, s: State, roles: set<string>)
    requires roles <= p.roles.Keys
  {
    && (forall role | role in roles :: RoleAccepts(p, s, role))
    && Loopless(s.memberships + PlatformMembers(roles))
  }

  lemma AcceptedStep(p: AccessPolicy, s: State, roles: set<string>, role: string)
    requires roles <= p.roles.Keys && role in p.roles && ServiceRolesAccepted(p, s, roles)
    ensures ServiceRolesAccepted(p, s, roles + {role}) <==>
              && RoleAccepts(p, s, role)
              && Loopless(s.memberships + PlatformMembers(roles) + {(PLATFORM_SCOPE_ROLE, role)})
    ensures ServiceRolesAccepted(p, s, p.roles.Keys) ==> ServiceRolesAccepted(p, s, roles + {role})
  {
    PlatformMembersStep(roles, role);
    var before, one := s.memberships, {(PLATFORM_SCOPE_ROLE, role)};
    assert before + PlatformMembers(roles + {role}) == before + PlatformMembers(roles) + one;
    if ServiceRolesAccepted(p, s, p.roles.Keys) {
      LooplessShrinks(before + PlatformMembers(roles + {role}), before + PlatformMembers(p.roles.Keys));
    }
  }

  lemma AfterGrantingStep(p: AccessPolicy, s: State, roles: set<string>, role: string)
    requires roles <= p.roles.Keys && role in p.roles
    ensures var t := AfterGranting(p, s, roles);
            AfterGranting(p, s, roles + {role}) ==
              t.(memberships := t.memberships + {(PLATFORM_SCOPE_ROLE, role)}, grants := t.grants + Denoted(p, t, role))
  {
    var t := AfterGranting(p, s, roles);
    DenotedFrame(p, s, t, role);
    DenotedStep(p, s, roles, role);
    PlatformMembersStep(roles, role);
    var next := AfterGranting(p, s, roles + {role});
    assert next.memberships == t.memberships + {(PLATFORM_SCOPE_ROLE, role)};
    assert next.grants == t.grants + Denoted(p, t, role);
  }

  /** The roles in `done` have been accepted and granted. */
  ghost predicate RolesGranted(p: AccessPolicy, s: State, now: State, done: set<string>) {
    done <= p.roles.Keys && ServiceRolesAccepted(p, s, done) && now == AfterGranting(p, s, done)
  }

  lemma RolesGrantedStep(p: AccessPolicy, s: State, now: State, done: set<string>, role: string)
    requires RolesGranted(p, s, now, done) && role in p.roles
    ensures Managed(p, now) == Managed(p, s) && Loopless(now.memberships)
    ensures var one := now.memberships + {(PLATFORM_SCOPE_ROLE, role)};
            if Loopless(one) && RoleAccepts(p, now, role)
            then
              var next := now.(memberships := one, grants := now.grants + Denoted(p, now, role));
              RolesGranted(p, s, next, done + {role})
            else !ServiceRolesAccepted(p, s, p.roles.Keys)
  {
    DenotedFrame(p, s, now, role);
    AfterGrantingStep(p, s, done, role);
    AcceptedStep(p, s, done, role);
  }

  lemma DenotedStep(p: AccessPolicy, s: State, roles: set<string>, role: string)
    requires roles <= p.roles.Keys && role in p.roles
    ensures DenotedTo(p, s, roles + {role}) == DenotedTo(p, s, roles) + Denoted(p, s, role)
  {
  }

  /** What a role is due depends on the catalogue alone. */
  lemma DenotedFrame(p: AccessPolicy, s: State, t: State, role: string)
    requires role in p.roles && s.relations == t.relations && s.sequences == t.sequences
    ensures Denoted(p, s, role) == Denoted(p, t, role)
    ensures Managed(p, s) == Managed(p, t) && (RoleAccepts(p, s, role) <==> RoleAccepts(p, t, role))
  {
    var spec, to := p.roles[role], Role(role);
    SchemasDmlFrame(s, t, p.Schemas(), to);
    SchemasDmlFrame(s, t, spec.ownSchemas, to);
  }

  // ---- Statement lists on one table

  function WithRls(s: State, key: string, ts: TableSecurity): State {
    s.(rls := s.rls[key := ts])
  }

  function Without(ts: TableSecurity, names: set<string>): TableSecurity {
    ts.(policies := ts.policies - names)
  }

  function Stripped(ts: TableSecurity): TableSecurity {
    Without(ts, ShieldNames(ts))
  }

  lemma WithoutNone(s: State, key: string)
    requires key in s.rls
    ensures WithRls(s, key, Without(s.rls[key], {})) == s
    ensures forall names: set<string> :: names - names == {}
  {
    assert s.rls[key].policies - {} == s.rls[key].policies;
    assert s.rls[key := s.rls[key]] == s.rls;
  }

  lemma WithoutStep(ts: TableSecurity, names: set<string>, name: string)
    ensures ExecOn(Without(ts, names), DropPolicy(name, "")) == Without(ts, names + {name})
  {
    assert ts.policies - names - {name} == ts.policies - (names + {name});
  }

  lemma WithRlsTwice(s: State, key: string, a: TableSecurity, b: TableSecurity)
    ensures WithRls(WithRls(s, key, a), key, b) == WithRls(s, key, b)
  {
    assert s.rls[key := a][key := b] == s.rls[key := b];
  }

  function After(s: State, key: string, statements: seq<Statement>, n: nat): State
    requires key in s.rls && n <= |statements|
    ensures key in After(s, key, statements, n).rls
  {
    if n == 0 then s
    else
      var t := After(s, key, statements, n - 1);
      WithRls(t, key, ExecOn(t.rls[key], statements[n - 1]))
  }

  /** The first n statements all execute. */
  predicate Runs(s: State, key: string, statements: seq<Statement>, n: nat)
    requires key in s.rls && n <= |statements|
  {
    n == 0 || (Runs(s, key, statements, n - 1)
               && statements[n - 1].key == key && Executable(After(s, key, statements, n - 1), statements[n - 1]))
  }

  lemma {:induction false} StopsShort(s: State, key: string, statements: seq<Statement>, i: nat)
    requires key in s.rls && i < |statements| && !Runs(s, key, statements, i + 1)
    ensures !Runs(s, key, statements, |statements|)
    decreases |statements| - i
  {
    if i + 1 < |statements| {
      StopsShort(s, key, statements, i + 1);
    }
  }

  lemma {:induction false} AfterKeepsRelations(s: State, key: string, statements: seq<Statement>, n: nat)
    requires key in s.rls && n <= |statements|
    ensures After(s, key, statements, n).relations == s.relations
    ensures After(s, key, statements, n) == WithRls(s, key, After(s, key, statements, n).rls[key])
  {
    if n == 0 {
      assert s.rls[key := s.rls[key]] == s.rls;
    } else {
      AfterKeepsRelations(s, key, statements, n - 1);
      WithRlsTwice(s, key, After(s, key, statements, n - 1).rls[key], After(s, key, statements, n).rls[key]);
    }
  }

  /** CREATE POLICY number n + 1 runs when its names resolve and its own name is new. */
  lemma RunsStep(s: State, key: string, statements: seq<Statement>, n: nat)
    requires key in s.rls && key in s.relations && n < |statements|
    requires statements[n].CreatePolicy? && statements[n].key == key
    requires statements[n].name !in After(s, key, statements, n).rls[key].policies
    ensures Runs(s, key, statements, n + 1) <==>
              && Runs(s, key, statements, n)
              && OptResolves(s, s.relations[key].columns, statements[n].policy.using)
              && OptResolves(s, s.relations[key].columns, statements[n].policy.check)
    ensures After(s, key, statements, n + 1).rls[key] ==
              After(s, key, statements, n).rls[key].(policies :=
                After(s, key, statements, n).rls[key].policies[statements[n].name := statements[n].policy])
  {
    AfterKeepsRelations(s, key, statements, n);
    var t := After(s, key, statements, n);
    var columns := s.relations[key].columns;
    OptResolvesSame(s, t, columns, statements[n].policy.using);
    OptResolvesSame(s, t, columns, statements[n].policy.check);
  }

  /** The first two statements switch row security on and force it. */
  lemma FlagsRun(s: State, key: string, list: seq<(string, Policy)>)
    requires key in s.relations && key in s.rls
    ensures var statements := Protect(key, list);
            Runs(s, key, statements, 2)
                && After(s, key, statements, 2).rls[key] == TableSecurity(true, true, s.rls[key].policies)
  {
    var statements := Protect(key, list);
    assert statements[0] == EnableRls(key) && statements[1] == ForceRls(key);
    assert Runs(s, key, statements, 0) && Runs(s, key, statements, 1);
    assert After(s, key, statements, 1).rls[key] == s.rls[key].(enabled := true);
  }

  function MapOf(list: seq<(string, Policy)>): map<string, Policy> {
    if list == [] then map[]
    else MapOf(list[..|list| - 1])[list[|list| - 1].0 := list[|list| - 1].1]
  }

  predicate AllResolve(s: State, columns: Columns, list: seq<(string, Policy)>) {
    forall i | 0 <= i < |list| :: OptResolves(s, columns, list[i].1.using) && OptResolves(s, columns, list[i].1.check)
  }

  lemma {:induction false} MapOfKeys(list: seq<(string, Policy)>, name: string)
    ensures name in MapOf(list) <==> exists i | 0 <= i < |list| :: list[i].0 == name
  {
    if list != [] {
      MapOfKeys(list[..|list| - 1], name);
    }
  }

  predicate NewNames(ts: TableSecurity, list: seq<(string, Policy)>) {
    && (forall i | 0 <= i < |list| :: list[i].0 !in ts.policies)
    && (forall i, j | 0 <= i < j < |list| :: list[i].0 != list[j].0)
  }

  /** After n policies: the table plus those policies, provided their names resolve. */
  lemma {:induction false} PoliciesRun(s: State, key: string, list: seq<(string, Policy)>, n: nat)
    requires key in s.relations && key in s.rls && NewNames(s.rls[key], list) && n <= |list|
    ensures var statements := Protect(key, list);
            && (Runs(s, key, statements, n + 2) <==> AllResolve(s, s.relations[key].columns, list[..n]))
            && After(s, key, statements, n + 2).rls[key] ==
                TableSecurity(true, true, s.rls[key].policies + MapOf(list[..n]))
  {
    var statements := Protect(key, list);
    if n == 0 {
      FlagsRun(s, key, list);
    } else {
      PoliciesRun(s, key, list, n - 1);
      MapOfKeys(list[..n - 1], list[n - 1].0);
      RunsStep(s, key, statements, n + 1);
      OneMorePolicy(s, key, list, n);
    }
  }

  lemma OneMorePolicy(s: State, key: string, list: seq<(string, Policy)>, n: nat)
    requires key in s.relations && key in s.rls && 0 < n <= |list|
    ensures s.rls[key].policies + MapOf(list[..n]) ==
              (s.rls[key].policies + MapOf(list[..n - 1]))[list[n - 1].0 := list[n - 1].1]
    ensures AllResolve(s, s.relations[key].columns, list[..n]) <==>
              && AllResolve(s, s.relations[key].columns, list[..n - 1])
              && OptResolves(s, s.relations[key].columns, list[n - 1].1.using)
              && OptResolves(s, s.relations[key].columns, list[n - 1].1.check)
  {
    var before, upto := list[..n - 1], list[..n];
    assert upto[..n - 1] == before && upto[n - 1] == list[n - 1];
    assert forall i | 0 <= i < n - 1 :: before[i] == upto[i];
  }

  lemma MapOfPolicyList(rw: ReadWrite)
    ensures MapOf(PolicyList(rw)) == PolicyMap(rw)
  {
    var list := PolicyList(rw);
    if |list| == 4 {
      assert list[..3] == [list[0], list[1], list[2]] && list[..3][..2] == [list[0], list[1]]
          && [list[0], list[1]][..1] == [list[0]];
      assert MapOf([list[0]]) == map[list[0].0 := list[0].1];
      assert MapOf([list[0], list[1]]) == map[list[0].0 := list[0].1, list[1].0 := list[1].1];
    } else {
      assert list[..0] == [];
    }
  }

  lemma NoShieldName(ts: TableSecurity, name: string)
    requires ShieldNames(ts) == {} && SHIELD <= name
    ensures name !in ts.policies
  {
    assert name in ts.policies ==> name in ShieldNames(ts);
  }

  /** The compiled names are distinct and all start with shield_. */
  lemma PolicyListIsNew(ts: TableSecurity, rw: ReadWrite)
    requires ShieldNames(ts) == {}
    ensures NewNames(ts, PolicyList(rw))
  {
    assert "shield_tenant_insert"[14] == 'i' && "shield_tenant_update"[14] == 'u' && "shield_tenant_delete"[14] == 'd';
    assert |"shield_tenant_read"| == 18;
    forall i | 0 <= i < |PolicyList(rw)|
      ensures PolicyList(rw)[i].0 !in ts.policies
    {
      assert SHIELD <= PolicyList(rw)[i].0;
      NoShieldName(ts, PolicyList(rw)[i].0);
    }
  }

  lemma AllResolveIsRwResolves(s: State, columns: Columns, rw: ReadWrite)
    ensures AllResolve(s, columns, PolicyList(rw)) <==> RwResolves(s, columns, rw)
  {
    var list := PolicyList(rw);
    assert AllResolve(s, columns, list) ==> OptResolves(s, columns, list[0].1.using);
    if |list| == 4 {
      assert AllResolve(s, columns, list) ==> OptResolves(s, columns, list[1].1.check);
    }
  }

  /** On a stripped table the statement list runs exactly when every name in it resolves. */
  lemma StatementsBuildTarget(s: State, key: string, rw: ReadWrite)
    requires key in s.relations && key in s.rls && ShieldNames(s.rls[key]) == {}
    ensures var statements := Protect(key, PolicyList(rw));
            && (Runs(s, key, statements, |statements|) <==> RwResolves(s, s.relations[key].columns, rw))
            && After(s, key, statements, |statements|) ==
                 WithRls(s, key, TableSecurity(true, true, s.rls[key].policies + PolicyMap(rw)))
  {
    var list := PolicyList(rw);
    PolicyListIsNew(s.rls[key], rw);
    PoliciesRun(s, key, list, |list|);
    assert list[..|list|] == list;
    MapOfPolicyList(rw);
    AllResolveIsRwResolves(s, s.relations[key].columns, rw);
    AfterKeepsRelations(s, key, Protect(key, list), |list| + 2);
  }

  /** What expressions are checked against. */
  ghost predicate SameNames(s: State, t: State) {
    s.relations == t.relations && s.types == t.types
  }

  lemma OptResolvesSame(s: State, t: State, columns: Columns, e: Option<Expr>)
    requires SameNames(s, t)
    ensures OptResolves(s, columns, e) <==> OptResolves(t, columns, e)
  {
    if e.Some? {
      ResolvesSame(s, t, columns, e.value);
    }
  }

  lemma ResolvesSame(s: State, t: State, columns: Columns, e: Expr)
    requires SameNames(s, t)
    ensures Resolves(s, columns, e) <==> Resolves(t, columns, e)
  {
  }

  lemma RwResolvesSame(s: State, t: State, columns: Columns, rw: ReadWrite)
    requires SameNames(s, t)
    ensures RwResolves(s, columns, rw) <==> RwResolves(t, columns, rw)
  {
    ResolvesSame(s, t, columns, rw.read);
    OptResolvesSame(s, t, columns, rw.write);
  }

  // ---- All tables

  /** The row security once the tables in `done` have been rebuilt. */
  function Rebuilt(s: State, tables: map<string, Columns>, classified: map<string, Entry>, done: set<string>): RlsMap
    requires done <= classified.Keys && done <= tables.Keys
  {
    map key | key in s.rls ::
      if key in done then TableTarget(classified[key].kind, Compiled(tables, classified, key), s.rls[key])
      else s.rls[key]
  }

  lemma RebuiltNone(s: State, tables: map<string, Columns>, classified: map<string, Entry>)
    ensures Rebuilt(s, tables, classified, {}) == s.rls
    ensures CountsOver(classified, {}) == map[]
  {
  }

  lemma RebuiltStep(s: State, tables: map<string, Columns>, classified: map<string, Entry>, done: set<string>,
                    key: string)
    requires done <= classified.Keys && done <= tables.Keys && key in classified && key in tables && key in s.rls
              && key !in done
    ensures var now := Rebuilt(s, tables, classified, done);
            && now[key] == s.rls[key]
            && Rebuilt(s, tables, classified, done + {key}) ==
                 now[key := TableTarget(classified[key].kind, Compiled(tables, classified, key), s.rls[key])]
  {
  }

  function RlsDone(s: State, tables: map<string, Columns>, classified: map<string, Entry>, done: set<string>): State
    requires done <= classified.Keys && done <= tables.Keys
  {
    s.(rls := Rebuilt(s, tables, classified, done))
  }

  function Counted(counts: map<Kind, nat>, kind: Kind): map<Kind, nat> {
    counts[kind := (if kind in counts then counts[kind] else 0) + 1]
  }

  /** The tables in `done` have been accepted, rebuilt and counted. */
  ghost predicate Rebuilding(s: State, now: State, counts: map<Kind, nat>, tables: map<string, Columns>,
                             classified: map<string, Entry>,
                             done: set<string>)
  {
    && done <= classified.Keys <= tables.Keys
    && TablesAccept(s, tables, classified, done)
    && now == RlsDone(s, tables, classified, done)
    && counts == CountsOver(classified, done)
  }

  lemma RebuildingStep(s: State, now: State, counts: map<Kind, nat>, tables: map<string, Columns>,
                       classified: map<string, Entry>,
                       done: set<string>, key: string)
    requires Rebuilding(s, now, counts, tables, classified, done) && key in classified && key in s.rls && key !in done
    ensures var kind, compiled := classified[key].kind, Compiled(tables, classified, key);
            && key in now.rls
            && (TableAccepts(now, key, kind, compiled) ==>
                  Rebuilding(s, WithRls(now, key, TableTarget(kind, compiled, now.rls[key])), Counted(counts, kind),
                             tables, classified, done + {key}))
            && (!TableAccepts(now, key, kind, compiled) ==> !AllTablesAccept(s, tables, classified))
  {
    RlsDoneStep(s, tables, classified, done, key);
    CountsStep(classified, done, key);
    TableAcceptsFrame(s, now, key, classified[key].kind, Compiled(tables, classified, key));
  }

  lemma RlsDoneStep(s: State, tables: map<string, Columns>, classified: map<string, Entry>, done: set<string>,
                    key: string)
    requires done <= classified.Keys <= tables.Keys && key in classified && key in s.rls && key !in done
    ensures var now := RlsDone(s, tables, classified, done);
            && key in now.rls
            && RlsDone(s, tables, classified, done + {key}) ==
                 WithRls(now, key, TableTarget(classified[key].kind, Compiled(tables, classified, key), now.rls[key]))
            && (TablesAccept(s, tables, classified, done + {key}) <==>
                  && TablesAccept(s, tables, classified, done)
                  && TableAccepts(now, key, classified[key].kind, Compiled(tables, classified, key)))
  {
    RebuiltStep(s, tables, classified, done, key);
    TableAcceptsFrame(s, RlsDone(s, tables, classified, done), key, classified[key].kind,
        Compiled(tables, classified, key));
  }

  lemma TableAcceptsFrame(s: State, t: State, key: string, kind: Kind, compiled: Result<ReadWrite, Error>)
    requires SameNames(s, t) && key in s.rls && key in t.rls && s.rls[key] == t.rls[key]
    ensures TableAccepts(s, key, kind, compiled) <==> TableAccepts(t, key, kind, compiled)
  {
    if compiled.Ok? && key in s.relations {
      RwResolvesSame(s, t, s.relations[key].columns, compiled.value);
    }
  }

  function KindKeys(classified: map<string, Entry>, done: set<string>, kind: Kind): set<string>
    requires done <= classified.Keys
  {
    set key | key in done && classified[key].kind == kind
  }

  function CountsOver(classified: map<string, Entry>, done: set<string>): map<Kind, nat>
    requires done <= classified.Keys
  {
    map kind | kind in (set key | key in done :: classified[key].kind) :: |KindKeys(classified, done, kind)|
  }

  lemma CountsStep(classified: map<string, Entry>, done: set<string>, key: string)
    requires done <= classified.Keys && key in classified && key !in done
    ensures var counts, kind := CountsOver(classified, done), classified[key].kind;
            CountsOver(classified, done + {key}) == counts[kind := (if kind in counts then counts[kind] else 0) + 1]
  {
    var kind := classified[key].kind;
    assert KindKeys(classified, done + {key}, kind) == KindKeys(classified, done, kind) + {key};
    forall other | other != kind
      ensures KindKeys(classified, done + {key}, other) == KindKeys(classified, done, other)
    {
    }
    if kind !in CountsOver(classified, done) {
      assert KindKeys(classified, done, kind) == {};
    }
  }

  lemma CountsAll(classified: map<string, Entry>)
    ensures CountsOver(classified, classified.Keys) == KindCounts(classified)
  {
    forall kind
      ensures KindKeys(classified, classified.Keys, kind) == KeysOfKind(classified, kind)
    {
    }
  }

  // ---- Members

  function Pairs(role: string, logins: set<string>): Memberships {
    set login | login in logins :: (role, login)
  }

  lemma PairsStep(ms: Memberships, role: string, logins: set<string>, done: set<string>, login: string)
    requires done <= logins && login in logins
    ensures ms + Pairs(role, done + {login}) == ms + Pairs(role, done) + {(role, login)}
    ensures Loopless(ms + Pairs(role, logins)) ==> Loopless(ms + Pairs(role, done + {login}))
  {
    assert ms + Pairs(role, done + {login}) == ms + Pairs(role, done) + {(role, login)};
    if Loopless(ms + Pairs(role, logins)) {
      LooplessShrinks(ms + Pairs(role, done + {login}), ms + Pairs(role, logins));
    }
  }

  lemma LoginsStep(ms: Memberships, members: Members, done: set<string>, role: string)
    requires done <= members.Keys && role in members
    ensures ms + Logins(members, done + {role}) == ms + Logins(members, done) + Pairs(role, members[role])
    ensures Loopless(ms + Logins(members, members.Keys)) ==> Loopless(ms + Logins(members, done + {role}))
  {
    assert ms + Logins(members, done + {role}) == ms + Logins(members, done) + Pairs(role, members[role]);
    if Loopless(ms + Logins(members, members.Keys)) {
      LooplessShrinks(ms + Logins(members, done + {role}), ms + Logins(members, members.Keys));
    }
  }

  // ---- The phases of the transaction, as functions of the state they start from

  ghost predicate Preparable(p: AccessPolicy, user: string, s: State) {
    && (forall role | role in p.roles.Keys + {PLATFORM_SCOPE_ROLE} :: Creatable(s.roles, role))
    && BindingsReadable(s, p.bindingStates)
    && Loopless(s.memberships + {(PLATFORM_SCOPE_ROLE, user)})
  }

  function Prepared(p: AccessPolicy, user: string, s: State): State {
    s.(roles := s.roles + (p.roles.Keys + {PLATFORM_SCOPE_ROLE}),
       schemas := s.schemas + {"shield_rls"},
       grants := RevokePublic(s.grants),
       bindingStates := Some(p.bindingStates),
       memberships := s.memberships + {(PLATFORM_SCOPE_ROLE, user)})
  }

  ghost predicate Grantable(p: AccessPolicy, s: State) {
    && (forall schema | schema in p.Schemas() :: IsIdentifier(schema) && schema in s.schemas)
    && ServiceRolesAccepted(p, s, p.roles.Keys)
  }

  function Granted(p: AccessPolicy, s: State): State {
    s.(memberships := s.memberships + PlatformMembers(p.roles.Keys),
       grants := (set g | g in s.grants && !Revoked(p, s, g)) + AllDenoted(p, s))
  }

  lemma DenotedToFrame(p: AccessPolicy, s: State, t: State)
    requires s.relations == t.relations && s.sequences == t.sequences
    ensures AllDenoted(p, s) == AllDenoted(p, t)
  {
    forall role | role in p.roles
      ensures Denoted(p, s, role) == Denoted(p, t, role)
    {
      DenotedFrame(p, s, t, role);
    }
  }

  lemma GrantsFrame(p: AccessPolicy, s: State, t: State)
    requires t == s.(grants := t.grants)
    ensures Managed(p, s) == Managed(p, t)
    ensures (forall role | role in p.roles :: RoleAccepts(p, s, role) <==> RoleAccepts(p, t, role))
    ensures AllDenoted(p, s) == AllDenoted(p, t)
  {
    DenotedToFrame(p, s, t);
  }

  lemma AllTablesFrame(s: State, t: State, tables: map<string, Columns>, classified: map<string, Entry>)
    requires SameNames(s, t) && s.rls == t.rls && classified.Keys <= tables.Keys
    ensures AllTablesAccept(s, tables, classified) <==> AllTablesAccept(t, tables, classified)
  {
    forall key | key in classified
      ensures TableAccepts(s, key, classified[key].kind, Compiled(tables, classified, key))
         <==> TableAccepts(t, key, classified[key].kind, Compiled(tables, classified, key))
    {
      if key in s.rls {
        TableAcceptsFrame(s, t, key, classified[key].kind, Compiled(tables, classified, key));
      }
    }
  }

  /** The script's checks, phase by phase. */
  lemma AcceptsParts(p: AccessPolicy, members: Members, user: string, s: State)
    ensures var t, tables := Prepared(p, user, s), Managed(p, s);
            && Managed(p, t) == tables
            && (Accepts(p, members, user, s) <==>
                  && Preparable(p, user, s)
                  && Stale(p, tables) == {} && Unclassified(p, tables) == {}
                  && Grantable(p, t)
                  && AllTablesAccept(s, tables, Classified(p, tables))
                  && MembersAccepted(p, members, t.roles)
                  && Loopless(Granted(p, t).memberships + Logins(members, members.Keys)))
  {
    PreparedFrame(p, user, s, Prepared(p, user, s));
    PhaseChecks(p, members, user, s, Prepared(p, user, s));
  }

  /** The checks on names, roles and memberships, in the state the script starts from. */
  lemma PhaseChecks(p: AccessPolicy, members: Members, user: string, s: State, t: State)
    requires t == Prepared(p, user, s)
    ensures && Preparable(p, user, s) && Grantable(p, t) && MembersAccepted(p, members, t.roles)
            && Loopless(Granted(p, t).memberships + Logins(members, members.Keys))
       <==> && (forall role | role in p.roles.Keys + {PLATFORM_SCOPE_ROLE} :: Creatable(s.roles, role))
            && BindingsReadable(s, p.bindingStates)
            && (forall schema | schema in p.Schemas() :: IsIdentifier(schema) && schema in s.schemas)
            && (forall role | role in p.roles :: RoleAccepts(p, s, role))
            && MembersAccepted(p, members, s.roles + p.roles.Keys + {PLATFORM_SCOPE_ROLE})
            && Loopless(s.memberships + Granting(p, members, user))
  {
    PreparedFrame(p, user, s, t);
    GrantingParts(p, members, user, s);
  }

  /** Preparing leaves the catalogue alone. */
  lemma PreparedFrame(p: AccessPolicy, user: string, s: State, t: State)
    requires t == Prepared(p, user, s)
    ensures Managed(p, t) == Managed(p, s)
    ensures IsIdentifier(PLATFORM_SCOPE_ROLE) && t.roles == s.roles + p.roles.Keys + {PLATFORM_SCOPE_ROLE}
    ensures forall schema | schema in p.Schemas() :: schema in t.schemas <==> schema in s.schemas
    ensures forall role | role in p.roles :: RoleAccepts(p, s, role) <==> RoleAccepts(p, t, role)
  {
    assert forall c | c in PLATFORM_SCOPE_ROLE :: IsIdentChar(c);
  }

  /** All memberships together close no circle exactly when none of the three portions does. */
  lemma GrantingParts(p: AccessPolicy, members: Members, user: string, s: State)
    ensures var t := Prepared(p, user, s);
            Loopless(s.memberships + Granting(p, members, user)) <==>
              && Loopless(t.memberships) && Loopless(t.memberships + PlatformMembers(p.roles.Keys))
              && Loopless(Granted(p, t).memberships + Logins(members, members.Keys))
  {
    var t := Prepared(p, user, s);
    var all := s.memberships + Granting(p, members, user);
    assert Granted(p, t).memberships + Logins(members, members.Keys) == all;
    if Loopless(all) {
      LooplessShrinks(t.memberships, all);
      LooplessShrinks(t.memberships + PlatformMembers(p.roles.Keys), all);
    }
  }

  lemma RevokedFrame(p: AccessPolicy, s: State, t: State, grants: set<Grant>)
    requires s.relations == t.relations && s.sequences == t.sequences
    ensures (set g | g in grants && !Revoked(p, s, g)) == (set g | g in grants && !Revoked(p, t, g))
  {
  }

  lemma RebuiltIsTarget(p: AccessPolicy, s: State, t: State)
    requires s.rls == t.rls
    ensures var tables := Managed(p, s);
            Rebuilt(t, tables, Classified(p, tables), Classified(p, tables).Keys) == RlsTarget(p, s)
  {
  }

  lemma TargetParts(p: AccessPolicy, members: Members, user: string, s: State)
    ensures var tables := Managed(p, s);
            var granted := Granted(p, Prepared(p, user, s));
            var classified := Classified(p, tables);
            Target(p, members, user, s) == granted.(
              rls := Rebuilt(granted, tables, classified, classified.Keys),
              memberships := granted.memberships + Logins(members, members.Keys),
              audit := s.audit + [(p.sha, SummaryOf(p, s))])
  {
    var t := Prepared(p, user, s);
    DenotedToFrame(p, s, t);
    RevokedFrame(p, s, t, RevokePublic(s.grants));
    RebuiltIsTarget(p, s, Granted(p, t));
    assert Granted(p, t).memberships + Logins(members, members.Keys) == s.memberships + Granting(p, members, user);
    assert t.roles == s.roles + p.roles.Keys + {PLATFORM_SCOPE_ROLE};
  }
}
