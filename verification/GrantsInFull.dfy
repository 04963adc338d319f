/**
 * Who holds what after a committed run, read off the policy file: every privilege on a managed table, sequence or
 * schema, the session functions, and the memberships.
 */
module GrantsInFull {
  import opened Common
  import opened RoleGraph
  import opened SqlModel
  import opened PolicyCompiler
  import opened RowSecurity
  import opened AccessState
  import opened CompilerConditions
  import G = AccessGuarantees

  /** The schemas the script manages. */
  predicate IsManaged(p: AccessPolicy, schema: string) {
    schema in p.declared && schema != "public" && schema != "shield_rls"
  }

  /** The role has the whole schema for reading and writing. */
  predicate HasSchema(p: AccessPolicy, role: string, schema: string)
    requires role in p.roles
  {
    if p.roles[role].allSchemas then IsManaged(p, schema) else schema in p.roles[role].ownSchemas
  }

  /** A single table of the policy file lies in the schema. */
  ghost predicate HasTableIn(p: AccessPolicy, role: string, schema: string)
    requires role in p.roles
  {
    !p.roles[role].allSchemas &&
    exists key, table :: key in p.roles[role].tables && IsPair(key, schema, table)
  }

  lemma ManagedIff(p: AccessPolicy, schema: string)
    ensures schema in p.Schemas() <==> IsManaged(p, schema)
  {
  }

  lemma SchemasOfRole(p: AccessPolicy, s: State, role: string, to: Grantee, g: Grant)
    requires role in p.roles && to == Role(role)
    ensures var spec := p.roles[role];
            g in SchemasDml(s, if spec.allSchemas then p.Schemas() else spec.ownSchemas, to) <==>
              exists schema :: HasSchema(p, role, schema) && g in SchemaDml(s, schema, to)
  {
    forall schema ensures schema in p.Schemas() <==> IsManaged(p, schema) {
      ManagedIff(p, schema);
    }
  }

  lemma DenotedIff(p: AccessPolicy, s: State, role: string, g: Grant)
    requires role in p.roles
    ensures g in Denoted(p, s, role) <==>
              || g == SchemaGrant("shield_rls", false, Role(role)) || g == FunctionGrant(Role(role))
              || (exists schema :: HasSchema(p, role, schema) && g in SchemaDml(s, schema, Role(role)))
              || (!p.roles[role].allSchemas
                  && g in EntryGrants(p.roles[role].tables, p.roles[role].tables.Keys, Role(role)))
  {
    SchemasOfRole(p, s, role, Role(role), g);
  }

  lemma TableInSchema(s: State, schema: string, to: Grantee, key: string, privilege: TablePrivilege)
    ensures TableGrant(key, privilege, to) in SchemaDml(s, schema, to) <==>
              && key in s.relations && s.relations[key].schema == schema
              && privilege in {SelectRows, InsertRows, UpdateRows, DeleteRows}
  {
  }

  lemma TableInEntries(entries: map<string, Mode>, to: Grantee, key: string, privilege: TablePrivilege)
    ensures TableGrant(key, privilege, to) in EntryGrants(entries, entries.Keys, to) <==>
              && key in entries
              && (privilege == SelectRows
                  || (entries[key] == ReadWriteMode && privilege in {InsertRows, UpdateRows, DeleteRows}))
  {
  }

  /** A service role, after a committed run, and something in a schema that the script manages. */
  ghost predicate Committed(p: AccessPolicy, members: Members, user: string, s: State, role: string, schema: string) {
    Accepts(p, members, user, s) && G.NamedBySchema(s) && role in p.roles && IsManaged(p, schema)
  }

  /**
   * A table privilege is held exactly when the role has the schema of the table and the privilege is one of the four
   * for rows, or when the policy file names the table: for SELECT, and in read-write mode for the other three.
   */
  lemma TablePrivilegeIff(p: AccessPolicy, members: Members, user: string, s: State, role: string, key: string,
                          privilege: TablePrivilege)
    requires key in s.relations && Committed(p, members, user, s, role, s.relations[key].schema)
    ensures var spec := p.roles[role];
            TableGrant(key, privilege, Role(role)) in Target(p, members, user, s).grants <==>
              || (HasSchema(p, role, s.relations[key].schema)
                  && privilege in {SelectRows, InsertRows, UpdateRows, DeleteRows})
              || (!spec.allSchemas && key in spec.tables
                  && (privilege == SelectRows
                      || (spec.tables[key] == ReadWriteMode && privilege in {InsertRows, UpdateRows, DeleteRows})))
  {
    var g, to := TableGrant(key, privilege, Role(role)), Role(role);
    ManagedIff(p, s.relations[key].schema);
    G.GrantsAreExact(p, members, user, s, g);
    DenotedIff(p, s, role, g);
    forall schema
      ensures g in SchemaDml(s, schema, to) <==>
                s.relations[key].schema == schema && privilege in {SelectRows, InsertRows, UpdateRows, DeleteRows}
    {
      TableInSchema(s, schema, to, key, privilege);
    }
    TableInEntries(p.roles[role].tables, to, key, privilege);
  }

  lemma SequenceInSchema(s: State, schema: string, to: Grantee, q: string, privilege: SequencePrivilege)
    ensures SequenceGrant(q, privilege, to) in SchemaDml(s, schema, to) <==>
              q in s.sequences && s.sequences[q] == schema && (privilege == SeqUsage || privilege == SeqSelect)
  {
  }

  /** A sequence may be used and read, not set, exactly with its whole schema. */
  lemma SequencePrivilegeIff(p: AccessPolicy, members: Members, user: string, s: State, role: string, q: string,
                             privilege: SequencePrivilege)
    requires q in s.sequences && Committed(p, members, user, s, role, s.sequences[q])
    ensures SequenceGrant(q, privilege, Role(role)) in Target(p, members, user, s).grants <==>
              HasSchema(p, role, s.sequences[q]) && (privilege == SeqUsage || privilege == SeqSelect)
  {
    var g, to := SequenceGrant(q, privilege, Role(role)), Role(role);
    ManagedIff(p, s.sequences[q]);
    G.GrantsAreExact(p, members, user, s, g);
    DenotedIff(p, s, role, g);
    forall schema
      ensures g in SchemaDml(s, schema, to) <==>
                s.sequences[q] == schema && (privilege == SeqUsage || privilege == SeqSelect)
    {
      SequenceInSchema(s, schema, to, q, privilege);
    }
    NoSequenceEntry(p.roles[role].tables, to, q, privilege);
  }

  lemma NoSequenceEntry(entries: map<string, Mode>, to: Grantee, q: string, privilege: SequencePrivilege)
    ensures SequenceGrant(q, privilege, to) !in EntryGrants(entries, entries.Keys, to)
  {
  }

  lemma SchemaInSchema(s: State, schema: string, to: Grantee, named: string, create: bool)
    ensures SchemaGrant(named, create, to) in SchemaDml(s, schema, to) <==> named == schema && !create
  {
  }

  lemma SchemaInEntries(entries: map<string, Mode>, to: Grantee, named: string, create: bool)
    requires forall key | key in entries :: NamesBoth(key)
    ensures SchemaGrant(named, create, to) in EntryGrants(entries, entries.Keys, to) <==>
              !create && exists key, table :: key in entries && IsPair(key, named, table)
  {
    forall key | key in entries ensures SchemaOf(key) == named <==> exists table :: IsPair(key, named, table) {
      var schema, table :| IsPair(key, schema, table);
      PairIff(key, schema, table);
      forall other | IsPair(key, named, other) ensures named == schema {
        PairIff(key, named, other);
      }
    }
  }

  /** A schema may be used exactly when the role has it or a single table in it, and nobody may create in it. */
  lemma SchemaPrivilegeIff(p: AccessPolicy, members: Members, user: string, s: State, role: string, schema: string,
                           create: bool)
    requires Committed(p, members, user, s, role, schema)
    ensures SchemaGrant(schema, create, Role(role)) in Target(p, members, user, s).grants <==>
              !create && (HasSchema(p, role, schema) || HasTableIn(p, role, schema))
  {
    var g, to, spec := SchemaGrant(schema, create, Role(role)), Role(role), p.roles[role];
    ManagedIff(p, schema);
    G.GrantsAreExact(p, members, user, s, g);
    DenotedIff(p, s, role, g);
    forall other ensures g in SchemaDml(s, other, to) <==> schema == other && !create {
      SchemaInSchema(s, other, to, schema, create);
    }
    if !spec.allSchemas {
      EntriesAreNamed(p, members, user, s, role);
      SchemaInEntries(spec.tables, to, schema, create);
    }
  }

  lemma EntriesAreNamed(p: AccessPolicy, members: Members, user: string, s: State, role: string)
    requires Accepts(p, members, user, s) && role in p.roles && !p.roles[role].allSchemas
    ensures forall key | key in p.roles[role].tables :: NamesBoth(key)
  {
    forall key | key in p.roles[role].tables ensures NamesBoth(key) {
      assert RoleAccepts(p, s, role);
      SplitKeyIff(key);
    }
  }

  /** PUBLIC may use no managed schema, and not the one of the session functions. */
  lemma PublicHasNoSchema(p: AccessPolicy, members: Members, user: string, s: State, schema: string, create: bool)
    requires Accepts(p, members, user, s) && (IsManaged(p, schema) || schema == "shield_rls")
    ensures SchemaGrant(schema, create, Public) !in Target(p, members, user, s).grants
  {
    var g := SchemaGrant(schema, create, Public);
    ManagedIff(p, schema);
    G.AfterRun(p, members, user, s, g);
    if g in AllDenoted(p, s) {
      var role :| role in p.roles && g in Denoted(p, s, role);
      G.DenotedGoesToRole(p, s, role, g);
    }
  }

  /** Roles outside the policy file keep what they have, and PUBLIC what it has of tables, sequences and functions. */
  lemma OthersKeepTheirs(p: AccessPolicy, members: Members, user: string, s: State, g: Grant)
    requires Accepts(p, members, user, s)
    requires if g.to.Role? then g.to.name !in p.roles else !g.SchemaGrant?
    ensures g in Target(p, members, user, s).grants <==> g in s.grants
  {
    G.AfterRun(p, members, user, s, g);
    if g in AllDenoted(p, s) {
      var role :| role in p.roles && g in Denoted(p, s, role);
      G.DenotedGoesToRole(p, s, role, g);
    }
  }

  /** A service role keeps what it has of a table outside the managed schemas. */
  lemma UnmanagedTablesStay(p: AccessPolicy, members: Members, user: string, s: State, role: string, key: string,
                            privilege: TablePrivilege)
    requires Accepts(p, members, user, s) && G.NamedBySchema(s) && role in p.roles
    requires key in s.relations && !IsManaged(p, s.relations[key].schema)
    ensures TableGrant(key, privilege, Role(role)) in Target(p, members, user, s).grants <==>
              TableGrant(key, privilege, Role(role)) in s.grants
  {
    ManagedIff(p, s.relations[key].schema);
    G.OtherGrantsAreKept(p, members, user, s, TableGrant(key, privilege, Role(role)));
  }

  /** Every service role may use the session functions and their schema. */
  lemma FunctionsAreUsable(p: AccessPolicy, members: Members, user: string, s: State, role: string)
    requires Accepts(p, members, user, s) && role in p.roles
    ensures FunctionGrant(Role(role)) in Target(p, members, user, s).grants
    ensures SchemaGrant("shield_rls", false, Role(role)) in Target(p, members, user, s).grants
  {
    assert FunctionGrant(Role(role)) in Denoted(p, s, role);
    assert SchemaGrant("shield_rls", false, Role(role)) in Denoted(p, s, role);
    G.AfterRun(p, members, user, s, FunctionGrant(Role(role)));
    G.AfterRun(p, members, user, s, SchemaGrant("shield_rls", false, Role(role)));
  }

  /**
   * The memberships afterwards are those before, the platform role's for the user who runs the script and for every
   * service role, and the service roles' for their logins; the roles are those before and all that are named.
   */
  lemma MembershipsAfter(p: AccessPolicy, members: Members, user: string, s: State, role: string, member: string)
    requires Accepts(p, members, user, s)
    ensures (role, member) in Target(p, members, user, s).memberships <==>
              || (role, member) in s.memberships
              || (role == "shield_platform_scope" && (member == user || member in p.roles))
              || (role in members && member in members[role])
    ensures role in Target(p, members, user, s).roles <==>
              role in s.roles || role in p.roles || role == "shield_platform_scope"
  {
    assert (role, member) in PlatformMembers(p.roles.Keys) <==> role == PLATFORM_SCOPE_ROLE && member in p.roles.Keys;
    assert (role, member) in Logins(members, members.Keys) <==> role in members && member in members[role];
  }
}
