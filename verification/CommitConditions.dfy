/**
 * When the script commits and what every table looks like then, in terms of the policy file and the catalogue: the
 * exact condition, spelled out for each isolation kind down to the names and types it asks for.
 */
module CommitConditions {
  import opened Common
  import opened RoleGraph
  import opened SqlModel
  import opened PolicyCompiler
  import opened RowSecurity
  import opened Visibility
  import opened AccessState
  import opened CompilerConditions
  import opened GrantsInFull
  import G = AccessGuarantees

  // ---- Tables and their entries

  /** An ordinary or partitioned table of a managed schema that has columns. */
  predicate IsManagedTable(p: AccessPolicy, s: State, key: string) {
    key in s.relations && s.relations[key].listed && IsManaged(p, s.relations[key].schema)
    && s.relations[key].columns != map[]
  }

  predicate NeedsTenant(columns: Columns) {
    || ("tenant_id" in columns && columns["tenant_id"].notNull)
    || ("tenantId" in columns && columns["tenantId"].notNull)
  }

  /** The entry of the policy file, or the default. */
  function EntryOf(p: AccessPolicy, key: string): Entry {
    if key in p.tables then p.tables[key] else Entry(Tenant, "", "", "", [])
  }

  lemma ManagedTableIff(p: AccessPolicy, s: State, key: string)
    ensures key in Managed(p, s) <==> IsManagedTable(p, s, key)
    ensures key in Managed(p, s) ==> Managed(p, s)[key] == s.relations[key].columns
  {
  }

  lemma DecidedIff(p: AccessPolicy, s: State, key: string)
    requires key in Managed(p, s)
    ensures key in Classified(p, Managed(p, s)) <==> key in p.tables || NeedsTenant(s.relations[key].columns)
    ensures key in Classified(p, Managed(p, s)) ==> Classified(p, Managed(p, s))[key] == EntryOf(p, key)
    ensures key in Unclassified(p, Managed(p, s)) <==> !(key in p.tables || NeedsTenant(s.relations[key].columns))
  {
  }

  // ---- Types

  /** The tenant column, whichever of its two names it has, compares with the session's tenant. */
  predicate StampCompares(types: Types, columns: Columns)
    requires HasTenantColumn(columns)
  {
    var typ := columns[if "tenant_id" in columns then "tenant_id" else "tenantId"].typ;
    types.equal(typ, if typ == "uuid" then "uuid" else "text")
  }

  predicate AccountPasses(types: Types, entry: Entry, columns: Columns)
    requires HasAccountColumn(entry, columns)
  {
    types.asText(columns[if entry.column != "" then entry.column else "commercial_account_id"].typ)
  }

  /** The catalogue's table, or the one that the script has created before. */
  function ColumnsOf(s: State, key: string): Columns {
    if key in s.relations then s.relations[key].columns
    else if key == "shield_rls.access_policy_applications" then
      map["id" := Column("bigint", true), "applied_at" := Column("timestamp with time zone", true),
          "applied_by" := Column("text", true), "policy_sha256" := Column("text", true),
          "summary" := Column("jsonb", true)]
    else map[]
  }

  /** A column of one table compares with a column of the other. */
  predicate Joins(s: State, table: string, inner: string, columns: Columns, outer: string) {
    && inner in ColumnsOf(s, table) && outer in columns
    && s.types.equal(ColumnsOf(s, table)[inner].typ, columns[outer].typ)
  }

  /** What the kind of a table that compiles asks of types and of the tables it looks in. */
  ghost predicate TypesAgree(s: State, entry: Entry, columns: Columns)
    requires KindCompiles(entry, columns)
  {
    match entry.kind
    case Tenant => StampCompares(s.types, columns)
    case TenantOrShared => StampCompares(s.types, columns)
    case TenantOrAccount => StampCompares(s.types, columns) && AccountPasses(s.types, entry, columns)
    case TenantOrParent => StampCompares(s.types, columns) && Joins(s, entry.parent, "id", columns, entry.fk)
    case Account => AccountPasses(s.types, entry, columns)
    case AccountOrShared => AccountPasses(s.types, entry, columns)
    case Parent => Joins(s, entry.parent, "id", columns, entry.fk)
    case TenantPair => forall c | c in entry.columns :: s.types.equal(columns[c].typ, "text")
    case GroupAccount => Joins(s, "commercial.CommercialAccount", "group_account_id", columns, "id")
    case _ => false
  }

  lemma StampIff(s: State, columns: Columns)
    requires HasTenantColumn(columns)
    ensures StampColumn(columns).Some?
    ensures Resolves(s, columns, OwnTest(columns)) <==> StampCompares(s.types, columns)
    ensures Resolves(s, columns, IsNull(StampColumn(columns).value))
  {
  }

  lemma AccountIff(s: State, entry: Entry, columns: Columns)
    requires HasAccountColumn(entry, columns)
    ensures Resolves(s, columns, AccountVisibleCall(AccountColumn(entry))) <==> AccountPasses(s.types, entry, columns)
    ensures Resolves(s, columns, IsNull(AccountColumn(entry)))
  {
  }

  lemma JoinIff(s: State, columns: Columns, table: string, inner: string, outer: string)
    ensures Resolves(s, columns, ExistsRow(table, inner, outer)) <==> Joins(s, table, inner, columns, outer)
  {
  }

  lemma {:induction false} PairIsText(s: State, columns: Columns, names: seq<string>)
    requires names != [] && forall c | c in names :: c in columns
    ensures Resolves(s, columns, PairTest(names)) <==> forall c | c in names :: s.types.equal(columns[c].typ, "text")
  {
    var init, last := names[..|names| - 1], names[|names| - 1];
    assert names == init + [last];
    if |names| > 1 {
      PairIsText(s, columns, init);
    }
  }

  /** Any test next to platform scope. */
  lemma OrPlatform(s: State, columns: Columns, e: Expr)
    ensures Resolves(s, columns, Or(e, IsPlatformCall)) <==> Resolves(s, columns, e)
  {
  }

  /** A test, and a lookup that counts only for a NULL in some column. */
  lemma GuardedLookup(s: State, columns: Columns, own: Expr, c: string, look: Expr)
    requires c in columns
    ensures Resolves(s, columns, Or(own, And(IsNull(c), look))) <==>
              Resolves(s, columns, own) && Resolves(s, columns, look)
  {
    assert Resolves(s, columns, And(IsNull(c), look)) <==> Resolves(s, columns, look);
  }

  lemma StampedResolvesIff(s: State, entry: Entry, columns: Columns)
    requires KindCompiles(entry, columns)
    requires entry.kind in {Tenant, TenantOrShared, TenantOrAccount, TenantOrParent}
    ensures RwResolves(s, columns, Meant(entry, columns)) <==> TypesAgree(s, entry, columns)
  {
    var own, c := OwnTest(columns), StampColumn(columns).value;
    StampIff(s, columns);
    OrPlatform(s, columns, own);
    match entry.kind
    case Tenant =>
    case TenantOrShared => OrPlatform(s, columns, Or(own, IsNull(c)));
    case TenantOrAccount =>
      var account := AccountVisibleCall(AccountColumn(entry));
      AccountIff(s, entry, columns);
      GuardedLookup(s, columns, own, c, account);
      OrPlatform(s, columns, Or(own, And(IsNull(c), account)));
    case TenantOrParent =>
      var parent := ExistsRow(entry.parent, "id", entry.fk);
      JoinIff(s, columns, entry.parent, "id", entry.fk);
      GuardedLookup(s, columns, own, c, parent);
      OrPlatform(s, columns, Or(own, And(IsNull(c), parent)));
  }

  lemma OtherResolvesIff(s: State, entry: Entry, columns: Columns)
    requires KindCompiles(entry, columns)
    requires entry.kind !in {Tenant, TenantOrShared, TenantOrAccount, TenantOrParent}
    ensures RwResolves(s, columns, Meant(entry, columns)) <==> TypesAgree(s, entry, columns)
  {
    var account := AccountVisibleCall(AccountColumn(entry));
    match entry.kind
    case Account =>
      AccountIff(s, entry, columns);
      OrPlatform(s, columns, account);
    case AccountOrShared =>
      AccountIff(s, entry, columns);
      OrPlatform(s, columns, Or(IsNull(AccountColumn(entry)), account));
      OrPlatform(s, columns, account);
    case Parent =>
      JoinIff(s, columns, entry.parent, "id", entry.fk);
      OrPlatform(s, columns, ExistsRow(entry.parent, "id", entry.fk));
    case TenantPair =>
      PairIsText(s, columns, entry.columns);
      OrPlatform(s, columns, PairTest(entry.columns));
    case GroupAccount =>
      JoinIff(s, columns, ACCOUNT, "group_account_id", "id");
      OrPlatform(s, columns, ExistsRow(ACCOUNT, "group_account_id", "id"));
    case _ =>
  }

  lemma MeantResolvesIff(s: State, entry: Entry, columns: Columns)
    requires KindCompiles(entry, columns)
    ensures RwResolves(s, columns, Meant(entry, columns)) <==> TypesAgree(s, entry, columns)
  {
    if entry.kind in {Tenant, TenantOrShared, TenantOrAccount, TenantOrParent} {
      StampedResolvesIff(s, entry, columns);
    } else {
      OtherResolvesIff(s, entry, columns);
    }
  }

  // ---- One table

  predicate IsExemptKind(kind: Kind) {
    match kind case Global => true case ControlPlane => true case _ => false
  }

  /** The script gets through this table. */
  ghost predicate TableCommits(s: State, key: string, entry: Entry) {
    && key in s.relations && key in s.rls && NamesBoth(key)
    && (forall name | name in s.rls[key].policies && "shield_" <= name :: IsName(name))
    && (IsExemptKind(entry.kind)
        || (KindCompiles(entry, s.relations[key].columns) && TypesAgree(s, entry, s.relations[key].columns)))
  }

  lemma TableCommitsIff(s: State, key: string, entry: Entry)
    requires key in s.relations
    ensures TableAccepts(s, key, entry.kind, Expressions(key, entry, s.relations[key].columns)) <==>
              TableCommits(s, key, entry)
  {
    var columns := s.relations[key].columns;
    SplitKeyIff(key);
    CompilesIff(key, entry, columns);
    forall name ensures IsIdentifier(name) <==> IsName(name) {
      IdentifierIff(name);
    }
    if KindCompiles(entry, columns) && NamesBoth(key) {
      ExpressionsMean(key, entry, columns);
      MeantResolvesIff(s, entry, columns);
    }
  }

  // ---- The whole run

  /** A role that is there, or can be created under its name. */
  predicate RoleExistsOrCan(s: State, role: string) {
    IsName(role) && (role in s.roles || !(role == "public" || role == "none" || "pg_" <= role))
  }

  /** The function behind the account policies can be created. */
  predicate BindingTableFits(p: AccessPolicy, s: State) {
    var key := "commercial.CommercialAccountTenantBinding";
    && p.bindingStates != {} && key in s.relations
    && var columns := s.relations[key].columns;
    && "commercial_account_id" in columns && s.types.equal(columns["commercial_account_id"].typ, "text")
    && "tenant_id" in columns && s.types.equal(columns["tenant_id"].typ, "text")
    && "status" in columns && forall state | state in p.bindingStates :: s.types.literal(columns["status"].typ, state)
  }

  /** What the policy file gives a role, there is. */
  ghost predicate RoleFits(p: AccessPolicy, s: State, role: string)
    requires role in p.roles
  {
    var spec := p.roles[role];
    spec.allSchemas ||
      ((forall schema | schema in spec.ownSchemas :: IsManaged(p, schema))
       && forall key | key in spec.tables :: IsManagedTable(p, s, key) && NamesBoth(key))
  }

  /** The logins are to become members of service roles, and there are such logins by then. */
  ghost predicate LoginsFit(p: AccessPolicy, members: Members, s: State) {
    forall role | role in members ::
      role in p.roles && forall login | login in members[role] ::
        IsName(login) && (login in s.roles || login in p.roles || login == "shield_platform_scope")
  }

  ghost predicate TablesFit(p: AccessPolicy, s: State) {
    && (forall key | key in p.tables :: IsManagedTable(p, s, key))
    && forall key | IsManagedTable(p, s, key) ::
         (key in p.tables || NeedsTenant(s.relations[key].columns)) && TableCommits(s, key, EntryOf(p, key))
  }

  /** The script commits exactly when names, tables, types, roles and logins fit, and the memberships close no
    * circle. */
  lemma CommitsIff(p: AccessPolicy, members: Members, user: string, s: State)
    ensures Accepts(p, members, user, s) <==>
              && (forall role | role in p.roles :: RoleExistsOrCan(s, role) && RoleFits(p, s, role))
              && (forall schema | IsManaged(p, schema) :: IsName(schema) && schema in s.schemas)
              && BindingTableFits(p, s) && TablesFit(p, s) && LoginsFit(p, members, s)
              && Loopless(s.memberships + Granting(p, members, user))
  {
    RolesIff(p, s);
    SchemasIff(p, s);
    TablesIff(p, s);
    LoginsIff(p, members, s);
    BindingsIff(p, s);
  }

  lemma BindingsIff(p: AccessPolicy, s: State)
    ensures BindingsReadable(s, p.bindingStates) <==> BindingTableFits(p, s)
  {
  }

  lemma RolesIff(p: AccessPolicy, s: State)
    ensures (forall role | role in p.roles.Keys + {PLATFORM_SCOPE_ROLE} :: Creatable(s.roles, role)) <==>
              forall role | role in p.roles :: RoleExistsOrCan(s, role)
    ensures (forall role | role in p.roles :: RoleAccepts(p, s, role)) <==>
              forall role | role in p.roles :: RoleFits(p, s, role)
  {
    forall role ensures Creatable(s.roles, role) <==> RoleExistsOrCan(s, role) {
      IdentifierIff(role);
    }
    PlatformRoleCanBe(s);
    forall role | role in p.roles ensures RoleAccepts(p, s, role) <==> RoleFits(p, s, role) {
      RoleIff(p, s, role);
    }
  }

  lemma PlatformRoleCanBe(s: State)
    ensures RoleExistsOrCan(s, PLATFORM_SCOPE_ROLE)
  {
    var name := PLATFORM_SCOPE_ROLE;
    assert name[0] == 's';
    assert forall c | c in name :: IsLetter(c);
  }

  lemma RoleIff(p: AccessPolicy, s: State, role: string)
    requires role in p.roles
    ensures RoleAccepts(p, s, role) <==> RoleFits(p, s, role)
  {
    var spec := p.roles[role];
    forall schema ensures schema in p.Schemas() <==> IsManaged(p, schema) {
      ManagedIff(p, schema);
    }
    forall key
      ensures key in Managed(p, s) && Qualified(key).Ok? <==> IsManagedTable(p, s, key) && NamesBoth(key)
    {
      ManagedTableIff(p, s, key);
      SplitKeyIff(key);
    }
  }

  lemma SchemasIff(p: AccessPolicy, s: State)
    ensures (forall schema | schema in p.Schemas() :: IsIdentifier(schema) && schema in s.schemas) <==>
              forall schema | IsManaged(p, schema) :: IsName(schema) && schema in s.schemas
  {
    forall schema
      ensures schema in p.Schemas() <==> IsManaged(p, schema)
      ensures IsIdentifier(schema) <==> IsName(schema)
    {
      ManagedIff(p, schema);
      IdentifierIff(schema);
    }
  }

  lemma TablesIff(p: AccessPolicy, s: State)
    ensures var tables, classified := Managed(p, s), Classified(p, Managed(p, s));
            Stale(p, tables) == {} && Unclassified(p, tables) == {} && AllTablesAccept(s, tables, classified) <==>
              TablesFit(p, s)
  {
    NoneStaleIff(p, s);
    AllDecidedIff(p, s);
    if Unclassified(p, Managed(p, s)) == {} {
      AllCommitIff(p, s);
    }
  }

  lemma NoneStaleIff(p: AccessPolicy, s: State)
    ensures Stale(p, Managed(p, s)) == {} <==> forall key | key in p.tables :: IsManagedTable(p, s, key)
  {
    forall key ensures key in Stale(p, Managed(p, s)) <==> key in p.tables && !IsManagedTable(p, s, key) {
      ManagedTableIff(p, s, key);
    }
  }

  /** A decision for the table follows from the policy file or from its columns. */
  predicate IsDecided(p: AccessPolicy, s: State, key: string)
    requires key in s.relations
  {
    key in p.tables || NeedsTenant(s.relations[key].columns)
  }

  lemma AllDecidedIff(p: AccessPolicy, s: State)
    ensures Unclassified(p, Managed(p, s)) == {} <==>
              forall key | IsManagedTable(p, s, key) :: IsDecided(p, s, key)
  {
    forall key
      ensures key in Unclassified(p, Managed(p, s)) <==> IsManagedTable(p, s, key) && !IsDecided(p, s, key)
    {
      OneTableIff(p, s, key);
    }
  }

  lemma AllCommitIff(p: AccessPolicy, s: State)
    requires Unclassified(p, Managed(p, s)) == {}
    ensures AllTablesAccept(s, Managed(p, s), Classified(p, Managed(p, s))) <==>
              forall key | IsManagedTable(p, s, key) :: TableCommits(s, key, EntryOf(p, key))
  {
    var tables, classified := Managed(p, s), Classified(p, Managed(p, s));
    forall key ensures key in classified <==> IsManagedTable(p, s, key) {
      OneTableIff(p, s, key);
    }
    forall key | key in classified
      ensures TableAccepts(s, key, classified[key].kind, Compiled(tables, classified, key)) <==>
                TableCommits(s, key, EntryOf(p, key))
    {
      OneTableIff(p, s, key);
    }
  }

  lemma OneTableIff(p: AccessPolicy, s: State, key: string)
    ensures var tables, classified := Managed(p, s), Classified(p, Managed(p, s));
            && (key in Stale(p, tables) <==> key in p.tables && !IsManagedTable(p, s, key))
            && (key in Unclassified(p, tables) <==>
                  IsManagedTable(p, s, key) && key !in p.tables && !NeedsTenant(s.relations[key].columns))
            && (key in classified <==>
                  IsManagedTable(p, s, key) && (key in p.tables || NeedsTenant(s.relations[key].columns)))
            && (key in classified ==>
                  (TableAccepts(s, key, classified[key].kind, Compiled(tables, classified, key)) <==>
                     TableCommits(s, key, EntryOf(p, key))))
  {
    ManagedTableIff(p, s, key);
    if key in Managed(p, s) {
      DecidedIff(p, s, key);
      TableCommitsIff(s, key, EntryOf(p, key));
    }
  }

  lemma LoginsIff(p: AccessPolicy, members: Members, s: State)
    ensures MembersAccepted(p, members, s.roles + p.roles.Keys + {PLATFORM_SCOPE_ROLE}) <==> LoginsFit(p, members, s)
  {
    var roles := s.roles + p.roles.Keys + {PLATFORM_SCOPE_ROLE};
    forall role | role in members
      ensures LoginsAccepted(members[role], roles) <==>
                forall login | login in members[role] ::
                  IsName(login) && (login in s.roles || login in p.roles || login == "shield_platform_scope")
    {
      forall login ensures IsIdentifier(login) <==> IsName(login) {
        IdentifierIff(login);
      }
    }
  }

  // ---- What every table looks like then

  /**
   * After a committed run a managed table is open if its kind is exempt, and otherwise filtered, its owner included;
   * of the policies only those named `shield_...` have changed, and an exempt table has none of them.
   */
  lemma TableAfter(p: AccessPolicy, members: Members, user: string, s: State, key: string)
    requires Accepts(p, members, user, s) && Consistent(s) && IsManagedTable(p, s, key)
    ensures key in s.rls && key in Target(p, members, user, s).rls
    ensures var kind, before, after := EntryOf(p, key).kind, s.rls[key], Target(p, members, user, s).rls[key];
            && (after.enabled <==> kind != Global && kind != ControlPlane)
            && (after.forced <==> kind != Global && kind != ControlPlane)
            && (forall name | !("shield_" <= name) ::
                  (name in after.policies <==> name in before.policies)
                  && (name in before.policies ==> after.policies[name] == before.policies[name]))
            && (kind in {Global, ControlPlane} ==> forall name | name in after.policies :: !("shield_" <= name))
  {
    ManagedTableIff(p, s, key);
    G.EveryTableIsDecided(p, members, user, s, key);
    DecidedIff(p, s, key);
  }

  function ManagedKeys(p: AccessPolicy, s: State): set<string> {
    set key | key in s.relations && IsManagedTable(p, s, key)
  }

  function KeysWithKind(p: AccessPolicy, s: State, kind: Kind): set<string> {
    set key | key in ManagedKeys(p, s) && EntryOf(p, key).kind == kind
  }

  function ManagedSchemas(p: AccessPolicy): set<string> {
    set schema | schema in p.declared && IsManaged(p, schema)
  }

  lemma NoneUndecided(p: AccessPolicy, members: Members, user: string, s: State)
    requires Accepts(p, members, user, s)
    ensures Unclassified(p, Managed(p, s)) == {}
  {
  }

  lemma ClassifiedTables(p: AccessPolicy, s: State)
    requires Unclassified(p, Managed(p, s)) == {}
    ensures var classified := Classified(p, Managed(p, s));
            && classified.Keys == ManagedKeys(p, s)
            && forall key | key in classified :: classified[key] == EntryOf(p, key)
  {
    var classified := Classified(p, Managed(p, s));
    forall key
      ensures key in classified <==> key in ManagedKeys(p, s)
      ensures key in classified ==> classified[key] == EntryOf(p, key)
    {
      ManagedTableIff(p, s, key);
      if key in Managed(p, s) {
        DecidedIff(p, s, key);
      }
    }
  }

  lemma MapSize<K, V>(m: map<K, V>)
    ensures |m| == |m.Keys|
  {
  }

  lemma CountsAre(p: AccessPolicy, s: State, classified: map<string, Entry>)
    requires classified.Keys == ManagedKeys(p, s)
    requires forall key | key in classified :: classified[key] == EntryOf(p, key)
    ensures forall kind :: kind in KindCounts(classified) <==> KeysWithKind(p, s, kind) != {}
    ensures forall kind | kind in KindCounts(classified) :: KindCounts(classified)[kind] == |KeysWithKind(p, s, kind)|
  {
    forall kind ensures KeysOfKind(classified, kind) == KeysWithKind(p, s, kind) {
    }
    forall kind ensures kind in KindCounts(classified) <==> KeysOfKind(classified, kind) != {} {
      if kind in KindCounts(classified) {
        var key :| key in classified && classified[key].kind == kind;
        assert key in KeysOfKind(classified, kind);
      }
      if key :| key in KeysOfKind(classified, kind) {
        assert key in classified && classified[key].kind == kind;
      }
    }
  }

  lemma AuditIs(p: AccessPolicy, members: Members, user: string, s: State)
    ensures Target(p, members, user, s).audit == s.audit + [(p.sha, SummaryOf(p, s))]
  {
  }

  lemma SummaryIs(p: AccessPolicy, s: State, classified: map<string, Entry>, summary: Summary)
    requires classified == Classified(p, Managed(p, s)) && summary == SummaryOf(p, s)
    ensures summary.tables == |classified| && summary.kinds == KindCounts(classified)
    ensures summary.roles == p.roles.Keys && summary.schemas == |ManagedSchemas(p)|
  {
    assert p.Schemas() == ManagedSchemas(p);
  }

  /** The audit log gains one entry: the policy's digest, and how many tables there are of each kind, which roles, and
    * how many schemas. */
  lemma AuditAfter(p: AccessPolicy, members: Members, user: string, s: State) returns (summary: Summary)
    requires Accepts(p, members, user, s)
    ensures Target(p, members, user, s).audit == s.audit + [(p.sha, summary)]
    ensures summary.tables == |ManagedKeys(p, s)| && summary.roles == p.roles.Keys
    ensures summary.schemas == |ManagedSchemas(p)|
    ensures forall kind :: kind in summary.kinds <==> KeysWithKind(p, s, kind) != {}
    ensures forall kind | kind in summary.kinds :: summary.kinds[kind] == |KeysWithKind(p, s, kind)|
  {
    summary := SummaryOf(p, s);
    var classified := Classified(p, Managed(p, s));
    NoneUndecided(p, members, user, s);
    ClassifiedTables(p, s);
    MapSize(classified);
    CountsAre(p, s, classified);
    AuditIs(p, members, user, s);
    SummaryIs(p, s, classified, summary);
  }

  /** Afterwards the schema of the session functions is there, and the visible binding states are those of the policy
    * file. */
  lemma FunctionsAfter(p: AccessPolicy, members: Members, user: string, s: State)
    ensures var t := Target(p, members, user, s);
            t.schemas == s.schemas + {"shield_rls"} && t.bindingStates == Some(p.bindingStates)
            && t.relations == s.relations && t.sequences == s.sequences && t.types == s.types
  {
  }
}
