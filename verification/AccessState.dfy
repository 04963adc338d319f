/**
 * The part of a PostgreSQL database that the access script reads and writes, the policy file
 * it applies, and what one successful application should leave behind.
 */
module AccessState {
  import opened Common
  import opened RoleGraph
  import opened SqlModel
  import opened PolicyCompiler
  import opened RowSecurity
  import opened Visibility

  // ---- The policy file

  datatype Mode = ReadOnly | ReadWriteMode

  datatype RoleSpec = RoleSpec(allSchemas: bool, ownSchemas: set<string>, tables: map<string, Mode>)

  /** prisma/access/access-policy.js with the schemas that prisma/schema.prisma declares. */
  datatype AccessPolicy = AccessPolicy(
    roles: map<string, RoleSpec>,
    tables: map<string, Entry>,
    bindingStates: set<string>,
    declared: set<string>,
    sha: string)
  {
    /** The managed schemas. */
    function Schemas(): set<string> {
      declared - UNMANAGED_SCHEMAS
    }
  }

  const UNMANAGED_SCHEMAS: set<string> := {"public", "shield_rls"}

  const PLATFORM_SCOPE_ROLE := "shield_platform_scope"

  // ---- The database

  datatype Grantee = Public | Role(name: string)

  datatype TablePrivilege = SelectRows | InsertRows | UpdateRows | DeleteRows | Truncate | References | Trigger

  const DML: set<TablePrivilege> := {SelectRows, InsertRows, UpdateRows, DeleteRows}

  datatype SequencePrivilege = SeqUsage | SeqSelect | SeqUpdate

  datatype Grant =
    | SchemaGrant(schema: string, create: bool, to: Grantee)
    | TableGrant(key: string, privilege: TablePrivilege, to: Grantee)
    | SequenceGrant(sequence: string, seqPrivilege: SequencePrivilege, to: Grantee)
    | FunctionGrant(to: Grantee)

  /** `listed`: an ordinary or partitioned table that is not itself a partition. */
  datatype Relation = Relation(schema: string, listed: bool, columns: Columns)

  datatype Summary = Summary(tables: nat, kinds: map<Kind, nat>, roles: set<string>, schemas: nat)

  /**
   * What the types of the database, built-in and user-defined, allow: `equal`, two types compare
   * with `=`; `asText`, a value passes as a text argument; `literal`, a quoted text is a value of
   * the type and compares with `=`.
   */
  datatype Types = Types(
    equal: (string, string) -> bool, asText: string -> bool, literal: (string, string) -> bool)

  /** The row-security catalogue: flags and policies by table. */
  type RlsMap = map<string, TableSecurity>

  /** Relations and sequences are keyed by "schema.name". */
  datatype State = State(
    schemas: set<string>,
    types: Types,
    relations: map<string, Relation>,
    sequences: map<string, string>,
    roles: set<string>,
    memberships: Memberships,
    grants: set<Grant>,
    rls: RlsMap,
    bindingStates: Option<set<string>>,
    audit: seq<(string, Summary)>)

  /** Every relation has row-security flags, and no role is a member of itself. */
  ghost predicate Consistent(s: State) {
    s.relations.Keys == s.rls.Keys && Loopless(s.memberships)
  }

  /** The audit table, which the script creates before it creates a policy. */
  const AUDIT := "shield_rls.access_policy_applications"

  const AUDIT_COLUMNS: Columns := map[
    "id" := Column("bigint", true),
    "applied_at" := Column("timestamp with time zone", true),
    "applied_by" := Column("text", true),
    "policy_sha256" := Column("text", true),
    "summary" := Column("jsonb", true)]

  /** The relations a policy can look in. The rows of the audit table are `audit`. */
  function Lookable(s: State): map<string, Relation> {
    map[AUDIT := Relation("shield_rls", true, AUDIT_COLUMNS)] + s.relations
  }

  // ---- Catalogue and classification

  /** The catalogue query: one row per column, so a table without columns does not appear. */
  function Managed(p: AccessPolicy, s: State): map<string, Columns> {
    map key | key in s.relations && s.relations[key].listed && s.relations[key].schema in p.Schemas()
              && s.relations[key].columns != map[] :: s.relations[key].columns
  }

  predicate RequiresTenant(columns: Columns) {
    || ("tenant_id" in columns && columns["tenant_id"].notNull)
    || ("tenantId" in columns && columns["tenantId"].notNull)
  }

  const TENANT_ENTRY := Entry(Tenant, "", "", "", [])

  function EntryFor(p: AccessPolicy, key: string, columns: Columns): Option<Entry> {
    if key in p.tables then Some(p.tables[key])
    else if RequiresTenant(columns) then Some(TENANT_ENTRY)
    else None
  }

  function Stale(p: AccessPolicy, tables: map<string, Columns>): set<string> {
    p.tables.Keys - tables.Keys
  }

  function Unclassified(p: AccessPolicy, tables: map<string, Columns>): set<string> {
    set key | key in tables && EntryFor(p, key, tables[key]).None?
  }

  function Classified(p: AccessPolicy, tables: map<string, Columns>): map<string, Entry> {
    map key | key in tables && EntryFor(p, key, tables[key]).Some? :: EntryFor(p, key, tables[key]).value
  }

  // ---- Statements on one table

  /** Names resolve and compared types agree, so that CREATE POLICY accepts the expression. */
  predicate Resolves(s: State, columns: Columns, e: Expr) {
    match e
    case Eq(Col(c), TenantUuidCall) => c in columns && s.types.equal(columns[c].typ, "uuid")
    case Eq(Col(c), TenantIdCall) => c in columns && s.types.equal(columns[c].typ, "text")
    case Eq(_, _) => false
    case IsNull(c) => c in columns
    case And(l, r) => Resolves(s, columns, l) && Resolves(s, columns, r)
    case Or(l, r) => Resolves(s, columns, l) && Resolves(s, columns, r)
    case IsPlatformCall => true
    case AccountVisibleCall(c) => c in columns && s.types.asText(columns[c].typ)
    case ExistsRow(t, inner, outer) =>
      && t in Lookable(s) && inner in Lookable(s)[t].columns && outer in columns
      && s.types.equal(Lookable(s)[t].columns[inner].typ, columns[outer].typ)
  }

  predicate OptResolves(s: State, columns: Columns, e: Option<Expr>) {
    e.Some? ==> Resolves(s, columns, e.value)
  }

  predicate Executable(s: State, st: Statement) {
    match st
    case CreatePolicy(name, key, policy) =>
      && key in s.relations && key in s.rls && name !in s.rls[key].policies
      && OptResolves(s, s.relations[key].columns, policy.using)
      && OptResolves(s, s.relations[key].columns, policy.check)
    case DropPolicy(name, key) => key in s.rls && name in s.rls[key].policies
    case _ => st.key in s.rls
  }

  function ExecOn(ts: TableSecurity, st: Statement): TableSecurity {
    match st
    case EnableRls(_) => ts.(enabled := true)
    case ForceRls(_) => ts.(forced := true)
    case NoForceRls(_) => ts.(forced := false)
    case DisableRls(_) => ts.(enabled := false)
    case CreatePolicy(name, _, policy) => ts.(policies := ts.policies[name := policy])
    case DropPolicy(name, _) => ts.(policies := ts.policies - {name})
  }

  const SHIELD := "shield_"

  function ShieldNames(ts: TableSecurity): set<string> {
    set name | name in ts.policies && SHIELD <= name
  }

  /** The row security a table should have after the script, given what it had before. */
  function TableTarget(kind: Kind, compiled: Result<ReadWrite, Error>, before: TableSecurity): TableSecurity {
    var kept := before.policies - ShieldNames(before);
    if IsExempt(kind) then TableSecurity(false, false, kept)
    else match compiled
      case Ok(rw) => TableSecurity(true, true, kept + PolicyMap(rw))
      case Err(_) => before
  }

  predicate RwResolves(s: State, columns: Columns, rw: ReadWrite) {
    Resolves(s, columns, rw.read) && OptResolves(s, columns, rw.write)
  }

  /** The script gets through the table: names are safe, and every policy compiles and resolves. */
  predicate TableAccepts(s: State, key: string, kind: Kind, compiled: Result<ReadWrite, Error>) {
    && key in s.relations && key in s.rls
    && Qualified(key).Ok?
    && (forall name | name in ShieldNames(s.rls[key]) :: IsIdentifier(name))
    && (IsExempt(kind) || (compiled.Ok? && RwResolves(s, s.relations[key].columns, compiled.value)))
  }

  function Compiled(tables: map<string, Columns>, classified: map<string, Entry>, key: string): Result<ReadWrite, Error>
    requires key in tables && key in classified
  {
    Expressions(key, classified[key], tables[key])
  }

  ghost predicate TablesAccept(s: State, tables: map<string, Columns>, classified: map<string, Entry>,
                               done: set<string>)
    requires done <= classified.Keys <= tables.Keys
  {
    forall key | key in done :: TableAccepts(s, key, classified[key].kind, Compiled(tables, classified, key))
  }

  ghost predicate AllTablesAccept(s: State, tables: map<string, Columns>, classified: map<string, Entry>)
    requires classified.Keys <= tables.Keys
  {
    TablesAccept(s, tables, classified, classified.Keys)
  }

  // ---- Grants

  /** Privileges the script takes away before granting. */
  predicate Revoked(p: AccessPolicy, s: State, g: Grant) {
    match g
    case SchemaGrant(schema, _, to) => schema in p.Schemas() && (to == Public || (to.Role? && to.name in p.roles))
    case TableGrant(key, _, to) =>
      key in s.relations && s.relations[key].schema in p.Schemas() && to.Role? && to.name in p.roles
    case SequenceGrant(q, _, to) =>
      q in s.sequences && s.sequences[q] in p.Schemas() && to.Role? && to.name in p.roles
    case FunctionGrant(_) => false
  }

  /** Read-write use of a whole schema. */
  function SchemaDml(s: State, schema: string, to: Grantee): set<Grant> {
    {SchemaGrant(schema, false, to)}
    + (set key, privilege | key in s.relations && s.relations[key].schema == schema && privilege in DML ::
         TableGrant(key, privilege, to))
    + (set q, privilege | q in s.sequences && s.sequences[q] == schema && privilege in {SeqUsage, SeqSelect} ::
         SequenceGrant(q, privilege, to))
  }

  function SchemasDml(s: State, schemas: set<string>, to: Grantee): set<Grant> {
    set schema, g | schema in schemas && g in SchemaDml(s, schema, to) :: g
  }

  function ModePrivileges(mode: Mode): set<TablePrivilege> {
    if mode == ReadWriteMode then DML else {SelectRows}
  }

  function SchemaOf(key: string): string {
    SplitDots(key)[0]
  }

  /** Single-table grants, each with USAGE on the schema of the table. */
  function EntryGrants(entries: map<string, Mode>, keys: set<string>, to: Grantee): set<Grant>
    requires keys <= entries.Keys
  {
    (set key | key in keys :: SchemaGrant(SchemaOf(key), false, to))
    + (set key, privilege | key in keys && privilege in ModePrivileges(entries[key]) :: TableGrant(key, privilege, to))
  }

  /** What the policy file gives one role. */
  function Denoted(p: AccessPolicy, s: State, role: string): set<Grant>
    requires role in p.roles
  {
    var spec := p.roles[role];
    var to := Role(role);
    {SchemaGrant("shield_rls", false, to), FunctionGrant(to)}
    + if spec.allSchemas then SchemasDml(s, p.Schemas(), to)
      else SchemasDml(s, spec.ownSchemas, to) + EntryGrants(spec.tables, spec.tables.Keys, to)
  }

  predicate RoleAccepts(p: AccessPolicy, s: State, role: string)
    requires role in p.roles
  {
    var spec := p.roles[role];
    spec.allSchemas ||
      (spec.ownSchemas <= p.Schemas() && forall key | key in spec.tables :: key in Managed(p, s) && Qualified(key).Ok?)
  }

  function RevokePublic(grants: set<Grant>): set<Grant> {
    set g | g in grants && !(g.SchemaGrant? && g.schema == "shield_rls" && g.to == Public)
  }

  function DenotedTo(p: AccessPolicy, s: State, roles: set<string>): set<Grant>
    requires roles <= p.roles.Keys
  {
    set role, g | role in roles && g in Denoted(p, s, role) :: g
  }

  function AllDenoted(p: AccessPolicy, s: State): set<Grant> {
    DenotedTo(p, s, p.roles.Keys)
  }

  /** Revoke, then grant. */
  function Regranted(p: AccessPolicy, s: State, grants: set<Grant>, denoted: set<Grant>): set<Grant> {
    (set g | g in RevokePublic(grants) && !Revoked(p, s, g)) + denoted
  }

  // ---- One application of the policy

  /**
   * account_visible() can be created: the state list is not empty (`IN ()` is no SQL), and the
   * table and the columns it names exist with types that compare.
   */
  predicate BindingsReadable(s: State, states: set<string>) {
    && states != {} && BINDING in s.relations
    && var columns := s.relations[BINDING].columns;
    && {"commercial_account_id", "tenant_id", "status"} <= columns.Keys
    && s.types.equal(columns["commercial_account_id"].typ, "text")
    && s.types.equal(columns["tenant_id"].typ, "text")
    && forall state | state in states :: s.types.literal(columns["status"].typ, state)
  }

  function KindCounts(classified: map<string, Entry>): map<Kind, nat> {
    map kind | kind in (set key | key in classified :: classified[key].kind) :: |KeysOfKind(classified, kind)|
  }

  function KeysOfKind(classified: map<string, Entry>, kind: Kind): set<string> {
    set key | key in classified && classified[key].kind == kind
  }

  function SummaryOf(p: AccessPolicy, s: State): Summary {
    var classified := Classified(p, Managed(p, s));
    Summary(|classified|, KindCounts(classified), p.roles.Keys, |p.Schemas()|)
  }

  /** Login users per service role (DATABASE_ROLE_MEMBERS). */
  type Members = map<string, set<string>>

  predicate MembersAccepted(p: AccessPolicy, members: Members, roles: set<string>) {
    forall role | role in members :: role in p.roles && LoginsAccepted(members[role], roles)
  }

  predicate LoginsAccepted(logins: set<string>, roles: set<string>) {
    forall login | login in logins :: login in roles && IsIdentifier(login)
  }

  function PlatformMembers(roles: set<string>): Memberships {
    set role | role in roles :: (PLATFORM_SCOPE_ROLE, role)
  }

  function Logins(members: Members, roles: set<string>): Memberships
    requires roles <= members.Keys
  {
    set role, login | role in roles && login in members[role] :: (role, login)
  }

  /** The memberships the script grants. */
  function Granting(p: AccessPolicy, members: Members, user: string): Memberships {
    {(PLATFORM_SCOPE_ROLE, user)} + PlatformMembers(p.roles.Keys) + Logins(members, members.Keys)
  }

  /** Role names that PostgreSQL keeps for itself: nobody can create them, but a predefined `pg_` role may be there. */
  predicate IsReserved(role: string) {
    role == "public" || role == "none" || "pg_" <= role
  }

  /** `role` is there, or can be created, under a name the script accepts. */
  predicate Creatable(roles: set<string>, role: string) {
    IsIdentifier(role) && (role in roles || !IsReserved(role))
  }

  /** The script commits on exactly these databases. */
  ghost predicate Accepts(p: AccessPolicy, members: Members, user: string, s: State) {
    var tables := Managed(p, s);
    var classified := Classified(p, tables);
    && (forall role | role in p.roles.Keys + {PLATFORM_SCOPE_ROLE} :: Creatable(s.roles, role))
    && BindingsReadable(s, p.bindingStates)
    && Stale(p, tables) == {} && Unclassified(p, tables) == {}
    && (forall schema | schema in p.Schemas() :: IsIdentifier(schema) && schema in s.schemas)
    && (forall role | role in p.roles :: RoleAccepts(p, s, role))
    && AllTablesAccept(s, tables, classified)
    && MembersAccepted(p, members, s.roles + p.roles.Keys + {PLATFORM_SCOPE_ROLE})
    && Loopless(s.memberships + Granting(p, members, user))
  }

  function RlsTarget(p: AccessPolicy, s: State): RlsMap {
    RlsOver(Managed(p, s), Classified(p, Managed(p, s)), s.rls)
  }

  function RlsOver(tables: map<string, Columns>, classified: map<string, Entry>, rls: RlsMap): RlsMap
    requires classified.Keys <= tables.Keys
  {
    map key | key in rls ::
      if key in classified
      then TableTarget(classified[key].kind, Expressions(key, classified[key], tables[key]), rls[key])
      else rls[key]
  }

  /** The committed database after a successful run. */
  function Target(p: AccessPolicy, members: Members, user: string, s: State): State {
    s.(schemas := s.schemas + {"shield_rls"},
       roles := s.roles + p.roles.Keys + {PLATFORM_SCOPE_ROLE},
       memberships := s.memberships + Granting(p, members, user),
       grants := Regranted(p, s, s.grants, AllDenoted(p, s)),
       rls := RlsTarget(p, s),
       bindingStates := Some(p.bindingStates),
       audit := s.audit + [(p.sha, SummaryOf(p, s))])
  }
}
