/**
 * What a committed run of the access script guarantees: exact grants, self-healing, idempotence,
 * and tenant isolation for everything that later happens to the data.
 */
module AccessGuarantees {
  import opened Common
  import opened RoleGraph
  import opened SqlModel
  import opened PolicyCompiler
  import opened RowSecurity
  import opened Visibility
  import opened AccessState
  import I = Isolation
  import A = AccessApply

  // ---- Grants

  /** The privilege is held by a service role on a managed schema or something in one. */
  predicate ServiceHeld(p: AccessPolicy, s: State, g: Grant) {
    g.to.Role? && g.to.name in p.roles && Revoked(p, s, g)
  }

  /** A single-table entry names a managed table, so its schema is the table's own. */
  ghost predicate NamedBySchema(s: State) {
    forall key | key in s.relations && SplitKey(key).Ok? :: s.relations[key].schema == SchemaOf(key)
  }

  lemma DenotedIsServiceHeld(p: AccessPolicy, s: State, role: string, g: Grant)
    requires role in p.roles && RoleAccepts(p, s, role) && NamedBySchema(s) && g in Denoted(p, s, role)
    ensures g.to == Role(role)
    ensures ServiceHeld(p, s, g) || g in {SchemaGrant("shield_rls", false, Role(role)), FunctionGrant(Role(role))}
  {
    var spec, to := p.roles[role], Role(role);
    if g !in {SchemaGrant("shield_rls", false, to), FunctionGrant(to)} {
      var schemas := if spec.allSchemas then p.Schemas() else spec.ownSchemas;
      if g in SchemasDml(s, schemas, to) {
        var schema :| schema in schemas && g in SchemaDml(s, schema, to);
      } else {
        assert g in EntryGrants(spec.tables, spec.tables.Keys, to);
        var key :| key in spec.tables
            && (g == SchemaGrant(SchemaOf(key), false, to) || (g.TableGrant? && g.key == key && g.to == to));
        assert key in Managed(p, s) && Qualified(key).Ok?;
        assert SplitKey(key).Ok?;
      }
    }
  }

  /** Service roles end up with exactly what the policy file denotes, whatever they held before. */
  lemma GrantsAreExact(p: AccessPolicy, members: Members, user: string, s: State, g: Grant)
    requires Accepts(p, members, user, s) && NamedBySchema(s)
    requires ServiceHeld(p, s, g)
    ensures g in Target(p, members, user, s).grants <==> g in Denoted(p, s, g.to.name)
  {
    if g in Target(p, members, user, s).grants {
      assert g in AllDenoted(p, s);
      var role :| role in p.roles && g in Denoted(p, s, role);
      DenotedIsServiceHeld(p, s, role, g);
    }
  }

  /** Privileges of other roles, and on other schemas, are left alone. */
  lemma OtherGrantsAreKept(p: AccessPolicy, members: Members, user: string, s: State, g: Grant)
    requires Accepts(p, members, user, s) && NamedBySchema(s)
    requires !Revoked(p, s, g) && !(g.SchemaGrant? && g.schema == "shield_rls")
    requires !(g.FunctionGrant? && g.to.Role? && g.to.name in p.roles)
    ensures g in Target(p, members, user, s).grants <==> g in s.grants
  {
    if g in AllDenoted(p, s) {
      var role :| role in p.roles && g in Denoted(p, s, role);
      DenotedIsServiceHeld(p, s, role, g);
    }
  }

  /** No service role keeps or gets TRUNCATE (or REFERENCES, TRIGGER) on a managed table. */
  lemma NoTruncate(p: AccessPolicy, members: Members, user: string, s: State, g: Grant)
    requires ServiceHeld(p, s, g) && g.TableGrant? && g.privilege !in DML
    ensures g !in Target(p, members, user, s).grants
  {
    AfterRun(p, members, user, s, g);
    if g in AllDenoted(p, s) {
      AllDenotedIsDml(p, s, g);
    }
  }

  lemma AfterRun(p: AccessPolicy, members: Members, user: string, s: State, g: Grant)
    ensures g in Target(p, members, user, s).grants <==>
              (g in RevokePublic(s.grants) && !Revoked(p, s, g)) || g in AllDenoted(p, s)
  {
  }

  lemma AllDenotedIsDml(p: AccessPolicy, s: State, g: Grant)
    requires g in AllDenoted(p, s)
    ensures g.TableGrant? ==> g.privilege in DML
  {
    var role :| role in p.roles && g in Denoted(p, s, role);
    DenotedIsDml(p, s, role, g);
  }

  lemma DenotedIsDml(p: AccessPolicy, s: State, role: string, g: Grant)
    requires role in p.roles && g in Denoted(p, s, role)
    ensures g.TableGrant? ==> g.privilege in DML
  {
  }

  /** The same privilege, held by someone else. */
  function For(g: Grant, to: Grantee): Grant {
    match g
    case SchemaGrant(schema, create, _) => SchemaGrant(schema, create, to)
    case TableGrant(key, privilege, _) => TableGrant(key, privilege, to)
    case SequenceGrant(q, privilege, _) => SequenceGrant(q, privilege, to)
    case FunctionGrant(_) => FunctionGrant(to)
  }

  /** The role can use the privilege: through PUBLIC, directly, or as a member of whoever holds it. */
  ghost predicate Effective(s: State, role: string, g: Grant) {
    || For(g, Public) in s.grants
    || exists holder :: role in Down(s.memberships, holder) && For(g, Role(holder)) in s.grants
  }

  /** What one role has of a privilege once the script is through. */
  predicate HasAfter(p: AccessPolicy, s: State, holder: string, g: Grant) {
    if holder in p.roles then For(g, Role(holder)) in Denoted(p, s, holder) else For(g, Role(holder)) in s.grants
  }

  function Having(p: AccessPolicy, s: State, g: Grant): string -> bool {
    holder => HasAfter(p, s, holder, g)
  }

  predicate PublicHasAfter(s: State, g: Grant) {
    !g.SchemaGrant? && For(g, Public) in s.grants
  }

  /** A role that `role` is a member of, other than itself, has the privilege. */
  ghost predicate Inherits(ms: Memberships, role: string, has: string -> bool) {
    exists holder :: holder != role && role in Down(ms, holder) && has(holder)
  }

  /**
   * What a service role can use is what the policy file denotes and exactly what reaches it past the
   * policy file: table and sequence grants to PUBLIC, and grants to the roles it is a member of.
   */
  lemma EffectiveIff(p: AccessPolicy, members: Members, user: string, s: State, role: string, g: Grant)
    requires Accepts(p, members, user, s) && NamedBySchema(s)
    requires ServiceHeld(p, s, g) && g.to == Role(role)
    ensures var t := Target(p, members, user, s);
            Effective(t, role, g) <==>
              || g in Denoted(p, s, role)
              || PublicHasAfter(s, g)
              || Inherits(t.memberships, role, Having(p, s, g))
  {
    var t := Target(p, members, user, s);
    HoldersAfter(p, members, user, s, g, t.grants);
    EffectiveFrom(p, s, t, role, g);
  }

  /** The grants of one privilege are what `HasAfter` says, for every role and for PUBLIC. */
  ghost predicate HeldAsSaid(p: AccessPolicy, s: State, g: Grant, grants: set<Grant>) {
    && (For(g, Public) in grants <==> PublicHasAfter(s, g))
    && forall holder :: For(g, Role(holder)) in grants <==> HasAfter(p, s, holder, g)
  }

  lemma EffectiveFrom(p: AccessPolicy, s: State, t: State, role: string, g: Grant)
    requires role in p.roles && g.to == Role(role) && HeldAsSaid(p, s, g, t.grants)
    ensures Effective(t, role, g) <==>
              g in Denoted(p, s, role) || PublicHasAfter(s, g) || Inherits(t.memberships, role, Having(p, s, g))
  {
    assert role in Down(t.memberships, role);
    assert For(g, Role(role)) == g;
    assert HasAfter(p, s, role, g) <==> g in Denoted(p, s, role);
    if holder :| holder != role && role in Down(t.memberships, holder) && HasAfter(p, s, holder, g) {
      assert Having(p, s, g)(holder);
    }
  }

  lemma PublicAfter(p: AccessPolicy, members: Members, user: string, s: State, g: Grant)
    requires Accepts(p, members, user, s) && NamedBySchema(s) && ServiceHeld(p, s, g)
    ensures For(g, Public) in Target(p, members, user, s).grants <==> PublicHasAfter(s, g)
  {
    var open := For(g, Public);
    AfterRun(p, members, user, s, open);
    AllDenotedGoToRoles(p, s);
  }

  lemma HolderAfter(p: AccessPolicy, members: Members, user: string, s: State, holder: string, g: Grant)
    requires Accepts(p, members, user, s) && NamedBySchema(s) && ServiceHeld(p, s, g)
    ensures For(g, Role(holder)) in Target(p, members, user, s).grants <==> HasAfter(p, s, holder, g)
  {
    if holder in p.roles {
      GrantsAreExact(p, members, user, s, For(g, Role(holder)));
    } else {
      OtherGrantsAreKept(p, members, user, s, For(g, Role(holder)));
    }
  }

  lemma HoldersAfter(p: AccessPolicy, members: Members, user: string, s: State, g: Grant, after: set<Grant>)
    requires Accepts(p, members, user, s) && NamedBySchema(s) && ServiceHeld(p, s, g)
    requires after == Target(p, members, user, s).grants
    ensures HeldAsSaid(p, s, g, after)
  {
    PublicAfter(p, members, user, s, g);
    forall holder
      ensures For(g, Role(holder)) in after <==> HasAfter(p, s, holder, g)
    {
      HolderAfter(p, members, user, s, holder, g);
    }
  }

  /** A service role can TRUNCATE a managed table only if PUBLIC, or a role outside the policy file above it, can. */
  lemma TruncateComesFromOutside(p: AccessPolicy, members: Members, user: string, s: State, role: string, g: Grant)
    requires Accepts(p, members, user, s) && NamedBySchema(s)
    requires ServiceHeld(p, s, g) && g.to == Role(role) && g.TableGrant? && g.privilege !in DML
    ensures var t := Target(p, members, user, s);
            Effective(t, role, g) <==>
              || For(g, Public) in s.grants
              || Inherits(t.memberships, role, holder => holder !in p.roles && For(g, Role(holder)) in s.grants)
  {
    EffectiveIff(p, members, user, s, role, g);
    forall holder
      ensures HasAfter(p, s, holder, g) <==> holder !in p.roles && For(g, Role(holder)) in s.grants
    {
      if holder in p.roles && HasAfter(p, s, holder, g) {
        DenotedIsDml(p, s, holder, For(g, Role(holder)));
      }
    }
    assert For(g, Role(role)) == g;
    SameInheritance(Target(p, members, user, s).memberships, role, Having(p, s, g),
                    holder => holder !in p.roles && For(g, Role(holder)) in s.grants);
  }

  lemma SameInheritance(ms: Memberships, role: string, one: string -> bool, other: string -> bool)
    requires forall holder :: one(holder) <==> other(holder)
    ensures Inherits(ms, role, one) <==> Inherits(ms, role, other)
  {
  }

  // ---- Row security

  /** The shield_ policies are exactly these. */
  ghost predicate ShieldPoliciesAre(ts: TableSecurity, policies: map<string, Policy>) {
    forall name | "shield_" <= name ::
      && (name in ts.policies <==> name in policies)
      && (name in policies ==> ts.policies[name] == policies[name])
  }

  ghost predicate SameOtherPolicies(ts: TableSecurity, before: TableSecurity) {
    forall name | !("shield_" <= name) ::
      && (name in ts.policies <==> name in before.policies)
      && (name in before.policies ==> ts.policies[name] == before.policies[name])
  }

  /** Every managed table is classified, and forced under exactly its compiled policies or exempt. */
  lemma EveryTableIsDecided(p: AccessPolicy, members: Members, user: string, s: State, key: string)
    requires Accepts(p, members, user, s) && Consistent(s) && key in Managed(p, s)
    ensures key in Classified(p, Managed(p, s)) && key in s.rls && key in Target(p, members, user, s).rls
    ensures var entry, after := Classified(p, Managed(p, s))[key], Target(p, members, user, s).rls[key];
            && SameOtherPolicies(after, s.rls[key])
            && if IsExempt(entry.kind) then !after.enabled && !after.forced && ShieldPoliciesAre(after, map[])
               else
                 var rw := Expressions(key, entry, Managed(p, s)[key]);
                 rw.Ok? && after.enabled && after.forced && ShieldPoliciesAre(after, PolicyMap(rw.value))
  {
    RebuiltAt(p, members, user, s, key);
    var entry := Classified(p, Managed(p, s))[key];
    TargetPolicies(entry.kind, Expressions(key, entry, Managed(p, s)[key]), s.rls[key]);
  }

  lemma RebuiltAt(p: AccessPolicy, members: Members, user: string, s: State, key: string)
    requires Accepts(p, members, user, s) && Consistent(s) && key in Managed(p, s)
    ensures var tables, classified, after :=
              Managed(p, s), Classified(p, Managed(p, s)), Target(p, members, user, s).rls;
            && key in classified && key in s.rls && key in after
            && (IsExempt(classified[key].kind) || Expressions(key, classified[key], tables[key]).Ok?)
            && after[key] ==
                TableTarget(classified[key].kind, Expressions(key, classified[key], tables[key]), s.rls[key])
  {
    assert key !in Unclassified(p, Managed(p, s));
  }

  /** Exactly the compiled policies replace the shield_ policies of a table. */
  lemma TargetPolicies(kind: Kind, compiled: Result<ReadWrite, Error>, before: TableSecurity)
    requires IsExempt(kind) || compiled.Ok?
    ensures var after := TableTarget(kind, compiled, before);
            && ShieldPoliciesAre(after, if IsExempt(kind) then map[] else PolicyMap(compiled.value))
            && SameOtherPolicies(after, before)
            && after.policies - ShieldNames(after) == before.policies - ShieldNames(before)
  {
    if !IsExempt(kind) {
      CompiledNamesAreShield(compiled.value);
      var after := TableTarget(kind, compiled, before);
      var kept := before.policies - ShieldNames(before);
      assert forall name | name in kept :: !(SHIELD <= name);
      assert ShieldNames(after) == PolicyMap(compiled.value).Keys;
      assert after.policies - ShieldNames(after) == kept;
    }
  }

  predicate IsShieldName(name: string) {
    SHIELD <= name && IsIdentifier(name)
  }

  lemma CompiledNamesAreShield(rw: ReadWrite)
    ensures forall name | name in PolicyMap(rw) :: IsShieldName(name)
  {
    IsolationName();
    ReadName();
    InsertName();
    UpdateName();
    DeleteName();
  }

  lemma IsolationName()
    ensures IsShieldName("shield_tenant_isolation")
  {
    assert forall c | c in "shield_tenant_isolation" :: IsIdentChar(c);
  }

  lemma ReadName()
    ensures IsShieldName("shield_tenant_read")
  {
    assert forall c | c in "shield_tenant_read" :: IsIdentChar(c);
  }

  lemma InsertName()
    ensures IsShieldName("shield_tenant_insert")
  {
    assert forall c | c in "shield_tenant_insert" :: IsIdentChar(c);
  }

  lemma UpdateName()
    ensures IsShieldName("shield_tenant_update")
  {
    assert forall c | c in "shield_tenant_update" :: IsIdentChar(c);
  }

  lemma DeleteName()
    ensures IsShieldName("shield_tenant_delete")
  {
    assert forall c | c in "shield_tenant_delete" :: IsIdentChar(c);
  }

  /** Rebuilding a rebuilt table changes nothing. */
  lemma TableTargetIsStable(kind: Kind, compiled: Result<ReadWrite, Error>, before: TableSecurity)
    requires IsExempt(kind) || compiled.Ok?
    ensures TableTarget(kind, compiled, TableTarget(kind, compiled, before)) == TableTarget(kind, compiled, before)
  {
    TargetPolicies(kind, compiled, before);
  }

  // ---- Repeated runs

  lemma SameCatalogue(p: AccessPolicy, members: Members, user: string, s: State)
    ensures var t := Target(p, members, user, s);
            Managed(p, t) == Managed(p, s) && SummaryOf(p, t) == SummaryOf(p, s) && AllDenoted(p, t) == AllDenoted(p, s)
  {
    A.DenotedToFrame(p, Target(p, members, user, s), s);
  }

  lemma RlsIsStable(p: AccessPolicy, members: Members, user: string, s: State)
    requires Accepts(p, members, user, s) && Consistent(s)
    ensures RlsTarget(p, Target(p, members, user, s)) == Target(p, members, user, s).rls
  {
    SameManaged(p, members, user, s);
    CompiledOrExempt(p, members, user, s);
    RebuiltTwice(Managed(p, s), Classified(p, Managed(p, s)), s.rls);
  }

  lemma SameManaged(p: AccessPolicy, members: Members, user: string, s: State)
    ensures Managed(p, Target(p, members, user, s)) == Managed(p, s)
  {
  }

  lemma CompiledOrExempt(p: AccessPolicy, members: Members, user: string, s: State)
    requires Accepts(p, members, user, s)
    ensures var tables := Managed(p, s);
            var classified := Classified(p, tables);
            forall key | key in classified ::
                IsExempt(classified[key].kind) || Expressions(key, classified[key], tables[key]).Ok?
  {
  }

  lemma RebuiltTwice(tables: map<string, Columns>, classified: map<string, Entry>, rls: RlsMap)
    requires classified.Keys <= tables.Keys
    requires forall key | key in classified ::
              IsExempt(classified[key].kind) || Expressions(key, classified[key], tables[key]).Ok?
    ensures RlsOver(tables, classified, RlsOver(tables, classified, rls)) == RlsOver(tables, classified, rls)
  {
    var once := RlsOver(tables, classified, rls);
    forall key | key in rls && key in classified
      ensures RlsOver(tables, classified, once)[key] == once[key]
    {
      TableTargetIsStable(classified[key].kind, Expressions(key, classified[key], tables[key]), rls[key]);
    }
  }

  lemma GrantsAreStable(p: AccessPolicy, members: Members, user: string, s: State)
    ensures Target(p, members, user, Target(p, members, user, s)).grants == Target(p, members, user, s).grants
  {
    var t := Target(p, members, user, s);
    SameCatalogue(p, members, user, s);
    AllDenotedGoToRoles(p, s);
    RegrantingTwice(p, s, t, s.grants, AllDenoted(p, s));
  }

  lemma RegrantingTwice(p: AccessPolicy, s: State, t: State, grants: set<Grant>, denoted: set<Grant>)
    requires s.relations == t.relations && s.sequences == t.sequences
    requires forall g | g in denoted :: g.to.Role?
    ensures var once := Regranted(p, s, grants, denoted);
            Regranted(p, t, once, denoted) == once
  {
    var once := Regranted(p, s, grants, denoted);
    A.RevokedFrame(p, s, t, RevokePublic(once));
  }

  lemma AllDenotedGoToRoles(p: AccessPolicy, s: State)
    ensures forall g | g in AllDenoted(p, s) :: g.to.Role?
  {
    forall g | g in AllDenoted(p, s)
      ensures g.to.Role?
    {
      var role :| role in p.roles && g in Denoted(p, s, role);
      DenotedGoesToRole(p, s, role, g);
    }
  }

  lemma DenotedGoesToRole(p: AccessPolicy, s: State, role: string, g: Grant)
    requires role in p.roles && g in Denoted(p, s, role)
    ensures g.to == Role(role)
  {
  }

  /** A second run commits again and changes nothing but the audit log. */
  lemma SecondRunOnlyAudits(p: AccessPolicy, members: Members, user: string, s: State)
    requires Accepts(p, members, user, s) && Consistent(s)
    ensures var t := Target(p, members, user, s);
            && Accepts(p, members, user, t) && Consistent(t)
            && Target(p, members, user, t) == t.(audit := t.audit + [(p.sha, SummaryOf(p, s))])
  {
    var t := Target(p, members, user, s);
    SameCatalogue(p, members, user, s);
    RlsIsStable(p, members, user, s);
    GrantsAreStable(p, members, user, s);
    StillAccepts(p, members, user, s);
    RestIsStable(p, members, user, s);
  }

  lemma RestIsStable(p: AccessPolicy, members: Members, user: string, s: State)
    ensures var t := Target(p, members, user, s);
            var u := Target(p, members, user, t);
            && u.schemas == t.schemas && u.roles == t.roles && u.memberships == t.memberships
            && u.relations == t.relations && u.sequences == t.sequences && u.bindingStates == t.bindingStates
            && u.audit == t.audit + [(p.sha, SummaryOf(p, t))]
  {
    NamesAreStable(p, members, user, s);
    AbsorbsSelf(s.memberships, Granting(p, members, user));
  }

  lemma NamesAreStable(p: AccessPolicy, members: Members, user: string, s: State)
    ensures var t := Target(p, members, user, s);
            t.schemas + {"shield_rls"} == t.schemas && t.roles + p.roles.Keys + {PLATFORM_SCOPE_ROLE} == t.roles
  {
  }

  lemma AbsorbsSelf<T>(a: set<T>, b: set<T>)
    ensures a + b + b == a + b
  {
  }

  lemma TableStaysAccepted(p: AccessPolicy, members: Members, user: string, s: State, key: string)
    requires Accepts(p, members, user, s) && Consistent(s) && key in Classified(p, Managed(p, s))
    ensures var tables, classified := Managed(p, s), Classified(p, Managed(p, s));
            TableAccepts(Target(p, members, user, s), key, classified[key].kind, Compiled(tables, classified, key))
  {
    var tables := Managed(p, s);
    RebuiltAt(p, members, user, s, key);
    AcceptedAt(s, tables, Classified(p, tables), key);
    var e := Classified(p, tables)[key];
    RebuiltIsAccepted(s, Target(p, members, user, s), key, e.kind, Compiled(tables, Classified(p, tables), key));
  }

  lemma AcceptedAt(s: State, tables: map<string, Columns>, classified: map<string, Entry>, key: string)
    requires classified.Keys <= tables.Keys && AllTablesAccept(s, tables, classified) && key in classified
    ensures TableAccepts(s, key, classified[key].kind, Compiled(tables, classified, key))
  {
  }

  lemma RebuiltIsAccepted(s: State, t: State, key: string, kind: Kind, compiled: Result<ReadWrite, Error>)
    requires TableAccepts(s, key, kind, compiled) && A.SameNames(s, t)
    requires key in t.rls && t.rls[key] == TableTarget(kind, compiled, s.rls[key])
    ensures TableAccepts(t, key, kind, compiled)
  {
    TargetPolicies(kind, compiled, s.rls[key]);
    if compiled.Ok? {
      CompiledNamesAreShield(compiled.value);
      A.RwResolvesSame(s, t, s.relations[key].columns, compiled.value);
    }
  }

  lemma RoleStaysAccepted(p: AccessPolicy, members: Members, user: string, s: State, role: string)
    requires Accepts(p, members, user, s) && Consistent(s) && role in p.roles
    ensures RoleAccepts(p, Target(p, members, user, s), role)
  {
    A.DenotedFrame(p, s, Target(p, members, user, s), role);
  }

  lemma MembersStayAccepted(p: AccessPolicy, members: Members, user: string, s: State)
    requires Accepts(p, members, user, s)
    ensures MembersAccepted(p, members, Target(p, members, user, s).roles + p.roles.Keys + {PLATFORM_SCOPE_ROLE})
  {
    AbsorbsSelf(s.roles, p.roles.Keys + {PLATFORM_SCOPE_ROLE});
    var t := Target(p, members, user, s);
    assert t.roles + p.roles.Keys + {PLATFORM_SCOPE_ROLE} == s.roles + p.roles.Keys + {PLATFORM_SCOPE_ROLE};
  }

  lemma StillAccepts(p: AccessPolicy, members: Members, user: string, s: State)
    requires Accepts(p, members, user, s) && Consistent(s)
    ensures Accepts(p, members, user, Target(p, members, user, s))
  {
    SameCatalogue(p, members, user, s);
    MembersStayAccepted(p, members, user, s);
    AbsorbsSelf(s.memberships, Granting(p, members, user));
    var classified := Classified(p, Managed(p, s));
    forall key | key in classified
      ensures TableAccepts(Target(p, members, user, s), key, classified[key].kind,
                Expressions(key, classified[key], Managed(p, s)[key]))
    {
      TableStaysAccepted(p, members, user, s, key);
    }
    forall role | role in p.roles
      ensures RoleAccepts(p, Target(p, members, user, s), role)
    {
      RoleStaysAccepted(p, members, user, s, role);
    }
  }

  /** Self-healing: what the script controls depends only on the policy and the catalogue. */
  lemma OutcomeForgetsThePast(p: AccessPolicy, members: Members, user: string, a: State, b: State, key: string,
                              g: Grant)
    requires Accepts(p, members, user, a) && Accepts(p, members, user, b) && Consistent(a) && Consistent(b)
    requires a.relations == b.relations && a.sequences == b.sequences
    requires key in Managed(p, a) && Revoked(p, a, g)
    ensures var x, y := Target(p, members, user, a), Target(p, members, user, b);
            && x.rls[key].enabled == y.rls[key].enabled && x.rls[key].forced == y.rls[key].forced
            && (forall name | SHIELD <= name ::
                  (name in x.rls[key].policies <==> name in y.rls[key].policies)
                  && (name in x.rls[key].policies ==> x.rls[key].policies[name] == y.rls[key].policies[name]))
            && (g in x.grants <==> g in y.grants)
            && x.bindingStates == y.bindingStates
  {
    EveryTableIsDecided(p, members, user, a, key);
    EveryTableIsDecided(p, members, user, b, key);
    A.DenotedToFrame(p, a, b);
    assert Revoked(p, b, g);
  }

  // ---- From a committed run to isolation

  /** Following parents, accounts and groups never leads back: `rank` goes down. */
  ghost predicate Acyclic(p: AccessPolicy, s: State, rank: map<string, nat>) {
    var classified := Classified(p, Managed(p, s));
    forall key, t | key in classified && t in LookupReads(classified[key]) ::
      t in classified && RankOf(rank, t) < RankOf(rank, key)
  }

  function RankOf(rank: map<string, nat>, key: string): nat {
    if key in rank then rank[key] else 0
  }

  /** Nobody else has put permissive policies on the managed tables. */
  ghost predicate OnlyShieldPolicies(p: AccessPolicy, s: State) {
    forall key, name | key in Managed(p, s) && key in s.rls && name in s.rls[key].policies :: SHIELD <= name
  }

  /** A table the script protects without any entry in the policy file. */
  ghost predicate PlainTenantTable(s: State, key: string) {
    && key in s.relations && Qualified(key).Ok?
    && StampColumn(s.relations[key].columns).Some?
    && var column := s.relations[key].columns[StampColumn(s.relations[key].columns).value];
    && column.notNull && s.types.equal(column.typ, if column.typ == "uuid" then "uuid" else "text")
    && key in s.rls && forall name | name in s.rls[key].policies :: SHIELD <= name && IsIdentifier(name)
  }

  /**
   * With an empty table list, the script commits on every schema of plain tenant tables whose roles
   * and logins it can grant, and what follows a commit applies: nothing is left to decide, and no
   * lookup can lead back.
   */
  lemma PlainSchemaIsAccepted(p: AccessPolicy, members: Members, user: string, s: State, rank: map<string, nat>)
    requires p.tables == map[] && Consistent(s) && BindingsReadable(s, p.bindingStates)
    requires forall role | role in p.roles.Keys + {PLATFORM_SCOPE_ROLE} :: Creatable(s.roles, role)
    requires forall role | role in p.roles :: RoleAccepts(p, s, role)
    requires MembersAccepted(p, members, s.roles + p.roles.Keys + {PLATFORM_SCOPE_ROLE})
    requires Loopless(s.memberships + Granting(p, members, user))
    requires forall schema | schema in p.Schemas() :: IsIdentifier(schema) && schema in s.schemas
    requires forall key | key in Managed(p, s) :: PlainTenantTable(s, key)
    ensures Accepts(p, members, user, s) && OnlyShieldPolicies(p, s) && Acyclic(p, s, rank)
  {
    PlainTablesAreTenant(p, s);
    var tables := Managed(p, s);
    var classified := Classified(p, tables);
    forall key | key in classified
      ensures TableAccepts(s, key, classified[key].kind, Expressions(key, classified[key], tables[key]))
    {
      PlainTableIsAccepted(s, key);
    }
    forall key | key in classified ensures LookupReads(classified[key]) == {} {
      TenantLooksNowhere();
    }
  }

  lemma TenantLooksNowhere()
    ensures LookupReads(TENANT_ENTRY) == {}
  {
  }

  lemma PlainTablesAreTenant(p: AccessPolicy, s: State)
    requires p.tables == map[] && forall key | key in Managed(p, s) :: PlainTenantTable(s, key)
    ensures var tables := Managed(p, s);
            && Stale(p, tables) == {} && Unclassified(p, tables) == {}
            && Classified(p, tables).Keys == tables.Keys
            && forall key | key in tables :: Classified(p, tables)[key] == TENANT_ENTRY
  {
  }

  lemma PlainTableIsAccepted(s: State, key: string)
    requires PlainTenantTable(s, key)
    ensures TableAccepts(s, key, Tenant, Expressions(key, TENANT_ENTRY, s.relations[key].columns))
  {
    var columns := s.relations[key].columns;
    var name := StampColumn(columns).value;
    assert IsIdentifier("tenant_id") && IsIdentifier("tenantId");
    var stamp := Eq(Term.Col(name), StampCall(columns, name));
    assert Expressions(key, TENANT_ENTRY, columns) == Ok(ReadWrite(Or(stamp, IsPlatformCall), None));
    assert Resolves(s, columns, stamp) && Resolves(s, columns, IsPlatformCall);
  }

  /** The row security in force on the managed tables after the run. */
  function SecurityAfter(p: AccessPolicy, members: Members, user: string, s: State, rank: map<string, nat>): Security
    requires Consistent(s)
  {
    Security(map key | key in Managed(p, s) :: Target(p, members, user, s).rls[key], p.bindingStates, rank)
  }

  function ConfigOf(p: AccessPolicy, s: State): Config {
    Config(Classified(p, Managed(p, s)), Managed(p, s))
  }

  /** The compiled expressions read what the entry looks up, and nothing else. */
  lemma MeantReads(entry: Entry, columns: Columns)
    requires WellFormed(entry, columns)
    ensures Reads(Meant(entry, columns).read) == LookupReads(entry)
    ensures Reads(WriteOf(Meant(entry, columns))) <= LookupReads(entry)
  {
    var read := Meant(entry, columns).read;
    MeantShape(entry, columns);
    if entry.kind == TenantPair {
      PairReads(entry.columns);
    }
    assert Reads(read) == Reads(read.l);
    if read.l.Or? && entry.kind != TenantPair {
      assert Reads(read.l) == Reads(read.l.l) + Reads(read.l.r);
      if read.l.r.And? {
        assert Reads(read.l.r) == Reads(read.l.r.r);
      }
    }
  }

  function LookupReads(entry: Entry): set<string> {
    match Lookup(entry)
    case Some(e) => Reads(e)
    case None => {}
  }

  lemma {:induction false} PairReads(names: seq<string>)
    requires names != []
    ensures Reads(PairTest(names)) == {}
  {
    if |names| > 1 {
      PairReads(names[..|names| - 1]);
    }
  }

  /** With no other policies on the table, the compiled ones are all there is. */
  lemma TargetIsCompiled(kind: Kind, compiled: Result<ReadWrite, Error>, before: TableSecurity)
    requires forall name | name in before.policies :: SHIELD <= name
    requires IsExempt(kind) || compiled.Ok?
    ensures TableTarget(kind, compiled, before) ==
              if IsExempt(kind) then TableSecurity(false, false, map[])
              else TableSecurity(true, true, PolicyMap(compiled.value))
  {
    assert before.policies - ShieldNames(before) == map[];
    if !IsExempt(kind) {
      assert map[] + PolicyMap(compiled.value) == PolicyMap(compiled.value);
    }
  }

  lemma RlsAt(p: AccessPolicy, members: Members, user: string, s: State, rank: map<string, nat>, key: string)
    requires Accepts(p, members, user, s) && Consistent(s) && OnlyShieldPolicies(p, s) && key in Managed(p, s)
    ensures var cfg := ConfigOf(p, s);
            && key in cfg.entries && key in cfg.columns
            && var kind, compiled := cfg.entries[key].kind, Expressions(key, cfg.entries[key], cfg.columns[key]);
            && (IsExempt(kind) || compiled.Ok?)
            && SecurityAfter(p, members, user, s, rank).tables[key] ==
                 if IsExempt(kind) then TableSecurity(false, false, map[])
                 else TableSecurity(true, true, PolicyMap(compiled.value))
  {
    var tables := Managed(p, s);
    assert key !in Unclassified(p, tables);
    var classified := Classified(p, tables);
    TargetIsCompiled(classified[key].kind, Expressions(key, classified[key], tables[key]), s.rls[key]);
  }

  lemma PoliciesAreRanked(p: AccessPolicy, members: Members, user: string, s: State, rank: map<string, nat>,
                          key: string, name: string)
    requires Accepts(p, members, user, s) && Consistent(s) && OnlyShieldPolicies(p, s) && Acyclic(p, s, rank)
    requires key in Managed(p, s)
    requires name in SecurityAfter(p, members, user, s, rank).tables[key].policies
    ensures var sec := SecurityAfter(p, members, user, s, rank);
            && OptReadsBelow(sec, Rank(sec, key), sec.tables[key].policies[name].using)
            && OptReadsBelow(sec, Rank(sec, key), sec.tables[key].policies[name].check)
  {
    var cfg, sec := ConfigOf(p, s), SecurityAfter(p, members, user, s, rank);
    RlsAt(p, members, user, s, rank, key);
    LookupsAreRanked(p, members, user, s, rank, key);
    PoliciesOf(sec, key, cfg.entries[key], cfg.columns[key], name);
  }

  lemma LookupsAreRanked(p: AccessPolicy, members: Members, user: string, s: State, rank: map<string, nat>, key: string)
    requires Consistent(s) && Acyclic(p, s, rank) && key in ConfigOf(p, s).entries
    ensures var sec := SecurityAfter(p, members, user, s, rank);
            forall t | t in LookupReads(ConfigOf(p, s).entries[key]) :: t in sec.tables && Rank(sec, t) < Rank(sec, key)
  {
    var sec := SecurityAfter(p, members, user, s, rank);
    SecurityShape(p, members, user, s, rank);
    LowerIsListed(p, s, rank, key, sec);
  }

  lemma SecurityShape(p: AccessPolicy, members: Members, user: string, s: State, rank: map<string, nat>)
    requires Consistent(s)
    ensures var sec := SecurityAfter(p, members, user, s, rank);
            sec.tables.Keys == Managed(p, s).Keys && sec.rank == rank
  {
  }

  lemma LowerIsListed(p: AccessPolicy, s: State, rank: map<string, nat>, key: string, sec: Security)
    requires Acyclic(p, s, rank) && key in Classified(p, Managed(p, s))
    requires sec.tables.Keys == Managed(p, s).Keys && sec.rank == rank
    ensures forall t | t in LookupReads(Classified(p, Managed(p, s))[key]) ::
              t in sec.tables && Rank(sec, t) < Rank(sec, key)
  {
    var classified := Classified(p, Managed(p, s));
    forall t | t in LookupReads(classified[key])
      ensures t in sec.tables && Rank(sec, t) < Rank(sec, key)
    {
      assert t in classified && RankOf(rank, t) < RankOf(rank, key);
    }
  }

  lemma PoliciesOf(sec: Security, key: string, entry: Entry, columns: Columns, name: string)
    requires key in sec.tables && name in sec.tables[key].policies
    requires !IsExempt(entry.kind) ==> Expressions(key, entry, columns).Ok?
    requires sec.tables[key].policies == if IsExempt(entry.kind) then map[]
                                         else PolicyMap(Expressions(key, entry, columns).value)
    requires forall t | t in LookupReads(entry) :: t in sec.tables && Rank(sec, t) < Rank(sec, key)
    ensures OptReadsBelow(sec, Rank(sec, key), sec.tables[key].policies[name].using)
    ensures OptReadsBelow(sec, Rank(sec, key), sec.tables[key].policies[name].check)
  {
    ExpressionsMean(key, entry, columns);
    MeantReads(entry, columns);
    PoliciesReadLess(sec, key, Meant(entry, columns), LookupReads(entry), name);
  }

  lemma PoliciesReadLess(sec: Security, key: string, rw: ReadWrite, tables: set<string>, name: string)
    requires key in sec.tables && sec.tables[key].policies == PolicyMap(rw) && name in PolicyMap(rw)
    requires Reads(rw.read) <= tables && Reads(WriteOf(rw)) <= tables
    requires forall t | t in tables :: t in sec.tables && Rank(sec, t) < Rank(sec, key)
    ensures OptReadsBelow(sec, Rank(sec, key), PolicyMap(rw)[name].using)
    ensures OptReadsBelow(sec, Rank(sec, key), PolicyMap(rw)[name].check)
  {
  }

  /** A committed run leaves the database enforcing its policy file. */
  lemma CommitEnforces(p: AccessPolicy, members: Members, user: string, s: State, rank: map<string, nat>)
    requires Accepts(p, members, user, s) && Consistent(s) && OnlyShieldPolicies(p, s) && Acyclic(p, s, rank)
    ensures Enforces(SecurityAfter(p, members, user, s, rank), ConfigOf(p, s))
  {
    var sec, cfg := SecurityAfter(p, members, user, s, rank), ConfigOf(p, s);
    assert cfg.entries.Keys == cfg.columns.Keys by {
      forall key | key in cfg.columns
        ensures key in cfg.entries
      {
        assert key !in Unclassified(p, Managed(p, s));
      }
    }
    forall key, name | key in sec.tables && name in sec.tables[key].policies
      ensures OptReadsBelow(sec, Rank(sec, key), sec.tables[key].policies[name].using)
      ensures OptReadsBelow(sec, Rank(sec, key), sec.tables[key].policies[name].check)
    {
      PoliciesAreRanked(p, members, user, s, rank, key, name);
    }
    forall key | key in cfg.entries
      ensures EnforcedAt(sec, cfg, key)
    {
      RlsAt(p, members, user, s, rank, key);
    }
  }

  /**
   * From one committed run on: however the non-platform sessions interleave their statements, they
   * never create, change, delete or see a row stamped with a tenant that none of them acts for.
   */
  lemma CommitIsolates(p: AccessPolicy, members: Members, user: string, s: State, rank: map<string, nat>,
                       db: Database, sessions: set<Session>, run: I.Run, key: string)
    requires Accepts(p, members, user, s) && Consistent(s) && OnlyShieldPolicies(p, s) && Acyclic(p, s, rank)
    requires key in Managed(p, s)
    requires forall sess | sess in sessions :: sess.platformSetting != Some("on") || !sess.platformMember
    requires forall i | 0 <= i < |run| :: run[i].0 in sessions
    ensures var sec, cfg := SecurityAfter(p, members, user, s, rank), ConfigOf(p, s);
            && Enforces(sec, cfg) && key in cfg.entries
            && I.Kept(cfg, I.RunAll(sec, db, run), sessions, key) == I.Kept(cfg, db, sessions, key)
            && (forall sess, id | sess in sessions && id in I.View(sec, I.RunAll(sec, db, run), sess, key) ::
                  !I.Foreign(cfg, sess, key, I.View(sec, I.RunAll(sec, db, run), sess, key)[id]))
  {
    var sec, cfg := SecurityAfter(p, members, user, s, rank), ConfigOf(p, s);
    CommitEnforces(p, members, user, s, rank);
    assert key !in Unclassified(p, Managed(p, s));
    assert EnforcedAt(sec, cfg, key);
    I.RunKeepsForeignRows(sec, cfg, db, sessions, run, key);
    var after := I.RunAll(sec, db, run);
    forall sess, id | sess in sessions && id in I.View(sec, after, sess, key)
      ensures !I.Foreign(cfg, sess, key, I.View(sec, after, sess, key)[id])
    {
      if I.Foreign(cfg, sess, key, Rows(after, key)[id]) {
        I.ForeignIsHidden(sec, cfg, after, sess, key, Rows(after, key)[id]);
      }
    }
  }
}
