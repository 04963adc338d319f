/**
 * What PostgreSQL does with the policies: a row is subject to the permissive policies of its
 * table, and a subquery inside a policy is itself filtered by the policies of the table it reads.
 */
module RowSecurity {
  import opened Common
  import opened SqlModel
  import opened PolicyCompiler

  datatype TableSecurity = TableSecurity(enabled: bool, forced: bool, policies: map<string, Policy>)

  /** The row-security catalogue. `rank` orders the tables so that policies only read smaller ones. */
  datatype Security = Security(
    tables: map<string, TableSecurity>,
    bindingStates: set<string>,
    rank: map<string, nat>)

  function Rank(sec: Security, key: string): nat {
    if key in sec.rank then sec.rank[key] else 0
  }

  ghost predicate ReadsBelow(sec: Security, n: nat, e: Expr) {
    forall t | t in Reads(e) :: t in sec.tables && Rank(sec, t) < n
  }

  ghost predicate OptReadsBelow(sec: Security, n: nat, e: Option<Expr>) {
    e.Some? ==> ReadsBelow(sec, n, e.value)
  }

  /** Policies read no table that (transitively) reads back; PostgreSQL rejects the query otherwise. */
  ghost predicate Ranked(sec: Security) {
    forall key, name | key in sec.tables && name in sec.tables[key].policies ::
      && OptReadsBelow(sec, Rank(sec, key), sec.tables[key].policies[name].using)
      && OptReadsBelow(sec, Rank(sec, key), sec.tables[key].policies[name].check)
  }

  type Table = map<nat, Row>
  type Database = map<string, Table>

  function Rows(db: Database, key: string): Table {
    if key in db then db[key] else map[]
  }

  /** Row-level security applies to a session unless it owns the table and it is not forced. */
  predicate Filtered(ts: TableSecurity, sess: Session) {
    ts.enabled && (ts.forced || !sess.tableOwner)
  }

  datatype Side = Using | Check

  /** The expression a policy contributes; a missing WITH CHECK falls back to USING. */
  function SideOf(p: Policy, side: Side): Option<Expr> {
    if side == Check && p.check.Some? then p.check else p.using
  }

  predicate AppliesTo(p: Policy, cmd: Command) {
    p.cmd == All || p.cmd == cmd
  }

  /** Some permissive policy for the command is true of the row (default deny). */
  ghost predicate Admits(sec: Security, db: Database, sess: Session, key: string, cmd: Command, side: Side, row: Row)
    requires Ranked(sec) && key in sec.tables
    decreases Rank(sec, key), 1
  {
    var ts := sec.tables[key];
    Filtered(ts, sess) ==>
      exists name | name in ts.policies ::
        && AppliesTo(ts.policies[name], cmd)
        && SideOf(ts.policies[name], side).Some?
        && Eval(sec, db, sess, Rank(sec, key), SideOf(ts.policies[name], side).value, row) == True
  }

  ghost predicate Sees(sec: Security, db: Database, sess: Session, key: string, row: Row)
    requires Ranked(sec) && key in sec.tables
    decreases Rank(sec, key), 2
  {
    Admits(sec, db, sess, key, Select, Using, row)
  }

  /** The binding row ties the account to the session tenant in a visible state. */
  predicate BindsAccount(sec: Security, sess: Session, binding: Row, account: Value) {
    && Eq3(Get(binding, "commercial_account_id"), account) == True
    && Eq3(Get(binding, "tenant_id"), TenantId(sess)) == True
    && Get(binding, "status").Text?
    && Get(binding, "status").s in sec.bindingStates
  }

  /** Evaluate a policy expression of a table of rank n on one of its rows. */
  ghost function Eval(sec: Security, db: Database, sess: Session, n: nat, e: Expr, row: Row): Tri
    requires Ranked(sec) && ReadsBelow(sec, n, e)
    decreases n, 0, e
  {
    match e
    case Eq(l, r) => Eq3(TermValue(sess, row, l), TermValue(sess, row, r))
    case IsNull(c) => Lift(Get(row, c) == Null)
    case And(l, r) =>
      assert Reads(l) <= Reads(e) && Reads(r) <= Reads(e);
      And3(Eval(sec, db, sess, n, l, row), Eval(sec, db, sess, n, r, row))
    case Or(l, r) =>
      assert Reads(l) <= Reads(e) && Reads(r) <= Reads(e);
      Or3(Eval(sec, db, sess, n, l, row), Eval(sec, db, sess, n, r, row))
    case IsPlatformCall => Lift(IsPlatform(sess))
    case AccountVisibleCall(c) =>
      assert BINDING in Reads(e);
      Lift(Get(row, c) != Null &&
           exists id | id in Rows(db, BINDING) ::
             && BindsAccount(sec, sess, Rows(db, BINDING)[id], Get(row, c))
             && Sees(sec, db, sess, BINDING, Rows(db, BINDING)[id]))
    case ExistsRow(t, inner, outer) =>
      assert t in Reads(e);
      Lift(exists id | id in Rows(db, t) ::
             && Eq3(Get(Rows(db, t)[id], inner), Get(row, outer)) == True
             && Sees(sec, db, sess, t, Rows(db, t)[id]))
  }
}
