/**
 * `expressions` and `policyStatements`: from an isolation kind to the policies of a table.
 * SQL text is represented by syntax trees; every place where the script throws is an `Err`.
 */
module PolicyCompiler {
  import opened Common
  import opened SqlModel

  datatype Kind =
    | Tenant | TenantOrShared | TenantOrAccount | TenantOrParent
    | Account | AccountOrShared | Parent | TenantPair | GroupAccount
    | Global | ControlPlane
    | OtherKind(name: string)

  /** A policy entry; an absent string property is "" and an absent list is []. */
  datatype Entry = Entry(kind: Kind, parent: string, fk: string, column: string, columns: seq<string>)

  datatype Column = Column(typ: string, notNull: bool)

  type Columns = map<string, Column>

  datatype Error =
    | UnsafeIdentifier(name: string)
    | BadTableKey(key: string)
    | MissingColumn(key: string, column: string)
    | NoTenantColumn(key: string)
    | UnknownKind(key: string)
    | SqlSyntax(key: string)

  predicate IsIdentStart(c: char) {
    'A' <= c <= 'Z' || 'a' <= c <= 'z' || c == '_'
  }

  predicate IsIdentChar(c: char) {
    IsIdentStart(c) || '0' <= c <= '9'
  }

  predicate IsIdentifier(name: string) {
    |name| > 0 && IsIdentStart(name[0]) && forall c | c in name :: IsIdentChar(c)
  }

  function Ident(name: string): Result<string, Error> {
    if IsIdentifier(name) then Ok(name) else Err(UnsafeIdentifier(name))
  }

  /** JavaScript's key.split('.'). */
  function SplitDots(key: string): (parts: seq<string>)
    ensures |parts| > 0
  {
    if key == "" then [""]
    else
      var rest := SplitDots(key[1..]);
      if key[0] == '.' then [""] + rest
      else [[key[0]] + rest[0]] + rest[1..]
  }

  function SplitKey(key: string): Result<(string, string), Error> {
    var parts := SplitDots(key);
    if |parts| == 2 then Ok((parts[0], parts[1])) else Err(BadTableKey(key))
  }

  function Qualified(key: string): Result<(string, string), Error> {
    var parts :- SplitKey(key);
    var schema :- Ident(parts.0);
    var table :- Ident(parts.1);
    Ok((schema, table))
  }

  datatype ReadWrite = ReadWrite(read: Expr, write: Option<Expr>)

  function Col(key: string, columns: Columns, name: string): Result<string, Error> {
    if name !in columns then Err(MissingColumn(key, name)) else Ident(name)
  }

  /** The column that carries the owning tenant, if the table has one. */
  function StampColumn(columns: Columns): Option<string> {
    if "tenant_id" in columns then Some("tenant_id")
    else if "tenantId" in columns then Some("tenantId")
    else None
  }

  function StampCall(columns: Columns, name: string): Term
    requires name in columns
  {
    if columns[name].typ == "uuid" then TenantUuidCall else TenantIdCall
  }

  function TenantMatch(key: string, columns: Columns): Result<(string, Expr), Error> {
    match StampColumn(columns)
    case None => Err(NoTenantColumn(key))
    case Some(name) => Ok((name, Eq(Term.Col(name), StampCall(columns, name))))
  }

  function ParentVisible(key: string, entry: Entry, columns: Columns): Result<Expr, Error> {
    var _ :- Qualified(entry.parent);
    var fk :- Col(key, columns, entry.fk);
    Ok(ExistsRow(entry.parent, "id", fk))
  }

  function AccountColumn(entry: Entry): string {
    if entry.column == "" then "commercial_account_id" else entry.column
  }

  /** c1 = tenant_id() OR c2 = tenant_id() OR ... */
  function PairMatch(key: string, columns: Columns, names: seq<string>): Result<Expr, Error>
    requires names != []
  {
    var last :- Col(key, columns, names[|names| - 1]);
    var test := Eq(Term.Col(last), TenantIdCall);
    if |names| == 1 then Ok(test)
    else
      var before :- PairMatch(key, columns, names[..|names| - 1]);
      Ok(Or(before, test))
  }

  function Expressions(key: string, entry: Entry, columns: Columns): Result<ReadWrite, Error> {
    var parts :- SplitKey(key);
    var _ :- Ident(parts.1);
    match entry.kind
    case Tenant =>
      var t :- TenantMatch(key, columns);
      Ok(ReadWrite(Or(t.1, IsPlatformCall), None))
    case TenantOrShared =>
      var t :- TenantMatch(key, columns);
      Ok(ReadWrite(Or(Or(t.1, IsNull(t.0)), IsPlatformCall), Some(Or(t.1, IsPlatformCall))))
    case TenantOrAccount =>
      var t :- TenantMatch(key, columns);
      var account :- Col(key, columns, AccountColumn(entry));
      Ok(ReadWrite(Or(Or(t.1, And(IsNull(t.0), AccountVisibleCall(account))), IsPlatformCall), None))
    case TenantOrParent =>
      var t :- TenantMatch(key, columns);
      var parent :- ParentVisible(key, entry, columns);
      Ok(ReadWrite(Or(Or(t.1, And(IsNull(t.0), parent)), IsPlatformCall), None))
    case Account =>
      var account :- Col(key, columns, AccountColumn(entry));
      Ok(ReadWrite(Or(AccountVisibleCall(account), IsPlatformCall), None))
    case AccountOrShared =>
      var account :- Col(key, columns, AccountColumn(entry));
      Ok(ReadWrite(Or(Or(IsNull(account), AccountVisibleCall(account)), IsPlatformCall),
                   Some(Or(AccountVisibleCall(account), IsPlatformCall))))
    case Parent =>
      var parent :- ParentVisible(key, entry, columns);
      Ok(ReadWrite(Or(parent, IsPlatformCall), None))
    case TenantPair =>
      // an empty list yields the text " OR shield_rls.is_platform()", which PostgreSQL rejects
      if entry.columns == [] then Err(SqlSyntax(key))
      else
        var pair :- PairMatch(key, columns, entry.columns);
        Ok(ReadWrite(Or(pair, IsPlatformCall), None))
    case GroupAccount =>
      Ok(ReadWrite(Or(ExistsRow(ACCOUNT, "group_account_id", "id"), IsPlatformCall), None))
    case _ => Err(UnknownKind(key))
  }

  datatype Command = All | Select | Insert | Update | Delete

  datatype Policy = Policy(cmd: Command, using: Option<Expr>, check: Option<Expr>)

  datatype Statement =
    | EnableRls(key: string)
    | ForceRls(key: string)
    | NoForceRls(key: string)
    | DisableRls(key: string)
    | CreatePolicy(name: string, key: string, policy: Policy)
    | DropPolicy(name: string, key: string)

  /** The policies of a table, in the order they are created. */
  function PolicyList(rw: ReadWrite): seq<(string, Policy)> {
    if rw.write == None || rw.write == Some(rw.read) then
      [("shield_tenant_isolation", Policy(All, Some(rw.read), Some(rw.read)))]
    else
      // a combined policy would also let any tenant UPDATE or DELETE the shared rows
      [("shield_tenant_read", Policy(Select, Some(rw.read), None)),
       ("shield_tenant_insert", Policy(Insert, None, rw.write)),
       ("shield_tenant_update", Policy(Update, rw.write, rw.write)),
       ("shield_tenant_delete", Policy(Delete, rw.write, None))]
  }

  /** `policyStatements`: switch row security on, force it, and create the listed policies. */
  function Protect(key: string, list: seq<(string, Policy)>): seq<Statement> {
    [EnableRls(key), ForceRls(key)] + seq(|list|, i requires 0 <= i < |list| => CreatePolicy(list[i].0, key, list[i].1))
  }

  predicate IsExempt(kind: Kind) {
    kind == Global || kind == ControlPlane
  }
}
