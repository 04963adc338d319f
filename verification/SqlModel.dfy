/**
 * The fragment of SQL that the row policies use: nullable values, three-valued logic,
 * the session settings behind `shield_rls.*`, and policy expressions as syntax trees.
 */
module SqlModel {
  import opened Common

  /** A column value. `Uuid` holds the canonical (lower-case) spelling. */
  datatype Value = Null | Text(s: string) | Uuid(hex: string) | Num(n: int)

  datatype Tri = True | False | Unknown

  function Or3(a: Tri, b: Tri): Tri {
    if a == True || b == True then True
    else if a == Unknown || b == Unknown then Unknown
    else False
  }

  function And3(a: Tri, b: Tri): Tri {
    if a == False || b == False then False
    else if a == Unknown || b == Unknown then Unknown
    else True
  }

  function Lift(b: bool): Tri {
    if b then True else False
  }

  /** SQL `=`: a NULL on either side makes the comparison unknown. */
  function Eq3(a: Value, b: Value): Tri {
    if a == Null || b == Null then Unknown else Lift(a == b)
  }

  /** What the row policies can observe of a database session. */
  datatype Session = Session(
    tenantSetting: Option<string>,
    platformSetting: Option<string>,
    platformMember: bool,
    tableOwner: bool)

  predicate IsHexDigit(c: char) {
    '0' <= c <= '9' || 'a' <= c <= 'f' || 'A' <= c <= 'F'
  }

  function LowerHex(c: char): char {
    match c
    case 'A' => 'a' case 'B' => 'b' case 'C' => 'c'
    case 'D' => 'd' case 'E' => 'e' case 'F' => 'f'
    case _ => c
  }

  /** The `~*` pattern of shield_rls.tenant_uuid(): 8-4-4-4-12 hexadecimal digits. */
  predicate IsUuidText(s: string) {
    && |s| == 36
    && forall i | 0 <= i < 36 ::
         if i in {8, 13, 18, 23} then s[i] == '-' else IsHexDigit(s[i])
  }

  /** NULLIF(current_setting('app.tenant_id', true), '') */
  function TenantId(sess: Session): Value {
    match sess.tenantSetting
    case None => Null
    case Some(t) => if t == "" then Null else Text(t)
  }

  /** The session tenant as a uuid; NULL when the setting is not shaped like one. */
  function TenantUuid(sess: Session): Value {
    match TenantId(sess)
    case Text(t) => if IsUuidText(t) then Uuid(seq(|t|, i requires 0 <= i < |t| => LowerHex(t[i]))) else Null
    case _ => Null
  }

  /** Both the session declaration and the role membership are needed. */
  predicate IsPlatform(sess: Session) {
    sess.platformSetting == Some("on") && sess.platformMember
  }

  datatype Term = Col(name: string) | TenantIdCall | TenantUuidCall

  datatype Expr =
    | Eq(left: Term, right: Term)
    | IsNull(column: string)
    | And(l: Expr, r: Expr)
    | Or(l: Expr, r: Expr)
    | IsPlatformCall
    | AccountVisibleCall(column: string)
    // EXISTS (SELECT 1 FROM table x WHERE x.inner = <this row>.outer)
    | ExistsRow(table: string, inner: string, outer: string)

  type Row = map<string, Value>

  function Get(row: Row, column: string): Value {
    if column in row then row[column] else Null
  }

  function TermValue(sess: Session, row: Row, t: Term): Value {
    match t
    case Col(name) => Get(row, name)
    case TenantIdCall => TenantId(sess)
    case TenantUuidCall => TenantUuid(sess)
  }

  /** The table account_visible() looks in. */
  const BINDING := "commercial.CommercialAccountTenantBinding"

  /** The table a group_account policy looks in. */
  const ACCOUNT := "commercial.CommercialAccount"

  /** The tables an expression selects from. */
  function Reads(e: Expr): set<string> {
    match e
    case And(l, r) => Reads(l) + Reads(r)
    case Or(l, r) => Reads(l) + Reads(r)
    case AccountVisibleCall(_) => {BINDING}
    case ExistsRow(t, _, _) => {t}
    case _ => {}
  }
}
