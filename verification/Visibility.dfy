/**
 * What the compiled policies mean. The three-valued, mutually recursive evaluation is reduced
 * to reachability: a row is visible exactly when a chain of references leads from it to a row
 * that is open to the session in its own right.
 */
module Visibility {
  import opened Common
  import opened SqlModel
  import opened PolicyCompiler
  import opened RowSecurity

  /** A policy file together with the column catalogue it was compiled against. */
  datatype Config = Config(entries: map<string, Entry>, columns: map<string, Columns>)

  function PolicyMap(rw: ReadWrite): map<string, Policy> {
    if rw.write == None || rw.write == Some(rw.read) then
      map["shield_tenant_isolation" := Policy(All, Some(rw.read), Some(rw.read))]
    else
      map["shield_tenant_read" := Policy(Select, Some(rw.read), None),
          "shield_tenant_insert" := Policy(Insert, None, rw.write),
          "shield_tenant_update" := Policy(Update, rw.write, rw.write),
          "shield_tenant_delete" := Policy(Delete, rw.write, None)]
  }

  function WriteOf(rw: ReadWrite): Expr {
    match rw.write
    case None => rw.read
    case Some(w) => w
  }

  /** The catalogue holds, for every classified table, exactly what its entry compiles to. */
  ghost predicate Enforces(sec: Security, cfg: Config) {
    && Ranked(sec)
    && sec.tables.Keys == cfg.entries.Keys
    && forall key | key in cfg.entries :: EnforcedAt(sec, cfg, key)
  }

  ghost predicate EnforcedAt(sec: Security, cfg: Config, key: string) {
    && key in cfg.entries && key in cfg.columns && key in sec.tables
    && (IsExempt(cfg.entries[key].kind) ==> !sec.tables[key].enabled)
    && (!IsExempt(cfg.entries[key].kind) ==>
          var rw := Expressions(key, cfg.entries[key], cfg.columns[key]);
          rw.Ok? && sec.tables[key] == TableSecurity(true, true, PolicyMap(rw.value)))
  }

  /** The row carries a tenant stamp, and it is the session's. */
  predicate OwnStamp(sess: Session, columns: Columns, row: Row) {
    var c := StampColumn(columns);
    c.Some? && Get(row, c.value) != Null && Get(row, c.value) == TermValue(sess, row, StampCall(columns, c.value))
  }

  predicate NullStamp(columns: Columns, row: Row) {
    var c := StampColumn(columns);
    c.Some? && Get(row, c.value) == Null
  }

  /** One of the two tenant columns of a tenant_pair row names the session tenant. */
  predicate OwnPair(sess: Session, names: seq<string>, row: Row) {
    TenantId(sess) != Null && exists i | 0 <= i < |names| :: Get(row, names[i]) == TenantId(sess)
  }

  /** The row is readable in its own right, without looking at any other row. */
  predicate Open(cfg: Config, sess: Session, key: string, row: Row)
    requires key in cfg.entries && key in cfg.columns
  {
    var e := cfg.entries[key];
    var columns := cfg.columns[key];
    match e.kind
    case Tenant => OwnStamp(sess, columns, row)
    case TenantOrShared => OwnStamp(sess, columns, row) || NullStamp(columns, row)
    case TenantOrAccount => OwnStamp(sess, columns, row)
    case TenantOrParent => OwnStamp(sess, columns, row)
    case AccountOrShared => Get(row, AccountColumn(e)) == Null
    case TenantPair => OwnPair(sess, e.columns, row)
    case Global => true
    case ControlPlane => true
    case _ => false
  }

  /** The row borrows visibility from `other`, a row of table t. */
  predicate Borrows(sec: Security, cfg: Config, sess: Session, key: string, row: Row, t: string, other: Row)
    requires key in cfg.entries && key in cfg.columns
  {
    var e := cfg.entries[key];
    var fromParent := t == e.parent && Eq3(Get(other, "id"), Get(row, e.fk)) == True;
    var fromAccount := t == BINDING && BindsAccount(sec, sess, other, Get(row, AccountColumn(e)));
    match e.kind
    case TenantOrAccount => NullStamp(cfg.columns[key], row) && fromAccount
    case TenantOrParent => NullStamp(cfg.columns[key], row) && fromParent
    case Account => fromAccount
    case AccountOrShared => fromAccount
    case Parent => fromParent
    case GroupAccount => t == ACCOUNT && Eq3(Get(other, "group_account_id"), Get(row, "id")) == True
    case _ => false
  }

  /** The predicates an entry compiles to when nothing in it is wrong. */
  function Meant(entry: Entry, columns: Columns): ReadWrite
    requires entry.columns != [] || entry.kind != TenantPair
  {
    var stamp := StampColumn(columns).GetOr("");
    var own := Eq(Term.Col(stamp), if stamp in columns then StampCall(columns, stamp) else TenantIdCall);
    var account := AccountVisibleCall(AccountColumn(entry));
    var parent := ExistsRow(entry.parent, "id", entry.fk);
    match entry.kind
    case Tenant => ReadWrite(Or(own, IsPlatformCall), None)
    case TenantOrShared => ReadWrite(Or(Or(own, IsNull(stamp)), IsPlatformCall), Some(Or(own, IsPlatformCall)))
    case TenantOrAccount => ReadWrite(Or(Or(own, And(IsNull(stamp), account)), IsPlatformCall), None)
    case TenantOrParent => ReadWrite(Or(Or(own, And(IsNull(stamp), parent)), IsPlatformCall), None)
    case Account => ReadWrite(Or(account, IsPlatformCall), None)
    case AccountOrShared => ReadWrite(Or(Or(IsNull(AccountColumn(entry)), account), IsPlatformCall),
                                      Some(Or(account, IsPlatformCall)))
    case Parent => ReadWrite(Or(parent, IsPlatformCall), None)
    case TenantPair => ReadWrite(Or(PairTest(entry.columns), IsPlatformCall), None)
    case _ => ReadWrite(Or(ExistsRow(ACCOUNT, "group_account_id", "id"), IsPlatformCall), None)
  }

  function PairTest(names: seq<string>): Expr
    requires names != []
  {
    var test := Eq(Term.Col(names[|names| - 1]), TenantIdCall);
    if |names| == 1 then test else Or(PairTest(names[..|names| - 1]), test)
  }

  lemma {:induction false} PairMatchIsPairTest(key: string, columns: Columns, names: seq<string>)
    requires names != [] && PairMatch(key, columns, names).Ok?
    ensures PairMatch(key, columns, names).value == PairTest(names)
  {
    if |names| > 1 {
      PairMatchIsPairTest(key, columns, names[..|names| - 1]);
    }
  }

  /** When compilation succeeds it yields `Meant`, and never for an exempt or unknown kind. */
  lemma ExpressionsMean(key: string, entry: Entry, columns: Columns)
    requires Expressions(key, entry, columns).Ok?
    ensures !IsExempt(entry.kind) && !entry.kind.OtherKind?
    ensures entry.columns != [] || entry.kind != TenantPair
    ensures entry.kind in {Tenant, TenantOrShared, TenantOrAccount, TenantOrParent} ==> StampColumn(columns).Some?
    ensures Expressions(key, entry, columns).value == Meant(entry, columns)
  {
    if entry.kind == TenantPair {
      PairMatchIsPairTest(key, columns, entry.columns);
    }
  }

  lemma OwnPairGrows(sess: Session, before: seq<string>, last: string, row: Row)
    ensures OwnPair(sess, before + [last], row) <==>
              OwnPair(sess, before, row) || (TenantId(sess) != Null && Get(row, last) == TenantId(sess))
  {
    var names := before + [last];
    if OwnPair(sess, before, row) {
      var i :| 0 <= i < |before| && Get(row, before[i]) == TenantId(sess);
      assert names[i] == before[i];
    }
    assert names[|before|] == last;
  }

  lemma EvalIsTenant(sec: Security, db: Database, sess: Session, n: nat, column: string, row: Row)
    requires Ranked(sec)
    ensures var e := Eq(Term.Col(column), TenantIdCall);
            Reads(e) == {} && (Eval(sec, db, sess, n, e, row) == True <==>
                TenantId(sess) != Null && Get(row, column) == TenantId(sess))
  {
  }

  lemma {:induction false} PairMeaning(sec: Security, db: Database, sess: Session, n: nat, names: seq<string>, row: Row)
    requires Ranked(sec) && names != []
    ensures Reads(PairTest(names)) == {}
    ensures Eval(sec, db, sess, n, PairTest(names), row) == True <==> OwnPair(sess, names, row)
  {
    var before, last := names[..|names| - 1], names[|names| - 1];
    assert names == before + [last];
    OwnPairGrows(sess, before, last, row);
    EvalIsTenant(sec, db, sess, n, last, row);
    if |names| > 1 {
      PairMeaning(sec, db, sess, n, before, row);
      EvalOr(sec, db, sess, n, PairTest(before), Eq(Term.Col(last), TenantIdCall), row);
    }
  }

  /** Some referenced row passes its visibility on. */
  ghost predicate BorrowsFromSeen(sec: Security, cfg: Config, db: Database, sess: Session, key: string, row: Row)
    requires Ranked(sec) && key in cfg.entries && key in cfg.columns
  {
    exists t, id ::
      && t in sec.tables && id in Rows(db, t)
      && Borrows(sec, cfg, sess, key, row, t, Rows(db, t)[id])
      && Sees(sec, db, sess, t, Rows(db, t)[id])
  }

  ghost predicate Holds(sec: Security, key: string, rw: ReadWrite) {
    key in sec.tables && sec.tables[key] == TableSecurity(true, true, PolicyMap(rw))
  }

  /** The expression that decides a command on one side of a policy. */
  function Deciding(rw: ReadWrite, cmd: Command): Expr {
    if cmd == Select then rw.read else WriteOf(rw)
  }

  predicate Meaningful(cmd: Command, side: Side) {
    match cmd
    case Select => side == Using
    case Insert => side == Check
    case Update => true
    case Delete => side == Using
    case All => false
  }

  /** Exactly one compiled policy speaks for each command. */
  lemma DecidingPolicy(rw: ReadWrite, cmd: Command, side: Side) returns (name: string)
    requires Meaningful(cmd, side)
    ensures name in PolicyMap(rw) && SideOf(PolicyMap(rw)[name], side) == Some(Deciding(rw, cmd))
    ensures forall other | other in PolicyMap(rw) && AppliesTo(PolicyMap(rw)[other], cmd) :: other == name
    ensures AppliesTo(PolicyMap(rw)[name], cmd)
  {
    if rw.write == None || rw.write == Some(rw.read) {
      name := "shield_tenant_isolation";
    } else {
      name := match cmd
              case Select => "shield_tenant_read"
              case Insert => "shield_tenant_insert"
              case Update => "shield_tenant_update"
              case _ => "shield_tenant_delete";
    }
  }

  /** The policies of an isolated table come down to its read or its write expression. */
  lemma CommandMeaning(sec: Security, db: Database, sess: Session, key: string, rw: ReadWrite, cmd: Command,
                       side: Side, row: Row)
    requires Ranked(sec) && Holds(sec, key, rw) && Meaningful(cmd, side)
    ensures ReadsBelow(sec, Rank(sec, key), Deciding(rw, cmd))
    ensures Admits(sec, db, sess, key, cmd, side, row) <==>
              Eval(sec, db, sess, Rank(sec, key), Deciding(rw, cmd), row) == True
  {
    var name := DecidingPolicy(rw, cmd, side);
    assert OptReadsBelow(sec, Rank(sec, key), sec.tables[key].policies[name].using);
    assert OptReadsBelow(sec, Rank(sec, key), sec.tables[key].policies[name].check);
  }

  /** `a OR shield_rls.is_platform()` */
  lemma EvalOrPlatform(sec: Security, db: Database, sess: Session, n: nat, a: Expr, row: Row)
    requires Ranked(sec) && ReadsBelow(sec, n, Or(a, IsPlatformCall))
    ensures ReadsBelow(sec, n, a)
    ensures Eval(sec, db, sess, n, Or(a, IsPlatformCall), row) == True <==>
              Eval(sec, db, sess, n, a, row) == True || IsPlatform(sess)
  {
    assert Reads(a) <= Reads(Or(a, IsPlatformCall));
  }

  lemma EvalOr(sec: Security, db: Database, sess: Session, n: nat, a: Expr, b: Expr, row: Row)
    requires Ranked(sec) && ReadsBelow(sec, n, Or(a, b))
    ensures ReadsBelow(sec, n, a) && ReadsBelow(sec, n, b)
    ensures Eval(sec, db, sess, n, Or(a, b), row) == True <==>
              Eval(sec, db, sess, n, a, row) == True || Eval(sec, db, sess, n, b, row) == True
  {
    assert Reads(a) <= Reads(Or(a, b)) && Reads(b) <= Reads(Or(a, b));
  }

  /** `stamp IS NULL AND e` */
  lemma EvalGuarded(sec: Security, db: Database, sess: Session, n: nat, c: string, e: Expr, row: Row)
    requires Ranked(sec) && ReadsBelow(sec, n, And(IsNull(c), e))
    ensures ReadsBelow(sec, n, e)
    ensures Eval(sec, db, sess, n, And(IsNull(c), e), row) == True <==>
              Get(row, c) == Null && Eval(sec, db, sess, n, e, row) == True
  {
    assert Reads(e) <= Reads(And(IsNull(c), e));
  }

  /** The subquery through which a row may borrow visibility. */
  function Lookup(entry: Entry): Option<Expr> {
    match entry.kind
    case TenantOrAccount => Some(AccountVisibleCall(AccountColumn(entry)))
    case Account => Some(AccountVisibleCall(AccountColumn(entry)))
    case AccountOrShared => Some(AccountVisibleCall(AccountColumn(entry)))
    case TenantOrParent => Some(ExistsRow(entry.parent, "id", entry.fk))
    case Parent => Some(ExistsRow(entry.parent, "id", entry.fk))
    case GroupAccount => Some(ExistsRow(ACCOUNT, "group_account_id", "id"))
    case _ => None
  }

  ghost predicate LookupHolds(sec: Security, db: Database, sess: Session, n: nat, entry: Entry, columns: Columns,
                              row: Row)
    requires Ranked(sec) && (Lookup(entry).Some? ==> ReadsBelow(sec, n, Lookup(entry).value))
  {
    && Lookup(entry).Some?
    && Eval(sec, db, sess, n, Lookup(entry).value, row) == True
    && (entry.kind in {TenantOrAccount, TenantOrParent} ==> NullStamp(columns, row))
  }

  /** Borrowing is the lookup succeeding, behind `stamp IS NULL` where the kind has a stamp. */
  lemma BorrowMeaning(sec: Security, cfg: Config, db: Database, sess: Session, key: string, row: Row)
    requires Ranked(sec) && key in cfg.entries && key in cfg.columns
    requires Lookup(cfg.entries[key]).Some? ==> ReadsBelow(sec, Rank(sec, key), Lookup(cfg.entries[key]).value)
    ensures BorrowsFromSeen(sec, cfg, db, sess, key, row) <==>
              LookupHolds(sec, db, sess, Rank(sec, key), cfg.entries[key], cfg.columns[key], row)
  {
    var e := cfg.entries[key];
    if Lookup(e).Some? {
      BorrowsOneTable(sec, cfg, db, sess, key, row);
    }
  }

  function LookupTable(look: Expr): string {
    if look.ExistsRow? then look.table else BINDING
  }

  /** Visibility is borrowed from the one table that the lookup names. */
  lemma BorrowsOneTable(sec: Security, cfg: Config, db: Database, sess: Session, key: string, row: Row)
    requires Ranked(sec) && key in cfg.entries && key in cfg.columns && Lookup(cfg.entries[key]).Some?
    requires ReadsBelow(sec, Rank(sec, key), Lookup(cfg.entries[key]).value)
    ensures var t := LookupTable(Lookup(cfg.entries[key]).value);
            && t in sec.tables && Rank(sec, t) < Rank(sec, key)
            && (BorrowsFromSeen(sec, cfg, db, sess, key, row) <==>
                  exists id | id in Rows(db, t) ::
                    Borrows(sec, cfg, sess, key, row, t, Rows(db, t)[id]) && Sees(sec, db, sess, t, Rows(db, t)[id]))
  {
    assert LookupTable(Lookup(cfg.entries[key]).value) in Reads(Lookup(cfg.entries[key]).value);
  }

  predicate HasStamp(kind: Kind) {
    kind in {Tenant, TenantOrShared, TenantOrAccount, TenantOrParent}
  }

  /** What successful compilation says about an entry. */
  predicate WellFormed(entry: Entry, columns: Columns) {
    && !IsExempt(entry.kind) && !entry.kind.OtherKind?
    && (entry.kind == TenantPair ==> entry.columns != [])
    && (HasStamp(entry.kind) ==> StampColumn(columns).Some?)
  }

  function OwnTest(columns: Columns): Expr
    requires StampColumn(columns).Some?
  {
    Eq(Term.Col(StampColumn(columns).value), StampCall(columns, StampColumn(columns).value))
  }

  /** The test a row passes without looking at other rows. */
  function Direct(entry: Entry, columns: Columns): Option<Expr>
    requires WellFormed(entry, columns)
  {
    match entry.kind
    case TenantOrShared => Some(Or(OwnTest(columns), IsNull(StampColumn(columns).value)))
    case AccountOrShared => Some(IsNull(AccountColumn(entry)))
    case TenantPair => Some(PairTest(entry.columns))
    case Tenant => Some(OwnTest(columns))
    case TenantOrAccount => Some(OwnTest(columns))
    case TenantOrParent => Some(OwnTest(columns))
    case _ => None
  }

  lemma DirectIsOpen(sec: Security, cfg: Config, db: Database, sess: Session, key: string, n: nat, row: Row)
    requires Ranked(sec) && key in cfg.entries && key in cfg.columns && WellFormed(cfg.entries[key], cfg.columns[key])
    ensures var d := Direct(cfg.entries[key], cfg.columns[key]);
            && (d.Some? ==> Reads(d.value) == {})
            && (Open(cfg, sess, key, row) <==> d.Some? && Eval(sec, db, sess, n, d.value, row) == True)
  {
    var e := cfg.entries[key];
    if e.kind == TenantPair {
      PairMeaning(sec, db, sess, n, e.columns, row);
    }
  }

  /** Every read expression is a direct test, a guarded lookup, or both, or platform scope. */
  lemma MeantShape(entry: Entry, columns: Columns)
    requires WellFormed(entry, columns)
    ensures var d, k, read := Direct(entry, columns), Lookup(entry), Meant(entry, columns).read;
            var look := if entry.kind in {TenantOrAccount, TenantOrParent}
                        then And(IsNull(StampColumn(columns).value), k.value) else k.GetOr(IsPlatformCall);
            && (d.Some? || k.Some?)
            && read == Or(if d.None? then look else if k.None? then d.value else Or(d.value, look), IsPlatformCall)
  {
  }

  lemma EvalMeant(sec: Security, db: Database, sess: Session, n: nat, e: Entry, columns: Columns, row: Row)
    requires Ranked(sec) && WellFormed(e, columns) && ReadsBelow(sec, n, Meant(e, columns).read)
    requires Direct(e, columns).Some? ==> Reads(Direct(e, columns).value) == {}
    ensures Lookup(e).Some? ==> ReadsBelow(sec, n, Lookup(e).value)
    ensures Eval(sec, db, sess, n, Meant(e, columns).read, row) == True <==>
              || IsPlatform(sess)
              || (Direct(e, columns).Some? && Eval(sec, db, sess, n, Direct(e, columns).value, row) == True)
              || LookupHolds(sec, db, sess, n, e, columns, row)
  {
    MeantShape(e, columns);
    var d, k := Direct(e, columns), Lookup(e);
    var a := Meant(e, columns).read.l;
    EvalOrPlatform(sec, db, sess, n, a, row);
    var guarded := e.kind in {TenantOrAccount, TenantOrParent};
    if k.Some? {
      var look := if guarded then And(IsNull(StampColumn(columns).value), k.value) else k.value;
      if d.Some? {
        EvalOr(sec, db, sess, n, d.value, look, row);
      }
      if guarded {
        EvalGuarded(sec, db, sess, n, StampColumn(columns).value, k.value, row);
      }
    }
  }

  /** One unfolding of visibility, for every isolation kind and with NULLs accounted for. */
  lemma SeesStep(sec: Security, cfg: Config, db: Database, sess: Session, key: string, row: Row)
    requires Enforces(sec, cfg) && key in cfg.entries && EnforcedAt(sec, cfg, key)
    ensures Sees(sec, db, sess, key, row) <==>
              IsPlatform(sess) || Open(cfg, sess, key, row) || BorrowsFromSeen(sec, cfg, db, sess, key, row)
  {
    var e := cfg.entries[key];
    if !IsExempt(e.kind) {
      ExpressionsMean(key, e, cfg.columns[key]);
      CommandMeaning(sec, db, sess, key, Meant(e, cfg.columns[key]), Select, Using, row);
      DirectIsOpen(sec, cfg, db, sess, key, Rank(sec, key), row);
      EvalMeant(sec, db, sess, Rank(sec, key), e, cfg.columns[key], row);
      BorrowMeaning(sec, cfg, db, sess, key, row);
    }
  }

  /** Lookups only go to classified tables of smaller rank. */
  lemma LookupBelow(sec: Security, cfg: Config, key: string)
    requires Enforces(sec, cfg) && key in cfg.entries && Lookup(cfg.entries[key]).Some?
    ensures ReadsBelow(sec, Rank(sec, key), Lookup(cfg.entries[key]).value)
  {
    assert EnforcedAt(sec, cfg, key);
    var e := cfg.entries[key];
    var sess := Session(None, None, false, false);
    ExpressionsMean(key, e, cfg.columns[key]);
    CommandMeaning(sec, map[], sess, key, Meant(e, cfg.columns[key]), Select, Using, map[]);
    DirectIsOpen(sec, cfg, map[], sess, key, Rank(sec, key), map[]);
    EvalMeant(sec, map[], sess, Rank(sec, key), e, cfg.columns[key], map[]);
  }

  /** Visibility is only ever borrowed from a table of smaller rank. */
  lemma BorrowsBelow(sec: Security, cfg: Config, sess: Session, key: string, row: Row, t: string, other: Row)
    requires Enforces(sec, cfg) && key in cfg.entries && EnforcedAt(sec, cfg, key)
    requires Borrows(sec, cfg, sess, key, row, t, other)
    ensures t in cfg.entries && Rank(sec, t) < Rank(sec, key)
  {
    LookupBelow(sec, cfg, key);
    assert t in Reads(Lookup(cfg.entries[key]).value);
  }

  datatype Hop = Hop(key: string, row: Row)

  /** Each row borrows from the next, stored, row, and the last one is open to the session. */
  ghost predicate Chain(sec: Security, cfg: Config, db: Database, sess: Session, path: seq<Hop>) {
    && path != []
    && (forall i | 0 <= i < |path| :: path[i].key in cfg.entries && path[i].key in cfg.columns)
    && (forall i | 0 < i < |path| ::
          && path[i].row in Rows(db, path[i].key).Values
          && Borrows(sec, cfg, sess, path[i - 1].key, path[i - 1].row, path[i].key, path[i].row))
    && Open(cfg, sess, path[|path| - 1].key, path[|path| - 1].row)
  }

  lemma ChainFrom(sec: Security, cfg: Config, db: Database, sess: Session, h: Hop, rest: seq<Hop>)
    requires Chain(sec, cfg, db, sess, rest) && h.key in cfg.entries && h.key in cfg.columns
    requires rest[0].row in Rows(db, rest[0].key).Values
    requires Borrows(sec, cfg, sess, h.key, h.row, rest[0].key, rest[0].row)
    ensures Chain(sec, cfg, db, sess, [h] + rest)
  {
    var path := [h] + rest;
    assert forall i | 0 < i < |path| :: path[i] == rest[i - 1];
  }

  lemma BorrowsFrom(sec: Security, cfg: Config, db: Database, sess: Session, key: string, row: Row)
    returns (t: string, other: Row)
    requires Enforces(sec, cfg) && key in cfg.entries && EnforcedAt(sec, cfg, key)
    requires BorrowsFromSeen(sec, cfg, db, sess, key, row)
    ensures Borrows(sec, cfg, sess, key, row, t, other) && Sees(sec, db, sess, t, other) && other in Rows(db, t).Values
    ensures t in cfg.entries && Rank(sec, t) < Rank(sec, key)
  {
    var table, id :| table in sec.tables && id in Rows(db, table)
      && Borrows(sec, cfg, sess, key, row, table, Rows(db, table)[id])
          && Sees(sec, db, sess, table, Rows(db, table)[id]);
    t, other := table, Rows(db, table)[id];
    BorrowsBelow(sec, cfg, sess, key, row, t, other);
  }

  lemma {:induction false} SeenHasChain(sec: Security, cfg: Config, db: Database, sess: Session, key: string, row: Row)
    returns (path: seq<Hop>)
    requires Enforces(sec, cfg) && key in cfg.entries && !IsPlatform(sess)
    requires Sees(sec, db, sess, key, row)
    ensures Chain(sec, cfg, db, sess, path) && path[0] == Hop(key, row)
    decreases Rank(sec, key)
  {
    assert EnforcedAt(sec, cfg, key);
    SeesStep(sec, cfg, db, sess, key, row);
    if Open(cfg, sess, key, row) {
      path := [Hop(key, row)];
    } else {
      var t, other := BorrowsFrom(sec, cfg, db, sess, key, row);
      var rest := SeenHasChain(sec, cfg, db, sess, t, other);
      ChainFrom(sec, cfg, db, sess, Hop(key, row), rest);
      path := [Hop(key, row)] + rest;
    }
  }

  lemma {:induction false} ChainIsSeen(sec: Security, cfg: Config, db: Database, sess: Session, path: seq<Hop>)
    requires Enforces(sec, cfg) && Chain(sec, cfg, db, sess, path)
    ensures Sees(sec, db, sess, path[0].key, path[0].row)
    decreases |path|
  {
    var h := path[0];
    assert EnforcedAt(sec, cfg, h.key);
    SeesStep(sec, cfg, db, sess, h.key, h.row);
    if |path| > 1 {
      var t, other := path[1].key, path[1].row;
      assert Borrows(sec, cfg, sess, path[0].key, path[0].row, path[1].key, path[1].row);
      ChainIsSeen(sec, cfg, db, sess, path[1..]);
      var id :| id in Rows(db, t) && Rows(db, t)[id] == other;
    }
  }

  /**
   * Off platform scope, a row is visible exactly when following foreign keys, account bindings
   * and group memberships from it reaches a row that is open to the session in its own right.
   */
  lemma VisibleIffChain(sec: Security, cfg: Config, db: Database, sess: Session, key: string, row: Row)
    requires Enforces(sec, cfg) && key in cfg.entries && !IsPlatform(sess)
    ensures Sees(sec, db, sess, key, row) <==>
              exists path :: Chain(sec, cfg, db, sess, path) && path[0] == Hop(key, row)
  {
    if Sees(sec, db, sess, key, row) {
      var path := SeenHasChain(sec, cfg, db, sess, key, row);
    }
    if path :| Chain(sec, cfg, db, sess, path) && path[0] == Hop(key, row) {
      ChainIsSeen(sec, cfg, db, sess, path);
    }
  }

  /**
   * Writing is reading, except in the two shared kinds: there a shared row (NULL stamp or NULL
   * account) can be read by everyone and written by nobody off platform scope.
   */
  lemma WriteMeaning(sec: Security, cfg: Config, db: Database, sess: Session, key: string, cmd: Command, side: Side,
                     row: Row)
    requires Enforces(sec, cfg) && key in cfg.entries && EnforcedAt(sec, cfg, key) && !IsExempt(cfg.entries[key].kind)
    requires cmd != Select && Meaningful(cmd, side)
    ensures Admits(sec, db, sess, key, cmd, side, row) <==>
              && Sees(sec, db, sess, key, row)
              && (cfg.entries[key].kind == TenantOrShared ==> IsPlatform(sess) || OwnStamp(sess, cfg.columns[key], row))
              && (cfg.entries[key].kind == AccountOrShared ==>
                    IsPlatform(sess) || BorrowsFromSeen(sec, cfg, db, sess, key, row))
  {
    var rw := Meant(cfg.entries[key], cfg.columns[key]);
    ExpressionsMean(key, cfg.entries[key], cfg.columns[key]);
    CommandMeaning(sec, db, sess, key, rw, cmd, side, row);
    CommandMeaning(sec, db, sess, key, rw, Select, Using, row);
    if rw.write.Some? {
      SharedWriteMeaning(sec, cfg, db, sess, key, row);
    }
  }

  /** The write expression of the two shared kinds. */
  lemma SharedWriteMeaning(sec: Security, cfg: Config, db: Database, sess: Session, key: string, row: Row)
    requires Enforces(sec, cfg) && key in cfg.entries && EnforcedAt(sec, cfg, key)
    requires Meant(cfg.entries[key], cfg.columns[key]).write.Some?
    requires ReadsBelow(sec, Rank(sec, key), Meant(cfg.entries[key], cfg.columns[key]).write.value)
    ensures Eval(sec, db, sess, Rank(sec, key), Meant(cfg.entries[key], cfg.columns[key]).write.value, row) == True <==>
              && Sees(sec, db, sess, key, row)
              && (cfg.entries[key].kind == TenantOrShared ==> IsPlatform(sess) || OwnStamp(sess, cfg.columns[key], row))
              && (cfg.entries[key].kind == AccountOrShared ==>
                    IsPlatform(sess) || BorrowsFromSeen(sec, cfg, db, sess, key, row))
  {
    var rw := Meant(cfg.entries[key], cfg.columns[key]);
    SeesStep(sec, cfg, db, sess, key, row);
    EvalOrPlatform(sec, db, sess, Rank(sec, key), rw.write.value.l, row);
    BorrowMeaning(sec, cfg, db, sess, key, row);
  }
}
